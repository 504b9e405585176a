/**
 * pkg/driver/identityserver.go: the identity service. Its handlers read
 * only the driver's name and version.
 */
module Identity {
  import opened Wrappers
  import opened Csi

  datatype PluginInfo = PluginInfo(name: string, vendorVersion: string)

  /** ProbeResponse with its optional `ready` field left unset. */
  datatype ProbeResponse = ProbeResponse(ready: Option<bool>)

  /** csi.PluginCapability_Service_Type */
  datatype ServiceType = UnknownService | ControllerService | VolumeAccessibilityConstraints | GroupControllerService

  /** csi.PluginCapability_VolumeExpansion_Type */
  datatype ExpansionType = UnknownExpansion | Online | Offline

  datatype PluginCapability = Service(serviceType: ServiceType) | VolumeExpansion(expansionType: ExpansionType)

  /** `name` and `version` are the driver's name and version. A missing
      name is reported first, then a missing version; both are Unavailable. */
  function GetPluginInfo(name: string, version: string): (r: Reply<PluginInfo>)
    ensures name == "" ==> r == Err(Unavailable)
    ensures name != "" && version == "" ==> r == Err(Unavailable)
    ensures r.Ok? <==> name != "" && version != ""
    ensures r.Ok? ==> r.value == PluginInfo(name, version)
  {
    if name == "" then Err(Unavailable)
    else if version == "" then Err(Unavailable)
    else Ok(PluginInfo(name, version))
  }

  /** Probe always succeeds, with an empty response. */
  function Probe(): (r: Reply<ProbeResponse>)
    ensures r.Ok? && r.value.ready.None?
  {
    Ok(ProbeResponse(None))
  }

  /** Exactly four capabilities: the controller service, accessibility
      constraints, online expansion and offline expansion, in this order. */
  function GetPluginCapabilities(): (r: Reply<seq<PluginCapability>>)
    ensures r.Ok? && |r.value| == 4
    ensures r.value[0] == Service(ControllerService) && r.value[1] == Service(VolumeAccessibilityConstraints)
    ensures r.value[2] == VolumeExpansion(Online) && r.value[3] == VolumeExpansion(Offline)
  {
    Ok([Service(ControllerService), Service(VolumeAccessibilityConstraints), VolumeExpansion(Online), VolumeExpansion(Offline)])
  }
}
