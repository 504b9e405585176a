/**
 * pkg/driver/driver.go: the Driver object, its capability tables, the
 * controller-capability check, the Setup* service switches and the guard
 * at the start of Run.
 */
module Plugin {
  import opened Wrappers
  import opened Csi
  import Utils

  /** DriverOpts */
  datatype DriverOpts = DriverOpts(endpoint: string, apiKey: string, apiAddress: string)

  /** The publish-context key under which ControllerPublishVolume passes the
      backend volume name to NodeStageVolume. */
  const VolNameKey: string := "hyperstack/volume-name"

  /** The controller capabilities NewDriver enables, in order. */
  const ControllerTable: seq<ControllerRpcType> := [
    ListVolumes, CreateDeleteVolume, PublishUnpublishVolume, CreateDeleteSnapshot, ListSnapshots,
    ExpandVolume, CloneVolume, ListVolumesPublishedNodes, ControllerRpcType.GetVolume]

  /** The node capabilities NewDriver enables, in order. */
  const NodeTable: seq<NodeRpcType> := [StageUnstageVolume, NodeExpandVolume, GetVolumeStats]

  /** The single access mode NewDriver enables. */
  const AccessModeTable: seq<Mode> := [SingleNodeWriter]

  /** Some entry of `cscap` carries RPC type `c`. */
  predicate Supports(cscap: seq<ControllerServiceCapability>, c: ControllerRpcType) {
    exists i :: 0 <= i < |cscap| && cscap[i].rpc == c
  }

  /** `cscap` wraps `table`, element by element. */
  predicate WrapsControllerTable(cscap: seq<ControllerServiceCapability>, table: seq<ControllerRpcType>) {
    |cscap| == |table| && forall i :: 0 <= i < |table| ==> cscap[i].rpc == table[i]
  }

  /** What Run does once its guard passes: the metrics registration and the
      gRPC server start are outside the model; `Serving` records the endpoint
      and the services handed to RunGRPCServer. */
  datatype RunOutcome =
    | NoServices
    | ServerFailed(err: string)
    | Serving(endpoint: string, identity: bool, controller: bool, node: bool)

  class Driver {
    var name: string
    var version: string
    var opts: DriverOpts
    // whether serviceIdentity / serviceController / serviceNode is set (non-nil)
    var serviceIdentity: bool
    var serviceController: bool
    var serviceNode: bool
    var cscap: seq<ControllerServiceCapability>
    var nscap: seq<NodeServiceCapability>
    var vcap: seq<AccessMode>

    /** NewDriver. `driverName` and `driverVersion` are the package variables
        DriverName and DriverVersion, set at link time. */
    constructor (opts: DriverOpts, driverName: string, driverVersion: string)
      ensures this.opts == opts && name == driverName && version == driverVersion
      ensures !serviceIdentity && !serviceController && !serviceNode
      ensures WrapsControllerTable(cscap, ControllerTable)
      ensures |nscap| == |NodeTable| && forall i :: 0 <= i < |NodeTable| ==> nscap[i].rpc == NodeTable[i]
      ensures vcap == [AccessMode(SingleNodeWriter)]
    {
      this.opts := opts;
      name := driverName;
      version := driverVersion;
      serviceIdentity, serviceController, serviceNode := false, false, false;
      var c := Utils.MapControllerServiceCapabilities(ControllerTable);
      var n := Utils.MapNodeServiceCapabilities(NodeTable);
      var v := Utils.MapVolumeCapabilityAccessModes(AccessModeTable);
      cscap, nscap := c, n;
      vcap := v;
    }

    /** UNKNOWN always passes; any other type passes exactly when the
        controller table lists it, and fails InvalidArgument otherwise. */
    method ValidateControllerServiceRequest(c: ControllerRpcType) returns (err: Option<Code>)
      ensures err.None? <==> c == UnknownRpc || Supports(cscap, c)
      ensures err.Some? ==> err.value == InvalidArgument
    {
      if c == UnknownRpc {
        return None;
      }
      for i := 0 to |cscap|
        invariant forall j :: 0 <= j < i ==> cscap[j].rpc != c
      {
        if c == cscap[i].rpc {
          return None;
        }
      }
      return Some(InvalidArgument);
    }

    method SetupIdentityService()
      modifies this`serviceIdentity
      ensures serviceIdentity
    {
      serviceIdentity := true;
    }

    method SetupControllerService()
      modifies this`serviceController
      ensures serviceController
    {
      serviceController := true;
    }

    /** The mount and metadata providers the node service also receives are
        not part of this model. */
    method SetupNodeService()
      modifies this`serviceNode
      ensures serviceNode
    {
      serviceNode := true;
    }

    /** Run refuses to start when neither the controller nor the node service
        is set; the identity service alone does not count. `serverError` is
        the error RunGRPCServer would return. */
    method Run(serverError: Option<string>) returns (r: RunOutcome)
      ensures r.NoServices? <==> !serviceController && !serviceNode
      ensures r.ServerFailed? <==> (serviceController || serviceNode) && serverError.Some?
      ensures r.Serving? ==> r == Serving(opts.endpoint, serviceIdentity, serviceController, serviceNode)
    {
      if !serviceController && !serviceNode {
        return NoServices;
      }
      match serverError {
        case Some(e) =>
          return ServerFailed("failed running gRPC server: " + e);
        case None =>
          return Serving(opts.endpoint, serviceIdentity, serviceController, serviceNode);
      }
    }
  }

  /** With NewDriver's table, creating and deleting volumes is accepted and
      GET_CAPACITY is rejected. */
  lemma NewDriverControllerTable(cscap: seq<ControllerServiceCapability>)
    requires WrapsControllerTable(cscap, ControllerTable)
    ensures Supports(cscap, CreateDeleteVolume)
    ensures Supports(cscap, PublishUnpublishVolume)
    ensures !Supports(cscap, GetCapacity)
  {
    assert cscap[1].rpc == CreateDeleteVolume;
    assert cscap[2].rpc == PublishUnpublishVolume;
    forall i | 0 <= i < |cscap|
      ensures cscap[i].rpc != GetCapacity
    {
      assert cscap[i].rpc == ControllerTable[i];
    }
  }

  /** NewDriver then Setup* on a fresh driver: the lifecycle main.go drives. Only
      the services that were set up are handed to the server. */
  method StartDriver(opts: DriverOpts, controller: bool, node: bool) returns (r: RunOutcome)
    ensures r.NoServices? <==> !controller && !node
    ensures r.Serving? ==> r == Serving(opts.endpoint, true, controller, node)
    ensures controller || node ==> r == Serving(opts.endpoint, true, controller, node)
  {
    var d := new Driver(opts, "", "");
    d.SetupIdentityService();
    if controller {
      d.SetupControllerService();
    }
    if node {
      d.SetupNodeService();
    }
    r := d.Run(None);
  }
}
