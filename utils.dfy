/**
 * pkg/driver/utils.go: endpoint parsing and the three loops that wrap
 * capability enumerations into CSI capability messages.
 */
module Utils {
  import opened Wrappers
  import opened Strings
  import opened Csi

  /** ParseEndpoint's three results: protocol, address and error. */
  datatype Endpoint = Endpoint(proto: string, address: string, err: Option<string>)

  function Invalid(ep: string): Endpoint {
    Endpoint("", "", Some("invalid endpoint: " + ep))
  }

  /** A prefix `unix://` or `tcp://` of the lower-cased endpoint puts the
      first "://" of the endpoint itself right after the scheme. */
  lemma SchemeSeparator(ep: string, scheme: string)
    requires scheme == "unix" || scheme == "tcp"
    requires HasPrefix(Lower(ep), scheme + "://")
    ensures IndexOf(ep, "://") == Some(|scheme|)
  {
    var k := |scheme|;
    var lowered := Lower(ep);
    assert lowered[..k + 3] == scheme + "://";
    forall i | 0 <= i < k + 3
      ensures lowered[i] == (scheme + "://")[i]
    {
      assert lowered[..k + 3][i] == lowered[i];
    }
    assert ep[k] == ':' && ep[k + 1] == '/' && ep[k + 2] == '/';
    assert ep[k..k + 3] == "://";
    assert OccursAt(ep, "://", k);
    forall j | 0 <= j < k
      ensures !OccursAt(ep, "://", j)
    {
      assert ep[j] != ':';
      assert ep[j..j + 3][0] == ep[j];
    }
  }

  /** strings.SplitN(ep, "://", 2) after the scheme test: the scheme as
      written (its case kept) and everything after the first "://". */
  function ParseEndpoint(ep: string): (r: Endpoint)
    ensures r.err.None? <==>
            (HasPrefix(Lower(ep), "unix://") && |ep| > 7) || (HasPrefix(Lower(ep), "tcp://") && |ep| > 6)
    ensures r.err.None? ==> r.proto + "://" + r.address == ep && r.address != ""
    ensures r.err.None? ==> Lower(r.proto) == "unix" || Lower(r.proto) == "tcp"
    ensures r.err.Some? ==> r == Invalid(ep)
  {
    var lowered := Lower(ep);
    if HasPrefix(lowered, "unix://") || HasPrefix(lowered, "tcp://") then
      var scheme := if HasPrefix(lowered, "unix://") then "unix" else "tcp";
      SchemeSeparator(ep, scheme);
      var k := |scheme|;
      assert lowered[..k] == scheme by {
        assert lowered[..k + 3][..k] == lowered[..k];
      }
      assert ep[..k] + "://" + ep[k + 3..] == ep by {
        assert ep[k..k + 3] == "://";
        assert ep == ep[..k] + ep[k..k + 3] + ep[k + 3..];
      }
      assert Lower(ep[..k]) == lowered[..k];
      match IndexOf(ep, "://")
      case Some(i) =>
        // SplitN(ep, "://", 2) = [ep[..i], ep[i + 3..]]
        if ep[i + 3..] != "" then Endpoint(ep[..i], ep[i + 3..], None) else Invalid(ep)
    else
      Invalid(ep)
  }

  method MapControllerServiceCapabilities(input: seq<ControllerRpcType>) returns (items: seq<ControllerServiceCapability>)
    ensures |items| == |input|
    ensures forall i :: 0 <= i < |input| ==> items[i] == ControllerServiceCapability(input[i])
  {
    items := [];
    for i := 0 to |input|
      invariant |items| == i
      invariant forall j :: 0 <= j < i ==> items[j] == ControllerServiceCapability(input[j])
    {
      items := items + [ControllerServiceCapability(input[i])];
    }
  }

  method MapVolumeCapabilityAccessModes(input: seq<Mode>) returns (items: seq<AccessMode>)
    ensures |items| == |input|
    ensures forall i :: 0 <= i < |input| ==> items[i] == AccessMode(input[i])
  {
    items := [];
    for i := 0 to |input|
      invariant |items| == i
      invariant forall j :: 0 <= j < i ==> items[j] == AccessMode(input[j])
    {
      items := items + [AccessMode(input[i])];
    }
  }

  method MapNodeServiceCapabilities(input: seq<NodeRpcType>) returns (items: seq<NodeServiceCapability>)
    ensures |items| == |input|
    ensures forall i :: 0 <= i < |input| ==> items[i] == NodeServiceCapability(input[i])
  {
    items := [];
    for i := 0 to |input|
      invariant |items| == i
      invariant forall j :: 0 <= j < i ==> items[j] == NodeServiceCapability(input[j])
    {
      items := items + [NodeServiceCapability(input[i])];
    }
  }
}
