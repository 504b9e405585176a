/**
 * The Hyperstack backend as the driver sees it: the volume records of the
 * cloud API, the wrapper functions of pkg/hyperstack/hyperstack_volume.go
 * (name filter, id lookup, creation result checks) and a scripted cloud
 * that answers the calls of the IHyperstack interface.
 *
 * Every wrapper starts with the SDK's ListVolumes or CreateVolume request;
 * the HTTP exchange itself is not modelled: its reply is an input.
 */
module Hyperstack {
  import opened Wrappers
  import opened Strings

  /** volume.VolumeFields: one row of the backend's volume listing. */
  datatype VolumeFields = VolumeFields(id: int, name: string, size: int, status: string, environment: string)

  /** What the SDK's ListVolumes request yields. */
  datatype ListReply =
    | ListFailed(err: string)          // the request returned an error
    | NoBody                           // result.JSON200 == nil
    | NoVolumes                        // result.JSON200.Volumes == nil
    | Listed(rows: seq<VolumeFields>)

  /** Go's (value, error) result pair: an error, nil with no error, or a value. */
  datatype Lookup<+T> = Failed(err: string) | Nil | Got(value: T)

  /** A record GetVolume hands back: a listed row, or the empty
      `volume.VolumeFields{}` it builds when no row has the id. Every field
      of the empty record is a nil pointer, so `status` exists only on `Found`. */
  datatype Fetched = Found(volume: VolumeFields) | Empty

  // ---------------------------------------------------------------------
  // GetVolumesByName

  /** The rows whose name contains `n`, in listing order. */
  function Matching(rows: seq<VolumeFields>, n: string): (r: seq<VolumeFields>)
    ensures |r| <= |rows|
    ensures forall v :: v in r <==> v in rows && Contains(v.name, n)
    decreases |rows|
  {
    if rows == [] then []
    else
      var last := rows[|rows| - 1];
      Matching(rows[..|rows| - 1], n) + (if Contains(last.name, n) then [last] else [])
  }

  /** The filter keeps exactly the matching rows, each as often as it is
      listed and in listing order: it distributes over concatenation, and a
      single row is kept iff its name contains the query. */
  lemma {:induction false} MatchingAppend(a: seq<VolumeFields>, b: seq<VolumeFields>, n: string)
    ensures Matching(a + b, n) == Matching(a, n) + Matching(b, n)
    decreases |b|
  {
    if b == [] {
      assert a + b == a;
    } else {
      assert (a + b)[..|a + b| - 1] == a + b[..|b| - 1];
      MatchingAppend(a, b[..|b| - 1], n);
    }
  }

  lemma MatchingSingle(v: VolumeFields, n: string)
    ensures Matching([v], n) == if Contains(v.name, n) then [v] else []
  {
    assert [v][..0] == [];
  }

  /** What GetVolumesByName returns for a ListVolumes reply. */
  function VolumesByName(reply: ListReply, n: string): Lookup<seq<VolumeFields>> {
    match reply
    case ListFailed(e) => Failed(e)
    case NoBody => Nil
    case NoVolumes => Nil
    case Listed(rows) => Got(Matching(rows, n))
  }

  method GetVolumesByName(reply: ListReply, n: string) returns (r: Lookup<seq<VolumeFields>>)
    ensures r == VolumesByName(reply, n)
  {
    match reply {
      case ListFailed(e) =>
        return Failed(e);
      case NoBody =>
        return Nil;
      case NoVolumes =>
        return Nil;
      case Listed(rows) =>
        var res := [];
        var i := 0;
        while i < |rows|
          invariant 0 <= i <= |rows|
          invariant res == Matching(rows[..i], n)
        {
          assert rows[..i + 1][..i] == rows[..i];
          if Contains(rows[i].name, n) {
            res := res + [rows[i]];
          }
          i := i + 1;
        }
        assert rows[..|rows|] == rows;
        return Got(res);
    }
  }

  /** The name filter is a substring test: the empty query keeps every row. */
  lemma {:induction false} EmptyQueryMatchesAll(rows: seq<VolumeFields>)
    ensures Matching(rows, "") == rows
    decreases |rows|
  {
    if rows != [] {
      EmptyQueryMatchesAll(rows[..|rows| - 1]);
      assert HasPrefix(rows[|rows| - 1].name, "");
      assert rows[..|rows| - 1] + [rows[|rows| - 1]] == rows;
    }
  }

  /** ... and a query that is a proper prefix of another volume's name matches that volume too. */
  lemma PrefixQueryMatchesLongerName(a: VolumeFields, b: VolumeFields)
    requires a.name == "pvc-a" && b.name == "pvc-ab"
    ensures Matching([a, b], "pvc-a") == [a, b]
  {
    assert HasPrefix(b.name, "pvc-a");
    assert HasPrefix(a.name, "pvc-a");
    assert [a, b][..1] == [a];
    assert [a][..0] == [];
  }

  // ---------------------------------------------------------------------
  // GetVolume

  /** The first row whose decimal id equals `idText`, or the empty record. */
  function FirstWithId(rows: seq<VolumeFields>, idText: string): (r: Fetched)
    ensures r.Found? ==> exists i :: 0 <= i < |rows| && rows[i] == r.volume && Itoa(rows[i].id) == idText &&
                                    forall j :: 0 <= j < i ==> Itoa(rows[j].id) != idText
    ensures r.Empty? <==> forall i :: 0 <= i < |rows| ==> Itoa(rows[i].id) != idText
    decreases |rows|
  {
    if rows == [] then Empty
    else if Itoa(rows[0].id) == idText then Found(rows[0])
    else
      var r := FirstWithId(rows[1..], idText);
      assert forall i :: 0 < i < |rows| ==> rows[i] == rows[1..][i - 1];
      r
  }

  /** What GetVolume returns for a ListVolumes reply. The interface takes the
      id as a string and the wrapper compares it with each row's
      `strconv.Itoa(id)`; the controller holds the id as an int, so the model
      compares decimal spellings. */
  function FetchVolume(reply: ListReply, volumeId: int): Lookup<Fetched> {
    match reply
    case ListFailed(e) => Failed(e)
    case NoBody => Nil
    case NoVolumes => Nil
    case Listed(rows) => Got(FirstWithId(rows, Itoa(volumeId)))
  }

  method GetVolume(reply: ListReply, volumeId: int) returns (r: Lookup<Fetched>)
    ensures r == FetchVolume(reply, volumeId)
  {
    match reply {
      case ListFailed(e) =>
        return Failed(e);
      case NoBody =>
        return Nil;
      case NoVolumes =>
        return Nil;
      case Listed(rows) =>
        var idText := Itoa(volumeId);
        for i := 0 to |rows|
          invariant FirstWithId(rows[i..], idText) == FirstWithId(rows, idText)
        {
          assert rows[i..][1..] == rows[i + 1..];
          if Itoa(rows[i].id) == idText {
            return Got(Found(rows[i]));
          }
        }
        return Got(Empty);
    }
  }

  /** GetVolume finds the first listed volume with exactly this id, and
      yields the empty record exactly when no listed volume has it. */
  lemma FetchVolumeById(rows: seq<VolumeFields>, volumeId: int)
    ensures FetchVolume(Listed(rows), volumeId).Got?
    ensures FetchVolume(Listed(rows), volumeId).value.Empty? <==>
            forall i :: 0 <= i < |rows| ==> rows[i].id != volumeId
    ensures FetchVolume(Listed(rows), volumeId).value.Found? ==>
            exists i :: 0 <= i < |rows| && rows[i] == FetchVolume(Listed(rows), volumeId).value.volume &&
                        rows[i].id == volumeId && forall j :: 0 <= j < i ==> rows[j].id != volumeId
  {
    forall i | 0 <= i < |rows| && Itoa(rows[i].id) == Itoa(volumeId)
      ensures rows[i].id == volumeId
    {
      ItoaInjective(rows[i].id, volumeId);
    }
  }

  /** A record GetVolume returns carries the id it was asked for. */
  lemma FetchedVolumeHasId(reply: ListReply, volumeId: int)
    requires FetchVolume(reply, volumeId).Got? && FetchVolume(reply, volumeId).value.Found?
    ensures FetchVolume(reply, volumeId).value.volume.id == volumeId
  {
    FetchVolumeById(reply.rows, volumeId);
  }

  // ---------------------------------------------------------------------
  // CreateVolume

  const VolumeDescription: string := "Created by Hyperstack CSI driver"

  /** volume.CreateVolumePayload as the wrapper fills it. */
  datatype CreateVolumePayload = CreateVolumePayload(
    name: string, size: int, volumeType: string, environmentName: string, description: string)

  /** What the SDK's CreateVolume request yields. */
  datatype CreationReply =
    | CreateFailed(err: string)        // the request returned an error
    | CreateNoBody                     // result.JSON200 == nil
    | CreateNoVolume                   // result.JSON200.Volume == nil
    | Created(volume: VolumeFields)

  /** The payload the wrapper sends; the `tags` argument is accepted and dropped. */
  function Payload(name: string, size: int, volumeType: string, environment: string, tags: map<string, string>): CreateVolumePayload {
    CreateVolumePayload(name, size, volumeType, environment, VolumeDescription)
  }

  /** The wrapper's checks on the creation reply: an error, a missing body
      and a missing volume are all errors; otherwise the volume is returned. */
  function CreateVolumeResult(reply: CreationReply): (r: Lookup<VolumeFields>)
    ensures !r.Nil?
    ensures r.Got? <==> reply.Created?
    ensures r.Got? ==> r.value == reply.volume
    ensures reply.CreateFailed? ==> r == Failed(reply.err)
  {
    match reply
    case CreateFailed(e) => Failed(e)
    case CreateNoBody => Failed("Volume creation result is nil")
    case CreateNoVolume => Failed("Volume creation result includes nil volume object")
    case Created(v) => Got(v)
  }

  /** Whatever tags the caller passes, the same payload goes to the backend. */
  lemma PayloadIgnoresTags(name: string, size: int, volumeType: string, environment: string,
                           tags1: map<string, string>, tags2: map<string, string>)
    ensures Payload(name, size, volumeType, environment, tags1) == Payload(name, size, volumeType, environment, tags2)
    ensures Payload(name, size, volumeType, environment, tags1) ==
            CreateVolumePayload(name, size, volumeType, environment, VolumeDescription)
  {
  }

  // ---------------------------------------------------------------------
  // The scripted cloud behind the IHyperstack interface

  /** The calls of the IHyperstack interface a handler issues. */
  datatype Call =
    | GetVolumesByNameCall(name: string)
    | GetVolumeCall(volumeId: int)
    | GetClusterDetailCall(clusterId: int)
    | CreateVolumeCall(name: string, size: int, volumeType: string, environment: string, tags: map<string, string>)
    | DeleteVolumeCall(volumeId: int)
    | AttachVolumeToNodeCall(virtualMachineId: int, volumeId: int)
    | DetachVolumeFromNodeCall(virtualMachineId: int, volumeId: int)

  /** Successive ListVolumes replies: the k-th listing request gets `At(k)`;
      once the scripted replies run out, every further request gets `rest`. */
  datatype Script = Script(replies: seq<ListReply>, rest: ListReply) {
    function At(k: nat): ListReply {
      if k < |replies| then replies[k] else rest
    }
  }

  /** The reply to GetClusterDetail (its environment name). */
  datatype ClusterReply = ClusterFailed(err: string) | ClusterFound(environmentName: string)

  /** One handler call's view of the backend. GetVolumesByName and GetVolume
      each consume the next listing; the other fields are the results of the
      calls whose wrappers are not part of this model (an error, or `None`
      for success). */
  datatype Cloud = Cloud(
    listings: Script,
    cluster: ClusterReply,
    creation: CreationReply,
    deletion: Option<string>,
    attachment: Option<string>,
    detachment: Option<string>)

  /** `n` copies of call `c`. */
  function Repeat(c: Call, n: nat): (r: seq<Call>)
    ensures |r| == n && forall i :: 0 <= i < n ==> r[i] == c
  {
    if n == 0 then [] else Repeat(c, n - 1) + [c]
  }

  /** How many calls in `calls` satisfy `p`. */
  function Count(calls: seq<Call>, p: Call -> bool): nat
    decreases |calls|
  {
    if calls == [] then 0 else Count(calls[..|calls| - 1], p) + (if p(calls[|calls| - 1]) then 1 else 0)
  }

  lemma CountSingle(c: Call, p: Call -> bool)
    ensures Count([c], p) == if p(c) then 1 else 0
  {
    assert [c][..0] == [];
  }

  lemma {:induction false} CountAppend(a: seq<Call>, b: seq<Call>, p: Call -> bool)
    ensures Count(a + b, p) == Count(a, p) + Count(b, p)
    decreases |b|
  {
    if b == [] {
      assert a + b == a;
    } else {
      assert (a + b)[..|a + b| - 1] == a + b[..|b| - 1];
      CountAppend(a, b[..|b| - 1], p);
    }
  }

  lemma {:induction false} CountRepeat(c: Call, n: nat, p: Call -> bool)
    ensures Count(Repeat(c, n), p) == if p(c) then n else 0
    decreases n
  {
    if n > 0 {
      assert Repeat(c, n)[..n - 1] == Repeat(c, n - 1);
      CountRepeat(c, n - 1, p);
    }
  }
}
