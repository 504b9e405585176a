/**
 * pkg/driver/controllerserver.go: the controller service. Each handler
 * runs against a scripted backend (`Hyperstack.Cloud`) and reports, beside
 * its reply, the IHyperstack calls it issued, in order. The two-second
 * sleeps of the polling loops are dropped.
 */
module Controller {
  import opened Wrappers
  import opened Strings
  import opened Csi
  import opened HS = Hyperstack
  import Plugin

  const GiB: int := 1024 * 1024 * 1024

  const MaxCreateAttempts: nat := 15
  const MaxPublishAttempts: nat := 30

  /** The tag key holding the cluster id, and the provisioning parameters
      copied into the tags when present. */
  const ClusterIdTagKey: string := "hyperstack.csi.nexgencloud.com/cluster"
  const CopiedParameterKeys: seq<string> :=
    ["csi.storage.k8s.io/pvc/name", "csi.storage.k8s.io/pvc/namespace", "csi.storage.k8s.io/pv/name"]

  datatype CapacityRange = CapacityRange(requiredBytes: int, limitBytes: int)

  datatype CreateVolumeRequest = CreateVolumeRequest(
    name: string,
    capacityRange: Option<CapacityRange>,
    volumeCapabilities: Option<seq<VolumeCapability>>,   // None: a nil list
    parameters: map<string, string>,
    accessibilityRequirements: Option<TopologyRequirement>)

  /** csi.Volume; its ContentSource is always nil and is not represented. */
  datatype Volume = Volume(volumeId: string, capacityBytes: int, accessibleTopology: seq<Topology>)

  datatype CreateVolumeResponse = CreateVolumeResponse(volume: Volume)

  /** A function-style handler's reply together with the backend calls it issued. */
  datatype Outcome<+T> = Outcome(reply: Reply<T>, calls: seq<HS.Call>)

  predicate IsGetVolume(c: HS.Call) { c.GetVolumeCall? }
  predicate IsCreateVolume(c: HS.Call) { c.CreateVolumeCall? }
  predicate IsDeleteVolume(c: HS.Call) { c.DeleteVolumeCall? }
  predicate IsAttach(c: HS.Call) { c.AttachVolumeToNodeCall? }
  predicate IsDetach(c: HS.Call) { c.DetachVolumeFromNodeCall? }

  /** The handlers' first GetVolume result for `volumeId`, from the first listing. */
  function FirstFetch(cloud: HS.Cloud, volumeId: int): HS.Lookup<HS.Fetched> {
    HS.FetchVolume(cloud.listings.At(0), volumeId)
  }

  /** The lookup found a record whose status is neither `in-use` nor `available`. */
  predicate FoundOtherStatus(l: HS.Lookup<HS.Fetched>) {
    l.Got? && l.value.Found? && l.value.volume.status != "in-use" && l.value.volume.status != "available"
  }

  /** The lookup found a record, and its status is `s`. */
  predicate FoundWithStatus(l: HS.Lookup<HS.Fetched>, s: string) {
    l.Got? && l.value.Found? && l.value.volume.status == s
  }

  // ---------------------------------------------------------------------
  // Sizes

  /** Go's `/` on integers, which truncates toward zero. */
  function TruncDiv(a: int, b: int): int
    requires b > 0
  {
    if a >= 0 then a / b else -((-a) / b)
  }

  /** util.RoundUpSize: the quotient, plus one when a positive remainder is left. */
  function RoundUpSize(volumeSizeBytes: int, allocationUnitBytes: int): int
    requires allocationUnitBytes > 0
  {
    var q := TruncDiv(volumeSizeBytes, allocationUnitBytes);
    if volumeSizeBytes - q * allocationUnitBytes > 0 then q + 1 else q
  }

  /** 1 GiB when the request has no capacity range, RequiredBytes otherwise. */
  function RequestedBytes(req: CreateVolumeRequest): int {
    match req.capacityRange
    case None => GiB
    case Some(c) => c.requiredBytes
  }

  function RequestedGiB(req: CreateVolumeRequest): int {
    RoundUpSize(RequestedBytes(req), GiB)
  }

  /** The size asked of the backend is the byte count rounded up to whole
      GiB: the least number of GiB that holds the request. */
  lemma RequestedGiBIsCeiling(req: CreateVolumeRequest)
    ensures req.capacityRange.None? ==> RequestedGiB(req) == 1
    ensures RequestedBytes(req) >= 0 ==>
            RequestedGiB(req) * GiB >= RequestedBytes(req) > (RequestedGiB(req) - 1) * GiB
  {
    var b := RequestedBytes(req);
    if b >= 0 {
      var q := b / GiB;
      assert b == q * GiB + b % GiB;
    }
  }

  /** Go's int arithmetic on a 64-bit platform wraps around. */
  function WrapInt64(x: int): int {
    (x - MinInt64) % 0x1_0000_0000_0000_0000 + MinInt64
  }

  // ---------------------------------------------------------------------
  // getCreateVolumeResponse

  /** The volume handle is the decimal id, the capacity the size in bytes
      (as a wrapping int64 product) and the topology the request's
      preferred list, or none when there are no accessibility requirements. */
  function GetCreateVolumeResponse(vol: HS.VolumeFields, topo: Option<TopologyRequirement>): (r: CreateVolumeResponse)
    ensures r.volume.accessibleTopology == if topo.Some? then topo.value.preferred else []
    ensures IsInt64(r.volume.capacityBytes)
  {
    var accessibleTopology := if topo.Some? then topo.value.preferred else [];
    CreateVolumeResponse(Volume(Itoa(vol.id), WrapInt64(vol.size * GiB), accessibleTopology))
  }

  /** The handle parses back to the backend id (DeleteVolume and the publish
      handlers read it with strconv.Atoi), and for any size that fits the
      capacity is exactly size × 1073741824 bytes. */
  lemma CreateVolumeResponseRoundTrip(vol: HS.VolumeFields, topo: Option<TopologyRequirement>)
    requires IsInt64(vol.id)
    ensures Atoi(GetCreateVolumeResponse(vol, topo).volume.volumeId) == Some(vol.id)
    ensures 0 <= vol.size * GiB <= MaxInt64 ==> GetCreateVolumeResponse(vol, topo).volume.capacityBytes == vol.size * 1073741824
  {
    AtoiItoa(vol.id);
  }

  // ---------------------------------------------------------------------
  // Polling

  /** What a polling loop does with one GetVolume result. */
  datatype Step = Keep | Stop(outcome: Reply<HS.VolumeFields>)

  /** The CreateVolume loop: an error aborts with Internal, nil keeps
      polling, `available` is accepted, any other status keeps polling; the
      status of the empty record is a nil dereference. */
  function CreateStep(l: HS.Lookup<HS.Fetched>): Step {
    match l
    case Failed(_) => Stop(Err(Internal))
    case Nil => Keep
    case Got(Empty) => Stop(Panic)
    case Got(Found(v)) => if v.status == "available" then Stop(Ok(v)) else Keep
  }

  /** The ControllerPublishVolume loop: errors and nil keep polling, `in-use`
      ends the loop, any other status keeps polling; the status of the empty
      record is a nil dereference. */
  function PublishStep(l: HS.Lookup<HS.Fetched>): Step {
    match l
    case Failed(_) => Keep
    case Nil => Keep
    case Got(Empty) => Stop(Panic)
    case Got(Found(v)) => if v.status == "in-use" then Stop(Ok(v)) else Keep
  }

  /** The GetVolume result of poll attempt `j` (0-based), which reads the listing `first + j`. */
  function PollResult(listings: HS.Script, first: nat, j: nat, volumeId: int): HS.Lookup<HS.Fetched> {
    HS.FetchVolume(listings.At(first + j), volumeId)
  }

  /** A loop's reply: the last step's, or `fallback` when every attempt said keep going. */
  function Conclude(s: Step, fallback: HS.VolumeFields): Reply<HS.VolumeFields> {
    match s
    case Keep => Ok(fallback)
    case Stop(o) => o
  }

  /** How many GetVolume calls a poll that has made `j` of them without
      stopping makes in all: it stops after the first attempt whose result
      `step` does not keep polling on, and after `maxAttempts` at the latest. */
  function PollAttempts(maxAttempts: nat, step: HS.Lookup<HS.Fetched> -> Step, volumeId: int,
                        listings: HS.Script, first: nat, j: nat): (n: nat)
    requires j < maxAttempts
    ensures j < n <= maxAttempts
    decreases maxAttempts - j
  {
    if j + 1 == maxAttempts || step(PollResult(listings, first, j, volumeId)).Stop? then j + 1
    else PollAttempts(maxAttempts, step, volumeId, listings, first, j + 1)
  }

  /** The attempt count is the first stopping attempt: every earlier result
      keeps polling, and the last one stops unless the attempts ran out. */
  lemma {:induction false} PollAttemptsIsFirstStop(maxAttempts: nat, step: HS.Lookup<HS.Fetched> -> Step, volumeId: int,
                                                   listings: HS.Script, first: nat, j: nat)
    requires j < maxAttempts
    ensures var n := PollAttempts(maxAttempts, step, volumeId, listings, first, j);
            (forall k :: j <= k < n - 1 ==> step(PollResult(listings, first, k, volumeId)) == Keep) &&
            (n < maxAttempts ==> step(PollResult(listings, first, n - 1, volumeId)).Stop?)
    decreases maxAttempts - j
  {
    if j + 1 < maxAttempts && step(PollResult(listings, first, j, volumeId)) == Keep {
      PollAttemptsIsFirstStop(maxAttempts, step, volumeId, listings, first, j + 1);
      var n := PollAttempts(maxAttempts, step, volumeId, listings, first, j);
      assert n == PollAttempts(maxAttempts, step, volumeId, listings, first, j + 1);
      forall k | j <= k < n - 1
        ensures step(PollResult(listings, first, k, volumeId)) == Keep
      {
        if k == j {
        }
      }
    }
  }

  /** A whole poll's reply: the stopping step's outcome, or `fallback`. */
  function PollReply(maxAttempts: nat, step: HS.Lookup<HS.Fetched> -> Step, volumeId: int,
                     listings: HS.Script, first: nat, fallback: HS.VolumeFields): Reply<HS.VolumeFields>
    requires maxAttempts > 0
  {
    var n := PollAttempts(maxAttempts, step, volumeId, listings, first, 0);
    Conclude(step(PollResult(listings, first, n - 1, volumeId)), fallback)
  }

  /** Up to `maxAttempts` GetVolume calls, stopping at the first result `step`
      does not keep polling on. */
  method Poll(maxAttempts: nat, step: HS.Lookup<HS.Fetched> -> Step, volumeId: int,
              listings: HS.Script, first: nat, fallback: HS.VolumeFields)
    returns (r: Reply<HS.VolumeFields>, attempts: nat)
    requires maxAttempts > 0
    ensures 1 <= attempts <= maxAttempts
    ensures forall j :: 0 <= j < attempts - 1 ==> step(PollResult(listings, first, j, volumeId)) == Keep
    ensures attempts < maxAttempts ==> step(PollResult(listings, first, attempts - 1, volumeId)).Stop?
    ensures r == Conclude(step(PollResult(listings, first, attempts - 1, volumeId)), fallback)
    ensures attempts == PollAttempts(maxAttempts, step, volumeId, listings, first, 0)
    ensures r == PollReply(maxAttempts, step, volumeId, listings, first, fallback)
  {
    var i := 0;
    while i < maxAttempts
      invariant 0 <= i <= maxAttempts
      invariant forall j :: 0 <= j < i ==> step(PollResult(listings, first, j, volumeId)) == Keep
      invariant i < maxAttempts ==>
                PollAttempts(maxAttempts, step, volumeId, listings, first, 0) ==
                PollAttempts(maxAttempts, step, volumeId, listings, first, i)
      invariant i == maxAttempts ==> PollAttempts(maxAttempts, step, volumeId, listings, first, 0) == maxAttempts
    {
      var v := HS.GetVolume(listings.At(first + i), volumeId);
      match step(v) {
        case Stop(o) =>
          return o, i + 1;
        case Keep =>
      }
      i := i + 1;
    }
    return Ok(fallback), maxAttempts;
  }

  /** A CreateVolume poll that succeeds returns either a record with status
      `available` and the polled id, or, after 15 attempts without one, the
      record the creation call returned. */
  lemma CreatePollResult(created: HS.VolumeFields, listings: HS.Script, attempts: nat)
    requires 1 <= attempts <= MaxCreateAttempts
    requires attempts < MaxCreateAttempts ==> CreateStep(PollResult(listings, 1, attempts - 1, created.id)).Stop?
    requires Conclude(CreateStep(PollResult(listings, 1, attempts - 1, created.id)), created).Ok?
    ensures var v := Conclude(CreateStep(PollResult(listings, 1, attempts - 1, created.id)), created).value;
            (v.status == "available" && v.id == created.id) || (v == created && attempts == MaxCreateAttempts)
  {
    var l := PollResult(listings, 1, attempts - 1, created.id);
    if CreateStep(l).Stop? {
      HS.FetchedVolumeHasId(listings.At(1 + (attempts - 1)), created.id);
    }
  }

  /** The number of GetVolume calls CreateVolume's poll of `vol` makes. */
  function CreateAttempts(vol: HS.VolumeFields, listings: HS.Script): nat {
    PollAttempts(MaxCreateAttempts, CreateStep, vol.id, listings, 1, 0)
  }

  /** CreateVolume's reply once `vol` is created: the poll's outcome, with a
      record turned into the CSI response. */
  function AwaitReply(vol: HS.VolumeFields, topo: Option<TopologyRequirement>, listings: HS.Script): Reply<CreateVolumeResponse> {
    match PollReply(MaxCreateAttempts, CreateStep, vol.id, listings, 1, vol)
    case Ok(v) => Ok(GetCreateVolumeResponse(v, topo))
    case Err(c) => Err(c)
    case Panic => Panic
  }

  /** What the CreateVolume poll promises: nil results and records that are
      not yet `available` keep it going; it stops at the first GetVolume
      error, which is Internal, or at the first `available` record, which it
      reports; after 15 attempts it reports the record the creation returned;
      the empty record is a nil dereference. */
  lemma AwaitReplyMeaning(vol: HS.VolumeFields, topo: Option<TopologyRequirement>, listings: HS.Script)
    ensures var n := CreateAttempts(vol, listings);
            1 <= n <= MaxCreateAttempts &&
            forall j :: 0 <= j < n - 1 ==>
              var l := PollResult(listings, 1, j, vol.id);
              l.Nil? || (l.Got? && l.value.Found? && l.value.volume.status != "available")
    ensures var l := PollResult(listings, 1, CreateAttempts(vol, listings) - 1, vol.id);
            (AwaitReply(vol, topo, listings).Err? <==> l.Failed?) &&
            (AwaitReply(vol, topo, listings).Err? ==> AwaitReply(vol, topo, listings).code == Internal) &&
            (AwaitReply(vol, topo, listings).Panic? <==> l == HS.Got(HS.Empty))
    ensures var l := PollResult(listings, 1, CreateAttempts(vol, listings) - 1, vol.id);
            l.Got? && l.value.Found? && l.value.volume.status == "available" ==>
              AwaitReply(vol, topo, listings) == Ok(GetCreateVolumeResponse(l.value.volume, topo))
    ensures AwaitReply(vol, topo, listings).Ok? ==>
            var v := PollReply(MaxCreateAttempts, CreateStep, vol.id, listings, 1, vol).value;
            AwaitReply(vol, topo, listings) == Ok(GetCreateVolumeResponse(v, topo)) &&
            ((v.status == "available" && v.id == vol.id) || (v == vol && CreateAttempts(vol, listings) == MaxCreateAttempts))
  {
    var n := CreateAttempts(vol, listings);
    PollAttemptsIsFirstStop(MaxCreateAttempts, CreateStep, vol.id, listings, 1, 0);
    if AwaitReply(vol, topo, listings).Ok? {
      CreatePollResult(vol, listings, n);
    }
  }

  // ---------------------------------------------------------------------
  // CreateVolume

  /** The tags CreateVolume assembles: the cluster id under its key, plus
      each of the three provisioning parameters the request carries. */
  method Properties(clusterId: string, parameters: map<string, string>) returns (props: map<string, string>)
    ensures ClusterIdTagKey in props && props[ClusterIdTagKey] == clusterId
    ensures props.Keys == {ClusterIdTagKey} + (set k | k in CopiedParameterKeys && k in parameters)
    ensures forall k :: k in CopiedParameterKeys && k in parameters ==> props[k] == parameters[k]
  {
    props := map[ClusterIdTagKey := clusterId];
    for i := 0 to |CopiedParameterKeys|
      invariant props.Keys == {ClusterIdTagKey} + (set k | k in CopiedParameterKeys[..i] && k in parameters)
      invariant props[ClusterIdTagKey] == clusterId
      invariant forall k :: k in CopiedParameterKeys[..i] && k in parameters ==> props[k] == parameters[k]
    {
      var key := CopiedParameterKeys[i];
      assert CopiedParameterKeys[..i + 1] == CopiedParameterKeys[..i] + [key];
      if key in parameters {
        props := props[key := parameters[key]];
      }
    }
    assert CopiedParameterKeys[..|CopiedParameterKeys|] == CopiedParameterKeys;
  }

  /** The request passes the capability check and the argument checks. */
  predicate Admitted(d: Plugin.Driver, req: CreateVolumeRequest)
    reads d
  {
    Plugin.Supports(d.cscap, CreateDeleteVolume) && req.name != "" && req.volumeCapabilities.Some?
  }

  /** The volumes whose names contain the requested name, as the first listing shows them. */
  function Existing(cloud: HS.Cloud, name: string): seq<HS.VolumeFields> {
    match HS.VolumesByName(cloud.listings.At(0), name)
    case Got(m) => m
    case _ => []
  }

  /** CreateVolume's reply once the name lookup found nothing: Internal when
      the cluster label is not a number, the cluster lookup fails or the
      creation fails; otherwise the poll's outcome for the created volume. */
  function ProvisionReply(req: CreateVolumeRequest, cloud: HS.Cloud, clusterLabel: string): Reply<CreateVolumeResponse> {
    if Atoi(clusterLabel).None? || cloud.cluster.ClusterFailed? || !cloud.creation.Created? then Err(Internal)
    else AwaitReply(cloud.creation.volume, req.accessibilityRequirements, cloud.listings)
  }

  /** The part of CreateVolume after the name lookup found nothing: the
      cluster id, the environment, the creation call and the poll for
      `available`. `clusterLabel` is the node label hyperstack.cloud/cluster-id
      as the cluster API reports it ("" when that lookup fails; the failure
      is only logged). */
  method ProvisionVolume(req: CreateVolumeRequest, cloud: HS.Cloud, clusterLabel: string)
    returns (r: Reply<CreateVolumeResponse>, calls: seq<HS.Call>)
    ensures r == ProvisionReply(req, cloud, clusterLabel)
    ensures Atoi(clusterLabel).None? ==> r == Err(Internal) && calls == []
    ensures Atoi(clusterLabel).Some? ==> ProvisionedInCluster(req, Atoi(clusterLabel).value, clusterLabel, cloud, calls)
    ensures HS.Count(calls, IsCreateVolume) <= 1
    ensures r.Ok? ==> HS.Count(calls, IsCreateVolume) == 1 && cloud.creation.Created? &&
                      r.value.volume.volumeId == Itoa(cloud.creation.volume.id)
    ensures forall c :: c in calls && c.CreateVolumeCall? ==>
              c.name == req.name && c.size == RequestedGiB(req) &&
              ClusterIdTagKey in c.tags && c.tags[ClusterIdTagKey] == clusterLabel
    ensures HS.Count(calls, IsGetVolume) <= MaxCreateAttempts
  {
    var clusterIdInt := Atoi(clusterLabel);
    if clusterIdInt.None? {
      return Err(Internal), [];
    }
    r, calls := ProvisionInCluster(req, clusterIdInt.value, clusterLabel, cloud);
  }

  /** The creation call CreateVolume makes for `req` in the environment
      `env`: the request's name, the rounded size, the type parameter, and
      as tags the cluster id plus each copied parameter the request carries,
      with the request's value. */
  predicate CreationCall(req: CreateVolumeRequest, clusterTag: string, env: string, c: HS.Call) {
    c.CreateVolumeCall? && c.name == req.name && c.size == RequestedGiB(req) &&
    c.volumeType == VolumeType(req) && c.environment == env &&
    c.tags.Keys == {ClusterIdTagKey} + (set k | k in CopiedParameterKeys && k in req.parameters) &&
    c.tags[ClusterIdTagKey] == clusterTag &&
    forall k :: k in CopiedParameterKeys && k in req.parameters ==> c.tags[k] == req.parameters[k]
  }

  /** The backend calls of CreateVolume for the cluster `clusterId`: the
      cluster lookup first; when it fails nothing else; otherwise the one
      creation call, with the request's type and the cluster's environment,
      followed by the poll of the created volume when the creation succeeds. */
  predicate ProvisionedInCluster(req: CreateVolumeRequest, clusterId: int, clusterLabel: string, cloud: HS.Cloud,
                                 calls: seq<HS.Call>) {
    calls != [] && calls[0] == HS.GetClusterDetailCall(clusterId) &&
    (cloud.cluster.ClusterFailed? ==> calls == [HS.GetClusterDetailCall(clusterId)]) &&
    (cloud.cluster.ClusterFound? ==>
       HS.Count(calls, IsCreateVolume) == 1 && |calls| >= 2 &&
       CreationCall(req, clusterLabel, cloud.cluster.environmentName, calls[1]) &&
       calls[2..] == (if cloud.creation.Created?
                      then HS.Repeat(HS.GetVolumeCall(cloud.creation.volume.id), CreateAttempts(cloud.creation.volume, cloud.listings))
                      else []))
  }

  /** ProvisionVolume once the cluster label is parsed as `clusterId`. */
  method ProvisionInCluster(req: CreateVolumeRequest, clusterId: int, clusterLabel: string, cloud: HS.Cloud)
    returns (r: Reply<CreateVolumeResponse>, calls: seq<HS.Call>)
    ensures r == if cloud.cluster.ClusterFailed? || !cloud.creation.Created? then Err(Internal)
                 else AwaitReply(cloud.creation.volume, req.accessibilityRequirements, cloud.listings)
    ensures ProvisionedInCluster(req, clusterId, clusterLabel, cloud, calls)
    ensures HS.Count(calls, IsCreateVolume) <= 1
    ensures forall c :: c in calls && c.CreateVolumeCall? ==>
              c.name == req.name && c.size == RequestedGiB(req) &&
              ClusterIdTagKey in c.tags && c.tags[ClusterIdTagKey] == clusterLabel
    ensures HS.Count(calls, IsGetVolume) <= MaxCreateAttempts
  {
    calls := [HS.GetClusterDetailCall(clusterId)];
    HS.CountSingle(calls[0], IsCreateVolume);
    HS.CountSingle(calls[0], IsGetVolume);
    if cloud.cluster.ClusterFailed? {
      return Err(Internal), calls;
    }
    var rest;
    r, rest := CreateInEnvironment(req, clusterLabel, cloud.cluster.environmentName, cloud);
    HS.CountAppend(calls, rest, IsCreateVolume);
    HS.CountAppend(calls, rest, IsGetVolume);
    calls := calls + rest;
    assert calls[2..] == rest[1..];
  }

  /** The volume type parameter ("" when absent). */
  function VolumeType(req: CreateVolumeRequest): string {
    if "type" in req.parameters then req.parameters["type"] else ""
  }

  /** CreateVolume once the cluster's environment `env` is known: the tags,
      the one creation call with the request's name, the rounded size, the
      type and `env`, and the poll of the created volume. */
  method CreateInEnvironment(req: CreateVolumeRequest, clusterId: string, env: string, cloud: HS.Cloud)
    returns (r: Reply<CreateVolumeResponse>, calls: seq<HS.Call>)
    ensures calls != [] && calls[0].CreateVolumeCall?
    ensures calls[0].name == req.name && calls[0].size == RequestedGiB(req) &&
            calls[0].volumeType == VolumeType(req) && calls[0].environment == env
    ensures calls[0].tags.Keys == {ClusterIdTagKey} + (set k | k in CopiedParameterKeys && k in req.parameters)
    ensures calls[0].tags[ClusterIdTagKey] == clusterId
    ensures forall k :: k in CopiedParameterKeys && k in req.parameters ==> calls[0].tags[k] == req.parameters[k]
    ensures forall c :: c in calls && c.CreateVolumeCall? ==> c == calls[0]
    ensures HS.Count(calls, IsCreateVolume) == 1
    ensures HS.Count(calls, IsGetVolume) <= MaxCreateAttempts
    ensures r == if cloud.creation.Created? then AwaitReply(cloud.creation.volume, req.accessibilityRequirements, cloud.listings)
                 else Err(Internal)
    ensures calls[1..] == if cloud.creation.Created?
                          then HS.Repeat(HS.GetVolumeCall(cloud.creation.volume.id), CreateAttempts(cloud.creation.volume, cloud.listings))
                          else []
  {
    var volSizeGB := RequestedGiB(req);
    var volType := VolumeType(req);
    var properties := Properties(clusterId, req.parameters);
    var creation := HS.CreateVolumeCall(req.name, volSizeGB, volType, env, properties);
    r, calls := CreateAndAwait(creation, cloud.creation, req.accessibilityRequirements, cloud.listings);
  }

  /** The creation call `creation`, answered by `reply`, and the poll of the
      created volume. Exactly one creation call is made, and it comes first. */
  method CreateAndAwait(creation: HS.Call, reply: HS.CreationReply, topo: Option<TopologyRequirement>, listings: HS.Script)
    returns (r: Reply<CreateVolumeResponse>, calls: seq<HS.Call>)
    requires creation.CreateVolumeCall?
    ensures calls != [] && calls[0] == creation
    ensures forall c :: c in calls && c.CreateVolumeCall? ==> c == creation
    ensures HS.Count(calls, IsCreateVolume) == 1
    ensures HS.Count(calls, IsGetVolume) <= MaxCreateAttempts
    ensures r.Ok? ==> reply.Created? && r.value.volume.volumeId == Itoa(reply.volume.id)
    ensures !HS.CreateVolumeResult(reply).Got? ==> r == Err(Internal) && calls == [creation]
    ensures reply.Created? ==>
            r == AwaitReply(reply.volume, topo, listings) &&
            calls == [creation] + HS.Repeat(HS.GetVolumeCall(reply.volume.id), CreateAttempts(reply.volume, listings))
  {
    calls := [creation];
    var created := HS.CreateVolumeResult(reply);
    if !created.Got? {
      CreationThenPolls(creation, 0, 0);
      assert HS.Repeat(HS.GetVolumeCall(0), 0) == [];
      return Err(Internal), calls;
    }
    var vol := created.value;
    var attempts;
    r, attempts := AwaitAvailable(vol, topo, listings);
    CreationThenPolls(creation, vol.id, attempts);
    calls := calls + HS.Repeat(HS.GetVolumeCall(vol.id), attempts);
  }

  /** The creation call followed by `n` polls of volume `id` holds one
      creation call, `creation` itself, and `n` GetVolume calls. */
  lemma CreationThenPolls(creation: HS.Call, id: int, n: nat)
    requires creation.CreateVolumeCall?
    ensures var s := [creation] + HS.Repeat(HS.GetVolumeCall(id), n);
            HS.Count(s, IsCreateVolume) == 1 && HS.Count(s, IsGetVolume) == n &&
            forall c :: c in s && c.CreateVolumeCall? ==> c == creation
  {
    CallThenPolls(creation, id, n, IsCreateVolume);
    CallThenPolls(creation, id, n, IsGetVolume);
  }

  /** How many calls of a kind a call followed by `n` polls of volume `id` holds. */
  lemma CallThenPolls(c: HS.Call, id: int, n: nat, p: HS.Call -> bool)
    ensures HS.Count([c] + HS.Repeat(HS.GetVolumeCall(id), n), p) ==
            (if p(c) then 1 else 0) + (if p(HS.GetVolumeCall(id)) then n else 0)
  {
    HS.CountSingle(c, p);
    HS.CountAppend([c], HS.Repeat(HS.GetVolumeCall(id), n), p);
    HS.CountRepeat(HS.GetVolumeCall(id), n, p);
  }

  /** CreateVolume's poll of the created volume `vol`, from the second listing
      on, and the response it builds: a success reports `vol`'s id. */
  method AwaitAvailable(vol: HS.VolumeFields, topo: Option<TopologyRequirement>, listings: HS.Script)
    returns (r: Reply<CreateVolumeResponse>, attempts: nat)
    ensures 1 <= attempts <= MaxCreateAttempts
    ensures r.Ok? ==> r.value.volume.volumeId == Itoa(vol.id)
    ensures r.Err? ==> r.code == Internal
    ensures attempts == CreateAttempts(vol, listings)
    ensures r == AwaitReply(vol, topo, listings)
  {
    var polled;
    polled, attempts := Poll(MaxCreateAttempts, CreateStep, vol.id, listings, 1, vol);
    match polled {
      case Ok(v) =>
        CreatePollResult(vol, listings, attempts);
        r := Ok(GetCreateVolumeResponse(v, topo));
      case Err(code) =>
        r := Err(code);
      case Panic =>
        r := Panic;
    }
  }

  /** CreateVolume once the arguments are checked. The name lookup comes
      first. Idempotency by name: a failed lookup is Internal; one match of
      the requested size is returned as it is, one of another size is
      AlreadyExists, several are Internal, all without a further call. When
      nothing matched the volume is provisioned and polled, with at most one
      creation call, which carries the requested name and the rounded size;
      a volume reported without a match is the one created, under the id the
      backend gave it. */
  predicate CreatedByName(req: CreateVolumeRequest, cloud: HS.Cloud, clusterLabel: string,
                          r: Reply<CreateVolumeResponse>, calls: seq<HS.Call>) {
    var lookup := [HS.GetVolumesByNameCall(req.name)];
    var found := HS.VolumesByName(cloud.listings.At(0), req.name);
    var existing := Existing(cloud, req.name);
    calls != [] && calls[0] == HS.GetVolumesByNameCall(req.name) &&
    (found.Failed? ==> r == Err(Internal) && calls == lookup) &&
    (|existing| == 1 && existing[0].size == RequestedGiB(req) ==>
       r == Ok(GetCreateVolumeResponse(existing[0], req.accessibilityRequirements)) && calls == lookup) &&
    (|existing| == 1 && existing[0].size != RequestedGiB(req) ==> r == Err(AlreadyExists) && calls == lookup) &&
    (|existing| > 1 ==> r == Err(Internal) && calls == lookup) &&
    (!found.Failed? && existing == [] ==>
       r == ProvisionReply(req, cloud, clusterLabel) &&
       (Atoi(clusterLabel).None? ==> calls == lookup) &&
       (Atoi(clusterLabel).Some? ==> ProvisionedInCluster(req, Atoi(clusterLabel).value, clusterLabel, cloud, calls[1..])) &&
       (Atoi(clusterLabel).Some? && cloud.cluster.ClusterFound? ==> HS.Count(calls, IsCreateVolume) == 1)) &&
    HS.Count(calls, IsCreateVolume) <= 1 &&
    (forall c :: c in calls && c.CreateVolumeCall? ==> existing == [] && c.name == req.name && c.size == RequestedGiB(req)) &&
    HS.Count(calls, IsGetVolume) <= MaxCreateAttempts &&
    (r.Ok? && existing == [] ==>
       HS.Count(calls, IsCreateVolume) == 1 && cloud.creation.Created? &&
       r.value.volume.volumeId == Itoa(cloud.creation.volume.id))
  }

  /** The argument checks come before any backend call; an admitted request
      behaves as CreatedByName says. */
  method CreateVolume(d: Plugin.Driver, req: CreateVolumeRequest, cloud: HS.Cloud, clusterLabel: string)
    returns (r: Reply<CreateVolumeResponse>, calls: seq<HS.Call>)
    ensures !Admitted(d, req) ==> r == Err(InvalidArgument) && calls == []
    ensures Admitted(d, req) ==> CreatedByName(req, cloud, clusterLabel, r, calls)
  {
    var err := d.ValidateControllerServiceRequest(CreateDeleteVolume);
    if err.Some? {
      return Err(err.value), [];
    }
    if |req.name| == 0 {
      return Err(InvalidArgument), [];
    }
    if req.volumeCapabilities.None? {
      return Err(InvalidArgument), [];
    }
    r, calls := CreateVolumeByName(req, cloud, clusterLabel);
  }

  /** CreateVolume after the argument checks: the name lookup, and the
      provisioning when nothing matched. */
  method CreateVolumeByName(req: CreateVolumeRequest, cloud: HS.Cloud, clusterLabel: string)
    returns (r: Reply<CreateVolumeResponse>, calls: seq<HS.Call>)
    ensures CreatedByName(req, cloud, clusterLabel, r, calls)
  {
    var volSizeGB := RequestedGiB(req);
    var lookup := [HS.GetVolumesByNameCall(req.name)];
    HS.CountSingle(lookup[0], IsCreateVolume);
    HS.CountSingle(lookup[0], IsGetVolume);
    var volumes := HS.GetVolumesByName(cloud.listings.At(0), req.name);
    if volumes.Failed? {
      return Err(Internal), lookup;
    }
    var existing := if volumes.Got? then volumes.value else [];
    if |existing| == 1 {
      if volSizeGB != existing[0].size {
        return Err(AlreadyExists), lookup;
      }
      return Ok(GetCreateVolumeResponse(existing[0], req.accessibilityRequirements)), lookup;
    } else if |existing| > 1 {
      return Err(Internal), lookup;
    }
    var provisioned;
    r, provisioned := ProvisionVolume(req, cloud, clusterLabel);
    HS.CountAppend(lookup, provisioned, IsCreateVolume);
    HS.CountAppend(lookup, provisioned, IsGetVolume);
    calls := lookup + provisioned;
    assert calls[1..] == provisioned;
  }

  // ---------------------------------------------------------------------
  // DeleteVolume

  /** The volume's status decides: unknown to the backend (error or nil) is
      NotFound, `in-use` is refused, `available` is deleted, any other
      status is a success without a delete call. */
  function DeleteVolume(volumeId: string, cloud: HS.Cloud): (r: Outcome<()>)
    ensures Atoi(volumeId).None? ==> r == Outcome(Err(Internal), [])
    ensures Atoi(volumeId).Some? ==> r.calls != [] && r.calls[0] == HS.GetVolumeCall(Atoi(volumeId).value)
    ensures Atoi(volumeId).Some? && !HS.FetchVolume(cloud.listings.At(0), Atoi(volumeId).value).Got? ==>
            r.reply == Err(NotFound)
    ensures Atoi(volumeId).Some? && FoundWithStatus(HS.FetchVolume(cloud.listings.At(0), Atoi(volumeId).value), "in-use") ==>
            r.reply == Err(FailedPrecondition)
    ensures HS.Count(r.calls, IsDeleteVolume) <= 1
    ensures HS.Count(r.calls, IsDeleteVolume) == 1 <==>
            Atoi(volumeId).Some? && FoundWithStatus(HS.FetchVolume(cloud.listings.At(0), Atoi(volumeId).value), "available")
    ensures HS.Count(r.calls, IsDeleteVolume) == 1 ==>
            |r.calls| == 2 && r.calls[1] == HS.DeleteVolumeCall(Atoi(volumeId).value) &&
            r.reply == (if cloud.deletion.Some? then Err(Internal) else Ok(()))
    ensures r.reply.Ok? && HS.Count(r.calls, IsDeleteVolume) == 0 ==>
            var l := HS.FetchVolume(cloud.listings.At(0), Atoi(volumeId).value);
            l.Got? && l.value.Found? && l.value.volume.status != "in-use" && l.value.volume.status != "available"
    ensures Atoi(volumeId).Some? && !FirstFetch(cloud, Atoi(volumeId).value).Got? ==>
            r == Outcome(Err(NotFound), [HS.GetVolumeCall(Atoi(volumeId).value)])
    ensures Atoi(volumeId).Some? && FirstFetch(cloud, Atoi(volumeId).value) == HS.Got(HS.Empty) ==>
            r == Outcome(Panic, [HS.GetVolumeCall(Atoi(volumeId).value)])
    ensures Atoi(volumeId).Some? && FoundWithStatus(FirstFetch(cloud, Atoi(volumeId).value), "in-use") ==>
            r == Outcome(Err(FailedPrecondition), [HS.GetVolumeCall(Atoi(volumeId).value)])
    ensures Atoi(volumeId).Some? && FoundOtherStatus(FirstFetch(cloud, Atoi(volumeId).value)) ==>
            r == Outcome(Ok(()), [HS.GetVolumeCall(Atoi(volumeId).value)])
  {
    match Atoi(volumeId)
    case None => Outcome(Err(Internal), [])
    case Some(id) =>
      var lookup := [HS.GetVolumeCall(id)];
      assert HS.Count(lookup, IsDeleteVolume) == 0 by { assert lookup[..0] == []; }
      match HS.FetchVolume(cloud.listings.At(0), id)
      case Failed(_) => Outcome(Err(NotFound), lookup)
      case Nil => Outcome(Err(NotFound), lookup)
      case Got(Empty) => Outcome(Panic, lookup)
      case Got(Found(v)) =>
        if v.status == "in-use" then Outcome(Err(FailedPrecondition), lookup)
        else if v.status == "available" then
          var calls := lookup + [HS.DeleteVolumeCall(id)];
          assert calls[..1] == lookup;
          if cloud.deletion.Some? then Outcome(Err(Internal), calls) else Outcome(Ok(()), calls)
        else Outcome(Ok(()), lookup)
  }

  // ---------------------------------------------------------------------
  // ControllerPublishVolume

  /** The publish context: the backend name of the volume under VolNameKey. */
  function PublishContext(name: string): map<string, string> {
    map[Plugin.VolNameKey := name]
  }

  /** The number of GetVolume calls ControllerPublishVolume's poll makes. */
  function PublishAttempts(volumeId: int, listings: HS.Script): nat {
    PollAttempts(MaxPublishAttempts, PublishStep, volumeId, listings, 1, 0)
  }

  /** What the ControllerPublishVolume poll promises: errors, nil results and
      records that are not yet `in-use` keep it going, so the poll never
      fails; it stops early only at an `in-use` record or at the empty
      record, whose status is a nil dereference. */
  lemma PublishPollMeaning(volumeId: int, listings: HS.Script, fallback: HS.VolumeFields)
    ensures var n := PublishAttempts(volumeId, listings);
            1 <= n <= MaxPublishAttempts &&
            forall j :: 0 <= j < n - 1 ==>
              var l := PollResult(listings, 1, j, volumeId);
              l != HS.Got(HS.Empty) && !FoundWithStatus(l, "in-use")
    ensures var l := PollResult(listings, 1, PublishAttempts(volumeId, listings) - 1, volumeId);
            var p := PollReply(MaxPublishAttempts, PublishStep, volumeId, listings, 1, fallback);
            (p.Panic? <==> l == HS.Got(HS.Empty)) && !p.Err? &&
            (PublishAttempts(volumeId, listings) < MaxPublishAttempts ==> l == HS.Got(HS.Empty) || FoundWithStatus(l, "in-use"))
  {
    var n := PublishAttempts(volumeId, listings);
    PollAttemptsIsFirstStop(MaxPublishAttempts, PublishStep, volumeId, listings, 1, 0);
    var l := PollResult(listings, 1, n - 1, volumeId);
    PublishStepStops(l, fallback);
    forall j | 0 <= j < n - 1
      ensures var l := PollResult(listings, 1, j, volumeId); l != HS.Got(HS.Empty) && !FoundWithStatus(l, "in-use")
    {
      PublishStepStops(PollResult(listings, 1, j, volumeId), fallback);
    }
  }

  /** PublishStep stops exactly at the empty record, which panics, and at an
      `in-use` record; it never fails. */
  lemma PublishStepStops(l: HS.Lookup<HS.Fetched>, fallback: HS.VolumeFields)
    ensures PublishStep(l).Stop? <==> l == HS.Got(HS.Empty) || FoundWithStatus(l, "in-use")
    ensures Conclude(PublishStep(l), fallback).Panic? <==> l == HS.Got(HS.Empty)
    ensures !Conclude(PublishStep(l), fallback).Err?
  {
  }

  /** What ControllerPublishVolume does for the numeric node id `vm` and
      volume id `vol`, case by case on the first lookup: unknown to the
      backend (error or nil) is NotFound, the empty record is a nil
      dereference, any status but `available` is published as it is with no
      further call; an `available` volume is attached, a failed attach is
      Internal, and after a successful one the poll for `in-use` runs and the
      volume is published unless the poll hit the empty record. The context
      always carries the name from the first lookup, and only an `available`
      volume is attached, once. */
  predicate PublishedById(vm: int, vol: int, cloud: HS.Cloud, r: Reply<map<string, string>>, calls: seq<HS.Call>) {
    var l := FirstFetch(cloud, vol);
    calls != [] && calls[0] == HS.GetVolumeCall(vol) &&
    (!l.Got? ==> r == Err(NotFound) && calls == [HS.GetVolumeCall(vol)]) &&
    (l == HS.Got(HS.Empty) ==> r == Panic && calls == [HS.GetVolumeCall(vol)]) &&
    (FoundWithStatus(l, "in-use") ==> r == Ok(PublishContext(l.value.volume.name)) && calls == [HS.GetVolumeCall(vol)]) &&
    (FoundOtherStatus(l) ==> r == Ok(PublishContext(l.value.volume.name)) && calls == [HS.GetVolumeCall(vol)]) &&
    (FoundWithStatus(l, "available") && cloud.attachment.Some? ==>
       r == Err(Internal) && calls == [HS.GetVolumeCall(vol), HS.AttachVolumeToNodeCall(vm, vol)]) &&
    (FoundWithStatus(l, "available") && cloud.attachment.None? ==>
       calls == [HS.GetVolumeCall(vol)] + ([HS.AttachVolumeToNodeCall(vm, vol)] +
                HS.Repeat(HS.GetVolumeCall(vol), PublishAttempts(vol, cloud.listings))) &&
       r == if PollReply(MaxPublishAttempts, PublishStep, vol, cloud.listings, 1, l.value.volume).Panic? then Panic
            else Ok(PublishContext(l.value.volume.name))) &&
    (r.Ok? ==> l.Got? && l.value.Found? && r.value == PublishContext(l.value.volume.name)) &&
    HS.Count(calls, IsAttach) == (if FoundWithStatus(l, "available") then 1 else 0) &&
    HS.Count(calls, IsGetVolume) <= 1 + MaxPublishAttempts
  }

  /** Ids that are not numbers are Internal before any backend call;
      otherwise the handler behaves as PublishedById says. */
  method ControllerPublishVolume(nodeId: string, volumeId: string, cloud: HS.Cloud)
    returns (r: Reply<map<string, string>>, calls: seq<HS.Call>)
    ensures Atoi(nodeId).None? || Atoi(volumeId).None? ==> r == Err(Internal) && calls == []
    ensures Atoi(nodeId).Some? && Atoi(volumeId).Some? ==>
            PublishedById(Atoi(nodeId).value, Atoi(volumeId).value, cloud, r, calls)
  {
    var vmId := Atoi(nodeId);
    if vmId.None? {
      return Err(Internal), [];
    }
    var volumeIdInt := Atoi(volumeId);
    if volumeIdInt.None? {
      return Err(Internal), [];
    }
    r, calls := PublishVolumeById(vmId.value, volumeIdInt.value, cloud);
  }

  /** ControllerPublishVolume after both ids are parsed. */
  method PublishVolumeById(vm: int, vol: int, cloud: HS.Cloud) returns (r: Reply<map<string, string>>, calls: seq<HS.Call>)
    ensures PublishedById(vm, vol, cloud, r, calls)
  {
    calls := [HS.GetVolumeCall(vol)];
    HS.CountSingle(calls[0], IsAttach);
    HS.CountSingle(calls[0], IsGetVolume);
    var getVolume := HS.GetVolume(cloud.listings.At(0), vol);
    match getVolume {
      case Failed(_) =>
        return Err(NotFound), calls;
      case Nil =>
        return Err(NotFound), calls;
      case Got(Empty) =>
        return Panic, calls;
      case Got(Found(v)) =>
        var rest;
        r, rest := PublishByStatus(vm, vol, v, cloud);
        HS.CountAppend(calls, rest, IsAttach);
        HS.CountAppend(calls, rest, IsGetVolume);
        calls := calls + rest;
    }
  }

  /** ControllerPublishVolume once the volume `v` is found: any status but
      `available` is published as it is; an `available` volume is attached,
      and when that succeeds polled for `in-use`, after which it is reported
      as published unless the poll hit the empty record. */
  method PublishByStatus(vm: int, vol: int, v: HS.VolumeFields, cloud: HS.Cloud)
    returns (r: Reply<map<string, string>>, calls: seq<HS.Call>)
    ensures r.Ok? ==> r.value == PublishContext(v.name)
    ensures v.status != "available" ==> r == Ok(PublishContext(v.name)) && calls == []
    ensures HS.Count(calls, IsAttach) == (if v.status == "available" then 1 else 0)
    ensures HS.Count(calls, IsGetVolume) <= MaxPublishAttempts
    ensures v.status == "available" ==> calls != [] && calls[0] == HS.AttachVolumeToNodeCall(vm, vol)
    ensures v.status == "available" && cloud.attachment.Some? ==> r == Err(Internal) && calls == [HS.AttachVolumeToNodeCall(vm, vol)]
    ensures v.status == "available" && cloud.attachment.None? ==>
            calls == [HS.AttachVolumeToNodeCall(vm, vol)] + HS.Repeat(HS.GetVolumeCall(vol), PublishAttempts(vol, cloud.listings)) &&
            r == if PollReply(MaxPublishAttempts, PublishStep, vol, cloud.listings, 1, v).Panic? then Panic
                 else Ok(PublishContext(v.name))
  {
    if v.status != "available" {
      return Ok(PublishContext(v.name)), [];
    }
    calls := [HS.AttachVolumeToNodeCall(vm, vol)];
    HS.CountSingle(calls[0], IsAttach);
    HS.CountSingle(calls[0], IsGetVolume);
    if cloud.attachment.Some? {
      return Err(Internal), calls;
    }
    var polled, attempts := Poll(MaxPublishAttempts, PublishStep, vol, cloud.listings, 1, v);
    CallThenPolls(calls[0], vol, attempts, IsAttach);
    CallThenPolls(calls[0], vol, attempts, IsGetVolume);
    calls := calls + HS.Repeat(HS.GetVolumeCall(vol), attempts);
    if polled.Panic? {
      return Panic, calls;
    }
    r := Ok(PublishContext(v.name));
  }

  // ---------------------------------------------------------------------
  // ControllerUnpublishVolume

  /** Detaches only a volume whose status is `in-use`; any other status is a
      success without a backend detach. */
  function ControllerUnpublishVolume(nodeId: string, volumeId: string, cloud: HS.Cloud): (r: Outcome<()>)
    ensures Atoi(nodeId).None? || Atoi(volumeId).None? ==> r == Outcome(Err(Internal), [])
    ensures Atoi(nodeId).Some? && Atoi(volumeId).Some? ==> r.calls != [] && r.calls[0] == HS.GetVolumeCall(Atoi(volumeId).value)
    ensures Atoi(nodeId).Some? && Atoi(volumeId).Some? && !HS.FetchVolume(cloud.listings.At(0), Atoi(volumeId).value).Got? ==>
            r.reply == Err(NotFound)
    ensures HS.Count(r.calls, IsDetach) <= 1
    ensures HS.Count(r.calls, IsDetach) == 1 <==>
            Atoi(nodeId).Some? && Atoi(volumeId).Some? &&
            FoundWithStatus(HS.FetchVolume(cloud.listings.At(0), Atoi(volumeId).value), "in-use")
    ensures HS.Count(r.calls, IsDetach) == 1 ==>
            |r.calls| == 2 && r.calls[1] == HS.DetachVolumeFromNodeCall(Atoi(nodeId).value, Atoi(volumeId).value) &&
            r.reply == (if cloud.detachment.Some? then Err(Internal) else Ok(()))
    ensures r.reply.Ok? && HS.Count(r.calls, IsDetach) == 0 ==>
            var l := HS.FetchVolume(cloud.listings.At(0), Atoi(volumeId).value);
            l.Got? && l.value.Found? && l.value.volume.status != "in-use"
    ensures Atoi(nodeId).Some? && Atoi(volumeId).Some? && !FirstFetch(cloud, Atoi(volumeId).value).Got? ==>
            r == Outcome(Err(NotFound), [HS.GetVolumeCall(Atoi(volumeId).value)])
    ensures Atoi(nodeId).Some? && Atoi(volumeId).Some? && FirstFetch(cloud, Atoi(volumeId).value) == HS.Got(HS.Empty) ==>
            r == Outcome(Panic, [HS.GetVolumeCall(Atoi(volumeId).value)])
    ensures Atoi(nodeId).Some? && Atoi(volumeId).Some? && FirstFetch(cloud, Atoi(volumeId).value).Got? &&
            FirstFetch(cloud, Atoi(volumeId).value).value.Found? &&
            FirstFetch(cloud, Atoi(volumeId).value).value.volume.status != "in-use" ==>
              r == Outcome(Ok(()), [HS.GetVolumeCall(Atoi(volumeId).value)])
  {
    match Atoi(nodeId)
    case None => Outcome(Err(Internal), [])
    case Some(vm) =>
      match Atoi(volumeId)
      case None => Outcome(Err(Internal), [])
      case Some(vol) =>
        var lookup := [HS.GetVolumeCall(vol)];
        assert HS.Count(lookup, IsDetach) == 0 by { assert lookup[..0] == []; }
        match HS.FetchVolume(cloud.listings.At(0), vol)
        case Failed(_) => Outcome(Err(NotFound), lookup)
        case Nil => Outcome(Err(NotFound), lookup)
        case Got(Empty) => Outcome(Panic, lookup)
        case Got(Found(v)) =>
          if v.status == "in-use" then
            var calls := lookup + [HS.DetachVolumeFromNodeCall(vm, vol)];
            assert calls[..1] == lookup;
            if cloud.detachment.Some? then Outcome(Err(Internal), calls) else Outcome(Ok(()), calls)
          else Outcome(Ok(()), lookup)
  }

  // ---------------------------------------------------------------------
  // ValidateVolumeCapabilities

  datatype ValidateResponse = ValidateResponse(confirmed: Option<seq<VolumeCapability>>, message: string)

  const UnsupportedMessage: string := "Requested Volume Capability not supported"

  /** `vcap` is the driver's access-mode table. Only a failed lookup is an
      error; a nil or empty record is accepted as it is. */
  function ValidateVolumeCapabilities(volumeId: string, caps: seq<VolumeCapability>, vcap: seq<AccessMode>, cloud: HS.Cloud)
    : (r: Outcome<ValidateResponse>)
    ensures caps == [] || volumeId == "" ==> r == Outcome(Err(InvalidArgument), [])
    ensures caps != [] && volumeId != "" && Atoi(volumeId).None? ==> r == Outcome(Err(Internal), [])
    ensures r.reply.Err? ==> r.reply.code in {InvalidArgument, Internal}
    ensures r.reply.Ok? && vcap != [] ==>
            ((exists i :: 0 <= i < |caps| && caps[i].Mode() != vcap[0].mode) <==> r.reply.value.confirmed.None?)
    ensures r.reply.Ok? && r.reply.value.confirmed.None? ==> r.reply.value.message == UnsupportedMessage
    ensures r.reply.Ok? && r.reply.value.confirmed.Some? ==>
            vcap != [] && r.reply.value.confirmed.value == [VolumeCapability(NoAccessType, Some(vcap[0]))] &&
            forall i :: 0 <= i < |caps| ==> caps[i].Mode() == vcap[0].mode
    ensures caps != [] && volumeId != "" && Atoi(volumeId).Some? ==>
            r.calls == [HS.GetVolumeCall(Atoi(volumeId).value)] &&
            (FirstFetch(cloud, Atoi(volumeId).value).Failed? ==> r.reply == Err(Internal)) &&
            (!FirstFetch(cloud, Atoi(volumeId).value).Failed? && vcap != [] ==> r.reply.Ok?) &&
            (!FirstFetch(cloud, Atoi(volumeId).value).Failed? && vcap == [] ==> r.reply.Panic?)
  {
    if |caps| == 0 then Outcome(Err(InvalidArgument), [])
    else if |volumeId| == 0 then Outcome(Err(InvalidArgument), [])
    else
      match Atoi(volumeId)
      case None => Outcome(Err(Internal), [])
      case Some(id) =>
        var lookup := [HS.GetVolumeCall(id)];
        if HS.FetchVolume(cloud.listings.At(0), id).Failed? then Outcome(Err(Internal), lookup)
        else if |vcap| == 0 then Outcome(Panic, lookup)   // cs.driver.vcap[0] out of range
        else if exists i :: 0 <= i < |caps| && caps[i].Mode() != vcap[0].mode then
          Outcome(Ok(ValidateResponse(None, UnsupportedMessage)), lookup)
        else
          Outcome(Ok(ValidateResponse(Some([VolumeCapability(NoAccessType, Some(vcap[0]))]), "")), lookup)
  }

  // ---------------------------------------------------------------------
  // ControllerGetCapabilities

  /** The two capabilities ControllerGetCapabilities appends to the driver's table. */
  const AppendedRpcs: seq<ControllerRpcType> := [CreateDeleteVolume, PublishUnpublishVolume]

  method ControllerGetCapabilities(cscap: seq<ControllerServiceCapability>) returns (caps: seq<ControllerServiceCapability>)
    ensures |caps| == |cscap| + 2 && caps[..|cscap|] == cscap
    ensures caps[|cscap|] == ControllerServiceCapability(CreateDeleteVolume)
    ensures caps[|cscap| + 1] == ControllerServiceCapability(PublishUnpublishVolume)
  {
    caps := cscap;
    for i := 0 to |AppendedRpcs|
      invariant |caps| == |cscap| + i && caps[..|cscap|] == cscap
      invariant forall j :: 0 <= j < i ==> caps[|cscap| + j] == ControllerServiceCapability(AppendedRpcs[j])
    {
      caps := caps + [ControllerServiceCapability(AppendedRpcs[i])];
    }
    assert caps[|cscap| + 0] == ControllerServiceCapability(AppendedRpcs[0]);
    assert caps[|cscap| + 1] == ControllerServiceCapability(AppendedRpcs[1]);
  }

  /** With NewDriver's table the answer lists eleven capabilities, and
      CREATE_DELETE_VOLUME and PUBLISH_UNPUBLISH_VOLUME each appear twice. */
  lemma AdvertisedCapabilitiesRepeat(cscap: seq<ControllerServiceCapability>, caps: seq<ControllerServiceCapability>)
    requires Plugin.WrapsControllerTable(cscap, Plugin.ControllerTable)
    requires |caps| == |cscap| + 2 && caps[..|cscap|] == cscap
    requires caps[|cscap|] == ControllerServiceCapability(CreateDeleteVolume)
    requires caps[|cscap| + 1] == ControllerServiceCapability(PublishUnpublishVolume)
    ensures |caps| == 11
    ensures caps[1] == caps[9] == ControllerServiceCapability(CreateDeleteVolume)
    ensures caps[2] == caps[10] == ControllerServiceCapability(PublishUnpublishVolume)
  {
    assert caps[1] == caps[..|cscap|][1] == cscap[1];
    assert caps[2] == caps[..|cscap|][2] == cscap[2];
  }
}
