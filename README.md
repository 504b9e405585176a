# Hyperstack CSI driver: a Dafny model of the volume lifecycle logic

This project models the decision logic of the Hyperstack Container Storage
Interface (CSI) driver in Dafny and proves properties about it. The driver is
the plugin that provisions, attaches and mounts Hyperstack block volumes for
Kubernetes. Four services are modelled:

- **The controller service** (`controller.dfy`).
  - CreateVolume checks its arguments and rounds the size to GiB. It is idempotent by name.
  - CreateVolume then creates the volume and polls, at most 15 times, until the volume is `available`.
  - DeleteVolume, ControllerPublishVolume and ControllerUnpublishVolume choose their action from the volume's status. ControllerPublishVolume polls at most 30 times for `in-use`.
  - ValidateVolumeCapabilities compares the requested access modes with the driver's table.
  - ControllerGetCapabilities appends two capabilities to the driver's table.
  - The response builder turns the backend record into a CSI volume.
- **The node service** (`node.dfy`).
  - The by-id / by-volumeid symlink heuristic of `createSymLink`.
  - Device resolution.
  - The `mkfs` and `mount` command lines.
  - NodeStageVolume, NodeUnstageVolume, NodePublishVolume, NodeUnpublishVolume and NodeGetInfo.
- **The identity service** (`identity.dfy`).
- **The driver object** (`plugin.dfy`): a class whose fields NewDriver and the Setup* methods assign, the controller-capability check and the guard at the start of Run. `utils.dfy` holds endpoint parsing and the three capability-mapping loops.

Supporting modules:

- `wrappers.dfy`: Option and Result.
- `csi.dfy`: gRPC codes and CSI messages.
- `strings.dfy`: the Go string and strconv routines the driver uses, with ToLower restricted to ASCII.
- `hyperstack.dfy`: the backend wrapper (`GetVolumesByName`, `GetVolume`, the creation result checks) and the scripted backend.

How the environment is represented:

- **The Hyperstack backend** is a value, `Hyperstack.Cloud`.
  - It holds a script of successive ListVolumes replies. Each `GetVolumesByName` or `GetVolume` call consumes the next one.
  - It holds the replies to GetClusterDetail, CreateVolume, DeleteVolume, AttachVolumeToNode and DetachVolumeFromNode.
  - Every controller handler returns its reply together with the list of backend calls it issued. So "no backend call" is `calls == []`, and "exactly one delete" is a count over that list.
- **The node's file system** is a value, `Node.Host`.
  - It holds the two `/dev/disk` directories as lists of (name, link target) entries.
  - It holds sets saying which directory reads, link reads, mkdirs, symlinks, commands and unmounts fail.
  - `os.ReadDir` returns entries sorted by name, and so does `Node.ReadDir`.
  - Node handlers return their reply and the host effects they performed, in order.

The driver's replies are `Csi.Reply`: a value, a gRPC status code, or `Panic`. The code produces `Panic` in these cases:

- It dereferences the `Status` of the empty record that GetVolume returns for an unknown id.
- It reads `vcap[0]` of an empty table.
- It reads `GetMount().FsType` of a capability that is not a mount.

A plain Go error returned from a handler reaches the client as gRPC Unknown.

Where the code differs from the documented behaviour, the model follows the code:

- NodeStageVolume returns the helpers' plain errors, so its failures are Unknown, not Internal.
- DeleteVolume answers NotFound when the lookup fails or returns nil.
- A publish context without the volume-name key makes NodeStageVolume search for the empty name. Every entry matches the empty name, so resolution takes the first by-volumeid entry.
- A second createSymLink pass over an unchanged by-id directory can still create a link (`Node.SecondPassCanRelink`).

## Model

| member | source | states |
|---|---|---|
| Identity.GetPluginInfo | pkg/driver/identityserver.go:16-32 | an empty name is Unavailable; an empty version with a name is Unavailable; success exactly when both are set, returning them unchanged |
| Identity.Probe | pkg/driver/identityserver.go:34-39 | always succeeds with an empty response (no `ready` field) |
| Identity.GetPluginCapabilities | pkg/driver/identityserver.go:41-78 | exactly four capabilities: CONTROLLER_SERVICE, VOLUME_ACCESSIBILITY_CONSTRAINTS, expansion ONLINE, expansion OFFLINE, in this order |
| Utils.ParseEndpoint | pkg/driver/utils.go:68-76 | succeeds iff the lower-cased endpoint starts with `unix://` or `tcp://` and something follows the `://`; on success scheme + "://" + address is the input, the scheme keeps its case and the address is non-empty; on failure both parts are empty and the error names the endpoint |
| Utils.SchemeSeparator | pkg/driver/utils.go:69-70 | when the lower-cased input starts with `unix://` or `tcp://`, the first `://` of the input itself comes right after the scheme, which is where SplitN cuts |
| Utils.MapControllerServiceCapabilities | pkg/driver/utils.go:19-35 | same length as the input; element i wraps input i |
| Utils.MapVolumeCapabilityAccessModes | pkg/driver/utils.go:37-47 | same length as the input; element i wraps input i |
| Utils.MapNodeServiceCapabilities | pkg/driver/utils.go:49-66 | same length as the input; element i wraps input i |
| Plugin.Driver.constructor | pkg/driver/driver.go:60-98 | options, name and version stored; no service set; cscap wraps the nine controller types in order, nscap the three node types, vcap is SINGLE_NODE_WRITER alone |
| Plugin.NewDriverControllerTable | pkg/driver/driver.go:76-86 | with NewDriver's table CREATE_DELETE_VOLUME and PUBLISH_UNPUBLISH_VOLUME are accepted and GET_CAPACITY is rejected |
| Plugin.Driver.ValidateControllerServiceRequest | pkg/driver/driver.go:101-113 | no error iff the type is UNKNOWN or occurs in cscap; otherwise InvalidArgument |
| Plugin.Driver.SetupIdentityService | pkg/driver/driver.go:115-120 | sets the identity service and no other field |
| Plugin.Driver.SetupControllerService | pkg/driver/driver.go:122-127 | sets the controller service and no other field |
| Plugin.Driver.SetupNodeService | pkg/driver/driver.go:129-136 | sets the node service and no other field |
| Plugin.Driver.Run | pkg/driver/driver.go:138-161 | refuses to start iff neither the controller nor the node service is set; otherwise a server error is reported, or serving starts on the configured endpoint with the services that are set |
| Plugin.StartDriver | main.go:123-158 | NewDriver, then the identity service and the enabled services: no services iff neither controller nor node is enabled; whenever controller or node is enabled, serving on the configured endpoint with the identity service and exactly the enabled ones |
| Strings.AtoiItoa | pkg/driver/controllerserver.go:409 | strconv.Atoi reads back the decimal handle strconv.Itoa writes, for every 64-bit id |
| Strings.ItoaInjective | pkg/hyperstack/hyperstack_volume.go:74 | two ids with the same decimal spelling are equal, so comparing spellings compares ids |
| Hyperstack.Matching | pkg/hyperstack/hyperstack_volume.go:40-46 | a volume is in the result iff it is listed and its name contains the query; never longer than the listing |
| Hyperstack.MatchingAppend | pkg/hyperstack/hyperstack_volume.go:40-46 | the filter distributes over concatenation of listings, so the result keeps the listing order and each matching row as often as it is listed |
| Hyperstack.MatchingSingle | pkg/hyperstack/hyperstack_volume.go:41-45 | a single row is kept iff its name contains the query |
| Hyperstack.GetVolumesByName | pkg/hyperstack/hyperstack_volume.go:18-47 | a request error is passed on; a nil body or nil list is (nil, no error); otherwise the filtered list |
| Hyperstack.EmptyQueryMatchesAll | pkg/hyperstack/hyperstack_volume.go:42 | the empty query keeps every listed volume |
| Hyperstack.PrefixQueryMatchesLongerName | pkg/hyperstack/hyperstack_volume.go:42 | the query "pvc-a" matches both "pvc-a" and "pvc-ab" |
| Hyperstack.FirstWithId | pkg/hyperstack/hyperstack_volume.go:73-78 | the first row whose decimal id equals the text; the empty record iff no row matches |
| Hyperstack.GetVolume | pkg/hyperstack/hyperstack_volume.go:50-79 | a request error is passed on; a nil body or nil list is (nil, no error); otherwise the first row with the id, or the empty record |
| Hyperstack.FetchVolumeById | pkg/hyperstack/hyperstack_volume.go:73-78 | over a listing, the result is the first row with exactly this id, and the empty record iff no row has it |
| Hyperstack.FetchedVolumeHasId | pkg/hyperstack/hyperstack_volume.go:73-76 | a record GetVolume finds carries the id it was asked for |
| Hyperstack.CreateVolumeResult | pkg/hyperstack/hyperstack_volume.go:103-116 | an error, a nil body and a nil volume are errors; otherwise the returned volume, and never (nil, no error) |
| Hyperstack.PayloadIgnoresTags | pkg/hyperstack/hyperstack_volume.go:93-102 | the payload sent is the same whatever tags are passed: name, size, type, environment and the fixed description |
| Controller.RequestedGiBIsCeiling | pkg/driver/controllerserver.go:53-57 | 1 GiB without a capacity range; for non-negative byte counts the least number of GiB that holds the request |
| Controller.GetCreateVolumeResponse | pkg/driver/controllerserver.go:398-417 | the topology is the preferred list of the requirement, or empty without one; the capacity is an int64 value |
| Controller.CreateVolumeResponseRoundTrip | pkg/driver/controllerserver.go:409-410 | the handle parses back to the backend id; the capacity is size × 1073741824 whenever that fits in int64 |
| Controller.PollAttemptsIsFirstStop | pkg/driver/controllerserver.go:110-130 | the number of attempts a poll makes is the first one whose result stops the loop, or the maximum: every earlier result keeps polling, and the last stops unless the attempts ran out |
| Controller.Poll | pkg/driver/controllerserver.go:110-130 | between 1 and the maximum attempts; every attempt before the last said keep polling; stopping early means the last result stopped the loop; the attempt count is PollAttempts and the reply PollReply: the stop's outcome, or the fallback record after exhaustion |
| Controller.CreatePollResult | pkg/driver/controllerserver.go:108-133 | a successful creation poll returns a record that is `available` and carries the created id, or the creation record itself after all 15 attempts |
| Controller.AwaitReplyMeaning | pkg/driver/controllerserver.go:108-133 | in CreateVolume's poll nil results and records not yet `available` keep polling; the reply is an error iff the last GetVolume failed, and then Internal; a nil dereference iff the last result is the empty record; an `available` record ends the poll and is reported; a success reports an `available` record with the created id, or the creation record after all 15 attempts |
| Controller.AwaitAvailable | pkg/driver/controllerserver.go:108-133 | the GetVolume attempts are CreateAttempts and the reply is AwaitReply of the created volume: the poll's outcome with the record turned into the response; a success reports the created id; every error is Internal |
| Controller.Properties | pkg/driver/controllerserver.go:82-89 | the tags are the cluster id under its key plus exactly those of the three PVC/PV parameters the request carries, with their values |
| Controller.CreateAndAwait | pkg/driver/controllerserver.go:103-133 | the creation call comes first and is the only one; a failed, bodiless or volume-less creation result is Internal after that call alone; a created volume is polled: the calls are the creation then CreateAttempts GetVolume calls for its id, and the reply is AwaitReply |
| Controller.CreateInEnvironment | pkg/driver/controllerserver.go:82-133 | one creation call with the request's name, the rounded size, the `type` parameter, the cluster's environment and the tags: the cluster id plus exactly the copied parameters the request carries, each with the request's value; then the reply and polls of CreateAndAwait |
| Controller.ProvisionVolume | pkg/driver/controllerserver.go:76-133 | the reply is ProvisionReply: Internal for a non-numeric cluster label (then with no call), a failed cluster lookup or a failed creation, otherwise the poll's outcome; for a numeric label ProvisionedInCluster holds: GetClusterDetail first, nothing else when it fails, else exactly one creation call, the CreationCall of the request (name, rounded size, type, environment, cluster tag and copied parameter values), then the polls; every creation call carries the name, rounded size and cluster tag; at most 15 polls |
| Controller.ProvisionInCluster | pkg/driver/controllerserver.go:96-133 | for a parsed cluster id, the reply is Internal when the cluster lookup or the creation fails and the poll's outcome otherwise, and the calls are as ProvisionedInCluster says |
| Controller.CreateVolume | pkg/driver/controllerserver.go:30-134 | an unsupported request, an empty name or nil capabilities is InvalidArgument with no backend call; an admitted request satisfies CreatedByName: the name lookup first; a failed lookup is Internal; one match of equal size is returned, of another size is AlreadyExists, several are Internal, each after only the lookup; with no match the reply is ProvisionReply, a non-numeric cluster label makes no call after the lookup, and for a numeric one the calls after the lookup are exactly as ProvisionedInCluster says; at most one creation, only when nothing matched, with the name and rounded size; at most 15 polls; a volume reported after no match is the created one |
| Controller.CreateVolumeByName | pkg/driver/controllerserver.go:58-133 | the part after the argument checks satisfies CreatedByName |
| Controller.DeleteVolume | pkg/driver/controllerserver.go:136-168 | a non-numeric id is Internal with no call; otherwise one GetVolume first; an error or nil lookup is NotFound; the empty record is a nil dereference; `in-use` is FailedPrecondition; exactly one delete iff the status is `available`, and then success if the delete succeeds and Internal if it fails; any other status succeeds after the lookup alone |
| Controller.ControllerPublishVolume | pkg/driver/controllerserver.go:170-246 | non-numeric ids are Internal with no call; otherwise PublishedById holds: one GetVolume first; an error or nil lookup is NotFound and the empty record a nil dereference, after that call alone; every status but `available` returns the context at once; `available` is attached once, a failed attach is Internal, and after a successful one the calls are the attach and PublishAttempts polls and the reply is the context unless the poll hit the empty record; a success always carries the name from the first lookup; at most 31 GetVolume calls |
| Controller.PublishVolumeById | pkg/driver/controllerserver.go:190-245 | for parsed ids, the lookup and what follows satisfy PublishedById |
| Controller.PublishByStatus | pkg/driver/controllerserver.go:202-245 | a found volume whose status is not `available` is published with no call; an `available` one is attached, a failed attach is Internal, a successful one is followed by PublishAttempts polls and the context is returned unless the poll hit the empty record |
| Controller.PublishPollMeaning | pkg/driver/controllerserver.go:219-239 | in ControllerPublishVolume's poll errors, nil results and records not yet `in-use` keep polling, so the poll never fails; it stops early only at `in-use` or at the empty record, and it is a nil dereference iff the last result is the empty record |
| Controller.PublishStepStops | pkg/driver/controllerserver.go:221-237 | one poll result stops the loop iff it is the empty record or an `in-use` record; only the empty record panics and none is an error |
| Controller.ControllerUnpublishVolume | pkg/driver/controllerserver.go:248-283 | non-numeric ids are Internal with no call; otherwise one GetVolume first; an error or nil lookup is NotFound and the empty record a nil dereference, after that call alone; exactly one detach iff the status is `in-use`, and then success if the detach succeeds and Internal if it fails; any other status succeeds after the lookup alone |
| Controller.ValidateVolumeCapabilities | pkg/driver/controllerserver.go:331-375 | no capabilities or no id is InvalidArgument and a non-numeric id Internal, with no call; otherwise exactly one GetVolume; a failed lookup is Internal; otherwise an empty access-mode table is a nil dereference and any other table a success, with no error; the message-only response iff some requested mode differs from vcap[0]; otherwise Confirmed holds exactly one capability carrying vcap[0] |
| Controller.ControllerGetCapabilities | pkg/driver/controllerserver.go:311-329 | the driver's table unchanged, then CREATE_DELETE_VOLUME and PUBLISH_UNPUBLISH_VOLUME |
| Controller.AdvertisedCapabilitiesRepeat | pkg/driver/controllerserver.go:312-325 | with NewDriver's table the answer has eleven entries and lists both appended capabilities twice |
| Node.ReadDir | pkg/driver/nodeserver.go:71 | the listing holds exactly the directory's entries (as a multiset), sorted by name |
| Node.MarkerHoldsSegment | pkg/driver/nodeserver.go:77-80 | every listed name occurs in the marker as "_<name>_" |
| Node.BuildMarker | pkg/driver/nodeserver.go:77-80 | the first loop yields the marker: "_", then each name followed by "_", in listing order |
| Node.PlannedLinks | pkg/driver/nodeserver.go:88-104 | a link `<name>_<vol>` with the entry's target for every by-id entry whose name is not a substring of the marker, and no other link; with PlannedLinksAppend and PlannedLinksSingle this fixes order and multiplicity |
| Node.PlannedLinksAppend | pkg/driver/nodeserver.go:88-104 | the plan of a concatenated listing is the plans of the parts in order, so each uncovered entry contributes its link exactly once, in listing order |
| Node.PlannedLinksSingle | pkg/driver/nodeserver.go:88-104 | a single entry is linked iff the marker does not cover its name |
| Node.LinkPassFollowsPlan | pkg/driver/nodeserver.go:88-104 | the links made are a prefix of the planned links, in order; a pass without error makes all of them |
| Node.LinkPassSucceedsIff | pkg/driver/nodeserver.go:88-104 | the pass ends without error iff every link read succeeds and every needed symlink succeeds |
| Node.MakeLinks | pkg/driver/nodeserver.go:88-104 | the second loop makes exactly the links and reports exactly the error of the link pass |
| Node.CreateSymLink | pkg/driver/nodeserver.go:63-106 | a failed mkdir or directory read stops with no links; otherwise the link pass over the sorted by-id listing and the marker of the sorted by-volumeid listing |
| Node.SymLinkEffects | pkg/driver/nodeserver.go:66-99 | the directory creation, then one symlink per link made, pointing at the by-id entry's target |
| Node.SecondPassRelinksOnlyBoundaryMatches | pkg/driver/nodeserver.go:77-104 | a second pass over an unchanged by-id listing links only names the first marker contained, and never a name inside a single "_<name>_" segment of a by-volumeid entry |
| Node.SecondPassCanRelink | pkg/driver/nodeserver.go:77-104 | by-volumeid {a, b}, by-id {a0, a_b}: the first pass links only a0; its link sorts between a and b, and the second pass links a_b |
| Node.FirstContaining | pkg/driver/nodeserver.go:165-170 | the first entry whose name contains the volume name; none iff no entry does |
| Node.GetDevicePathToMount | pkg/driver/nodeserver.go:159-172 | an unreadable directory fails; otherwise success iff some listed name contains the volume name, with path by-volumeid/ + the first such name |
| Node.DeviceIsLeastMatchingName | pkg/driver/nodeserver.go:161-170 | the device found has the name that sorts first among all matching entries |
| Node.LinkedVolumeResolves | pkg/driver/nodeserver.go:159-172 | once a link for the volume was made, resolution finds a device |
| Node.EmptyVolumeNameTakesFirstEntry | pkg/driver/nodeserver.go:165-169 | with an empty volume name, resolution takes the first entry of the listing |
| Node.FormatAndMakeFS | pkg/driver/nodeserver.go:108-126 | a missing `mkfs.<fs>` fails and runs nothing; otherwise runs `mkfs.<fs> -F <device>` and fails iff that command fails |
| Node.MountArgs | pkg/driver/nodeserver.go:136-149 | `-t <fs>`, then `-o <options joined by ",">` only when there are options, then source and target |
| Node.MountDevice | pkg/driver/nodeserver.go:128-157 | an empty fsType fails before any effect; a failed mkdir of the target stops; otherwise runs mount with those arguments and fails iff it fails |
| Node.StageCommands | pkg/driver/nodeserver.go:50-56 | `mkfs.ext4 -F <device>`, the staging directory, `mount -t ext4 <device> <staging>` |
| Node.StageEffectsFollowCommands | pkg/driver/nodeserver.go:50-59 | the staging effects are a prefix of StageCommands, all of them when no step fails, and at most the mkfs run when mkfs fails |
| Node.FormatAndMount | pkg/driver/nodeserver.go:50-59 | the effects are StageEffects: the steps up to and including the first failing one; no error iff mkfs.ext4 is installed and runs, the staging directory is created and the mount runs; a success performed exactly StageCommands |
| Node.NodeStageVolume | pkg/driver/nodeserver.go:35-61 | the symlink pass always comes first; a symlink error or an unresolved device stops there; otherwise the effects are the symlink pass then StageEffects, and the reply is a success iff formatting and mounting succeed; a success performed the symlink pass, then mkfs, then the mount; every failure is Unknown |
| Node.NodeUnstageVolume | pkg/driver/nodeserver.go:174-194 | an empty volume id or staging path is InvalidArgument before any unmount; otherwise one unmount of the staging path, then success if it succeeds and Internal if it fails |
| Node.PublishOptions | pkg/driver/nodeserver.go:202-205 | ["bind"], plus "ro" exactly when read-only |
| Node.NodePublishVolume | pkg/driver/nodeserver.go:196-227 | a capability without a mount type is a nil dereference; the fsType is the mount's or ext4; runs `mount -t <fs> -o bind[,ro] <staging> <target>` after creating the target; a failed mkdir is Internal with no mount; otherwise success if the mount succeeds and Internal if it fails |
| Node.NodeUnpublishVolume | pkg/driver/nodeserver.go:229-247 | an empty target path or volume id is InvalidArgument before any unmount; otherwise one unmount of the target path, then success if it succeeds and Internal if it fails |
| Node.NodeGetInfo | pkg/driver/nodeserver.go:249-264 | a failed label lookup is Unknown; otherwise the node id, at most 5 volumes, and the topology segment `hyperstack.cloud/instance-id` = node id |

## Left out

- main.go, pkg/driver/server_grpc.go and pkg/driver/server_http.go: flag parsing, listeners, goroutines and the WaitGroup. These are concurrency and I/O. Only the sequence NewDriver, Setup*, Run is modelled, as `Plugin.StartDriver`.
- logGRPC (pkg/driver/utils.go:78-91): an atomic call counter and logging.
- pkg/metrics: metric registration and request timing. `Run` drops the registration.
- The Kubernetes API client: the node labels `hyperstack.cloud/cluster-id` and `hyperstack.cloud/instance-id` are inputs. A failed cluster-id lookup is only logged, so it is passed as the empty label.
- The metadata provider calls in ControllerPublishVolume and SetupNodeService: their results are unused or not part of this model.
- pkg/hyperstack/client.go and the HTTP exchanges of the SDK: each SDK reply is an input (`ListReply`, `CreationReply`, and the `Cloud` fields for GetClusterDetail, DeleteVolume, AttachVolumeToNode and DetachVolumeFromNode, whose wrappers are not part of this model).
- The `time.Sleep` calls of the polling loops, and klog and protosanitizer output.
- `exec`, `os.MkdirAll`, `os.Readlink`, `os.Symlink` and `mount.IMount.UnmountPath` are not executed. They are recorded as effects, and their failures come from the sets in `Node.Host`. The error texts are abbreviated.
- The source of util.RoundUpSize is not available. The model defines `Controller.RoundUpSize` as ceiling division with Go's truncating `/`.
- The stub RPCs: ListVolumes, CreateSnapshot, DeleteSnapshot, ListSnapshots, GetCapacity (Unimplemented), ControllerGetVolume, ControllerExpandVolume, ControllerModifyVolume, NodeGetVolumeStats, NodeExpandVolume. NodeGetCapabilities is also left out: it returns nscap unchanged. None of them holds decision logic.
- Records are assumed complete. The dereferences of the attach and detach results, of the cluster's environment name and of `Name`/`Size`/`Environment` in log lines are not modelled as possible panics. Only the status of the empty record is.
- strings.ToLower is modelled on ASCII letters only, with no Unicode case mapping.
- The `volume.VolumeFields` record keeps only id, name, size, status and environment name.
- Node.SecondPassRelinksOnlyBoundaryMatches: is weaker than "a second createSymLink pass over an unchanged by-id listing creates no new links", because that does not hold for the code. `Node.SecondPassCanRelink` gives the counterexample: a by-id name that the first marker contained only across a separator is linked on the second pass, once the first pass's link sorts between the two names.
