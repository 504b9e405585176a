/**
 * The pieces of the Container Storage Interface that the driver's handlers
 * exchange: gRPC status codes, the outcome of a handler, capability
 * enumerations and the capability/topology messages.
 */
module Csi {
  import opened Wrappers

  /** The gRPC status codes the handlers return. `Unknown` is what gRPC makes
      of a plain (non-status) Go error. */
  datatype Code =
    | InvalidArgument
    | NotFound
    | AlreadyExists
    | FailedPrecondition
    | Internal
    | Unavailable
    | Unimplemented
    | Unknown

  /** What a handler does: returns a response, returns a status error, or
      panics (a nil-pointer dereference or an index out of range in Go, which
      ends the handler without an answer). */
  datatype Reply<+T> = Ok(value: T) | Err(code: Code) | Panic

  /** csi.ControllerServiceCapability_RPC_Type */
  datatype ControllerRpcType =
    | UnknownRpc
    | CreateDeleteVolume
    | PublishUnpublishVolume
    | ListVolumes
    | GetCapacity
    | CreateDeleteSnapshot
    | ListSnapshots
    | CloneVolume
    | PublishReadonly
    | ExpandVolume
    | ListVolumesPublishedNodes
    | VolumeCondition
    | GetVolume
    | SingleNodeMultiWriter
    | ModifyVolume

  /** csi.NodeServiceCapability_RPC_Type */
  datatype NodeRpcType =
    | UnknownNodeRpc
    | StageUnstageVolume
    | GetVolumeStats
    | NodeExpandVolume
    | NodeVolumeCondition
    | NodeSingleNodeMultiWriter
    | VolumeMountGroup

  /** csi.VolumeCapability_AccessMode_Mode */
  datatype Mode =
    | UnknownMode
    | SingleNodeWriter
    | SingleNodeReaderOnly
    | MultiNodeReaderOnly
    | MultiNodeSingleWriter
    | MultiNodeMultiWriter
    | SingleNodeSingleWriter
    | SingleNodeMultiWriterMode

  /** csi.ControllerServiceCapability holding an RPC capability. */
  datatype ControllerServiceCapability = ControllerServiceCapability(rpc: ControllerRpcType)

  /** csi.NodeServiceCapability holding an RPC capability. */
  datatype NodeServiceCapability = NodeServiceCapability(rpc: NodeRpcType)

  /** csi.VolumeCapability_AccessMode */
  datatype AccessMode = AccessMode(mode: Mode)

  /** The access-type oneof of csi.VolumeCapability (`NoAccessType` when unset). */
  datatype AccessType =
    | MountVolume(fsType: string, mountFlags: seq<string>)
    | BlockVolume
    | NoAccessType

  datatype VolumeCapability = VolumeCapability(accessType: AccessType, accessMode: Option<AccessMode>) {
    /** `GetAccessMode().GetMode()`: the protobuf getters yield UNKNOWN for an unset mode. */
    function Mode(): Mode {
      match accessMode
      case Some(m) => m.mode
      case None => UnknownMode
    }
  }

  datatype Topology = Topology(segments: map<string, string>)

  datatype TopologyRequirement = TopologyRequirement(requisite: seq<Topology>, preferred: seq<Topology>)
}
