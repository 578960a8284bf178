/**
 The messages of the Controller Service of the Container Storage Interface
 (CSI) at its early v0.0.x schema, in which every reply is a union of a
 result and an error. Messages are values: a protobuf pointer that may be
 nil is an `Option`, and a reply whose `Reply` field is nil is the `...Empty`
 arm of its datatype. Go's nil-safe getters become the functions at the end
 of this module.
 */
module Csi {

  datatype Option<+T> = None | Some(value: T)

  /** Go's `uint32` and `uint64`. */
  newtype uint32 = x: int | 0 <= x < 0x1_0000_0000
  newtype uint64 = x: int | 0 <= x < 0x1_0000_0000_0000_0000

  /** Go's `^uint64(0)`: the complement of zero sets all 64 bits. */
  const AllOnes64: uint64 := 0xFFFF_FFFF_FFFF_FFFF

  /** `AccessMode.Mode`. */
  datatype AccessMode =
    | UNKNOWN
    | SINGLE_NODE_WRITER
    | SINGLE_NODE_READER_ONLY
    | MULTI_NODE_READER_ONLY
    | MULTI_NODE_SINGLE_WRITER
    | MULTI_NODE_MULTI_WRITER

  /** The `Values` of a `VolumeID`: an opaque string-to-string map. */
  type VolumeId = map<string, string>

  /** The key under which both controllers keep a volume's name in its id. */
  const VolumeNameKey: string := "volume_name"

  /** A volume descriptor (`VolumeInfo`); the fields the controllers leave at
      their zero value are not modelled. */
  datatype VolumeInfo = VolumeInfo(id: VolumeId, accessMode: AccessMode)

  /** The descriptor both controllers build for a freshly created volume. */
  function NewVolumeInfo(name: string): (info: VolumeInfo)
    ensures VolumeNameKey in info.id && info.id[VolumeNameKey] == name
    ensures info.id.Keys == {VolumeNameKey}
    ensures info.accessMode == UNKNOWN
  {
    VolumeInfo(map[VolumeNameKey := name], UNKNOWN)
  }

  /** Distinct names give distinct descriptors. */
  lemma NewVolumeInfoInjective(a: string, b: string)
    requires NewVolumeInfo(a) == NewVolumeInfo(b)
    ensures a == b
  {
    assert NewVolumeInfo(a).id[VolumeNameKey] == a;
  }

  /** The registry of both controllers: volume name to descriptor. */
  type Registry = map<string, VolumeInfo>

  /** The invariant both controllers keep: every key is a non-empty name and
      is stored with the descriptor built for it, so the descriptor's id
      carries its own key. */
  ghost predicate WellFormed(vols: Registry)
  {
    forall k :: k in vols ==> k != "" && vols[k] == NewVolumeInfo(k)
  }

  // ---- Volume capabilities ----

  /** `VolumeCapability_MountVolume`. */
  datatype MountVolume = MountVolume(fsType: string, mountFlags: seq<string>)

  /** A requested capability; `None` stands for every capability without a
      mount block (a block volume, an unset value, a nil pointer). */
  datatype VolumeCapability = VolumeCapability(mount: Option<MountVolume>)

  /** `vc.GetMount().GetFsType()`. */
  function FsType(vc: VolumeCapability): string
  {
    match vc.mount
    case None => ""
    case Some(m) => m.fsType
  }

  /** `vc.GetMount().GetMountFlags()`. */
  function MountFlags(vc: VolumeCapability): seq<string>
  {
    match vc.mount
    case None => []
    case Some(m) => m.mountFlags
  }

  // ---- Requests (the `Version` field is never read and is left out) ----

  datatype CreateVolumeRequest = CreateVolumeRequest(name: string, volumeCapabilities: seq<VolumeCapability>)

  datatype DeleteVolumeRequest = DeleteVolumeRequest(volumeId: Option<VolumeId>)

  datatype ListVolumesRequest = ListVolumesRequest(maxEntries: uint32, startingToken: string)

  datatype ValidateVolumeCapabilitiesRequest =
    ValidateVolumeCapabilitiesRequest(volumeInfo: Option<VolumeInfo>, volumeCapabilities: seq<VolumeCapability>)

  datatype ControllerPublishVolumeRequest =
    ControllerPublishVolumeRequest(volumeId: Option<VolumeId>, nodeId: Option<map<string, string>>, readonly: bool)

  datatype ControllerUnpublishVolumeRequest =
    ControllerUnpublishVolumeRequest(volumeId: Option<VolumeId>, nodeId: Option<map<string, string>>)

  /** Carries only the `Version` field, which is left out. */
  datatype GetCapacityRequest = GetCapacityRequest

  /** Carries only the `Version` field, which is left out. */
  datatype ControllerGetCapabilitiesRequest = ControllerGetCapabilitiesRequest

  /** `request.GetVolumeId().GetValues()["volume_name"]` with its `ok` flag:
      a nil id and a nil map both read as "no such key". */
  function RequestedVolumeName(req: DeleteVolumeRequest): (r: Option<string>)
    ensures r.Some? <==> req.volumeId.Some? && VolumeNameKey in req.volumeId.value
    ensures r.Some? ==> r.value == req.volumeId.value[VolumeNameKey]
  {
    match req.volumeId
    case None => None
    case Some(values) => if VolumeNameKey in values then Some(values[VolumeNameKey]) else None
  }

  // ---- Replies ----

  /** `Error_CreateVolumeError_CreateVolumeErrorCode`, the code used here. */
  datatype CreateVolumeErrorCode = INVALID_VOLUME_NAME

  /** `Error_DeleteVolumeError_DeleteVolumeErrorCode`, the code used here. */
  datatype DeleteVolumeErrorCode = INVALID_VOLUME_ID

  datatype CreateVolumeResponse =
    | CreateEmpty
    | CreateResult(volumeInfo: VolumeInfo)
    | CreateError(createCode: CreateVolumeErrorCode, createDescription: string)

  datatype DeleteVolumeResponse =
    | DeleteEmpty
    | DeleteResult
    | DeleteError(deleteCode: DeleteVolumeErrorCode, deleteDescription: string)

  datatype ListVolumesResponse =
    | ListEmpty
    | ListResult(entries: seq<VolumeInfo>)

  datatype GetCapacityResponse =
    | CapacityEmpty
    | CapacityResult(totalCapacity: uint64)

  /** `ControllerServiceCapability_RPC_Type`. */
  datatype RpcType =
    | RPC_UNKNOWN
    | CREATE_DELETE_VOLUME
    | PUBLISH_UNPUBLISH_VOLUME
    | LIST_VOLUMES
    | GET_CAPACITY

  datatype ControllerGetCapabilitiesResponse =
    | CapabilitiesEmpty
    | CapabilitiesResult(capabilities: seq<RpcType>)

  datatype ControllerPublishVolumeResponse =
    | PublishEmpty
    | PublishResult(publishVolumeInfo: map<string, string>)

  datatype ControllerUnpublishVolumeResponse =
    | UnpublishEmpty
    | UnpublishResult

  datatype ValidateVolumeCapabilitiesResponse =
    | ValidateEmpty
    | ValidateResult(supported: bool, message: string)

  /** `resp.GetResult().GetEntries()`. */
  function Entries(resp: ListVolumesResponse): seq<VolumeInfo>
  {
    match resp
    case ListEmpty => []
    case ListResult(entries) => entries
  }

  /** `resp.GetResult().GetTotalCapacity()`. */
  function TotalCapacity(resp: GetCapacityResponse): uint64
  {
    match resp
    case CapacityEmpty => 0
    case CapacityResult(c) => c
  }

  /** `resp.GetResult().GetCapabilities()`, each entry's RPC type. */
  function RpcTypes(resp: ControllerGetCapabilitiesResponse): seq<RpcType>
  {
    match resp
    case CapabilitiesEmpty => []
    case CapabilitiesResult(caps) => caps
  }

  /** `entries` lists the registry: one entry per volume, each a stored
      descriptor, every stored descriptor present (order is free). */
  predicate Enumerates(entries: seq<VolumeInfo>, vols: Registry)
  {
    && |entries| == |vols|
    && (forall k :: k in vols ==> vols[k] in entries)
    && (forall i :: 0 <= i < |entries| ==> entries[i] in vols.Values)
  }

  /** A mutating call, for reasoning about sequences of requests. */
  datatype Call =
    | Create(createReq: CreateVolumeRequest)
    | Delete(deleteReq: DeleteVolumeRequest)

  /** The result of one registry step: the new registry, the reply and the
      Go error (`None` for nil). */
  datatype Outcome<R> = Outcome(volumes: Registry, reply: R, err: Option<string>)
}
