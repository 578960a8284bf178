# Local CSI controller plugin — a Dafny model

This project models the Controller Service of a local Container Storage
Interface (CSI) plugin, written against the early v0.0.x CSI schema. In that
schema every reply is a union of a result and an error. The plugin keeps its
volumes in an in-memory registry that maps a volume name to its descriptor,
and it has no real storage behind it.

The repository holds two copies of the controller, and they behave
differently. Both are modelled, each as its own class.

- `controller/controller_service.go`, the current controller (module
  `Controller`).
  - CreateVolume is an idempotent create-if-absent keyed by the requested
    name.
  - DeleteVolume is an idempotent remove.
  - Request errors go in the reply's error arm, and the Go error is always
    nil.
  - ListVolumes lists the registry.
  - GetCapacity reports `^uint64(0)`.
  - Four RPC capabilities are advertised.
- `models/controller_service.go`, the older controller (module `Models`).
  - Request errors are Go errors with an empty reply.
  - Re-creating a name is an error.
  - Deleting an unknown name is an error.
  - A successful delete leaves the registry as it was.
  - ListVolumes and GetCapacity return empty replies.
  - One capability is advertised.

The files:

- `csi.dfy` (module `Csi`) holds the messages as values.
  - A protobuf pointer that may be nil is an `Option`.
  - A reply whose `Reply` field is nil is the `...Empty` arm of its datatype.
  - Go's nil-safe getters are the functions `FsType`, `MountFlags`,
    `RequestedVolumeName`, `Entries`, `TotalCapacity` and `RpcTypes`.
  - A capability without a mount block counts as an empty filesystem type
    with no flags.
  - `WellFormed` is the invariant both registries keep: every key is a
    non-empty name, stored with the descriptor built for that name.
- `capabilities.dfy` (module `Capabilities`) holds the ValidateVolumeCapabilities
  rule that both controllers share. The reply is decided by the first
  capability that asks for a filesystem type or a non-empty mount flag.
  Within one capability, the filesystem type is checked first.
- `controller.dfy` and `models.dfy` each hold four things:
  - the pure step functions `CreateVolumeOutcome` and `DeleteVolumeOutcome`,
    which give the new registry, the reply and the Go error;
  - a `Controller` class whose only field is `volumes`, with one member per
    RPC; the methods are proved to perform exactly those steps, and the
    functions return constant replies;
  - lemmas about single calls and about sequences of calls (`Run`);
  - ValidateVolumeCapabilities written as the Go code's nested loop with early
    exits, proved equal to `Capabilities.Validate`.
- `contrast.dfy` (module `Contrast`) holds lemmas comparing the two
  controllers on the same registry and request.

Go error results are an `err: Option<string>` out-parameter on the methods
(`None` is nil). The constant RPCs are static functions that return only the
reply, because their Go error is always nil.

ValidateVolumeCapabilities decides by the first violating capability. So a
non-empty mount flag in an earlier capability wins over a filesystem type in
a later one. An FsType anywhere in the list therefore does not always give
the FsType message (`Capabilities.EarlierFlagBeatsLaterFsType`).

## Model

| member | source | states |
|---|---|---|
| `Csi.NewVolumeInfo` | controller/controller_service.go:62 | a new descriptor's id is exactly `{"volume_name": name}` and its access mode is UNKNOWN |
| `Csi.NewVolumeInfoInjective` | controller/controller_service.go:62 | two names give equal descriptors only if the names are equal |
| `Csi.RequestedVolumeName` | controller/controller_service.go:84 | the name is present exactly when the request has an id holding the `volume_name` key, and it is that key's value; a nil id reads as absent |
| `Capabilities.Violation` | controller/controller_service.go:117-135 | a capability passes exactly when its FsType is empty and every flag is the empty string; a non-empty FsType gives the FsType message, even when there are also flags; an empty FsType with a non-empty flag gives the mount-flag message |
| `Capabilities.Validate` | controller/controller_service.go:116-142 | the reply is always a result, never an error or empty; it is supported exactly when no capability is violated; an unsupported reply carries one of the two messages |
| `Capabilities.FirstViolationDecides` | controller/controller_service.go:117-136 | the first violated capability decides the reply, whatever comes after it |
| `Capabilities.FsTypeRejected` | controller/controller_service.go:118-125 | a capability with an FsType and no violation before it gives "Specifying FsType is unsupported." |
| `Capabilities.FlagRejected` | controller/controller_service.go:126-133 | a capability with no FsType but a non-empty mount flag, and no violation before it, gives "Specifying mount flags is unsupported." |
| `Capabilities.EarlierFlagBeatsLaterFsType` | controller/controller_service.go:126-134 | a non-empty flag in an earlier capability gives the mount-flag message even when a later capability names an FsType |
| `Capabilities.EmptyFlagsSupported` | controller/controller_service.go:126-127 | empty FsTypes and flags that are all empty strings are supported |
| `Capabilities.TestSuiteCases` | controller/controller_service_test.go:233-305 | the test suite's three requests get the replies it expects |
| `Controller.CreateVolumeErrorResponse` | controller/controller_service.go:223-232 | the reply is the error arm carrying exactly the given CreateVolume error code and description |
| `Controller.DeleteVolumeErrorResponse` | controller/controller_service.go:234-243 | the reply is the error arm carrying exactly the given DeleteVolume error code and description |
| `Controller.CreateVolumeOutcome` | controller/controller_service.go:51-73 | an empty name gives the INVALID_VOLUME_NAME error reply and no change; otherwise the name is stored and the reply is its stored descriptor; a stored name leaves the registry unchanged; a fresh name adds exactly one entry with the new descriptor; no other key changes; the Go error is nil; well-formedness is kept |
| `Controller.DeleteVolumeOutcome` | controller/controller_service.go:84-99 | a missing key or a blank name gives INVALID_VOLUME_ID with its own message and no change; otherwise the result is success and the name is absent afterwards; every other key keeps its descriptor; an unknown name leaves the registry equal; the Go error is nil |
| `Controller.CreateIdempotent` | controller/controller_service.go:61-65 | a second create of the same request returns the same reply and leaves the same registry |
| `Controller.DeleteIdempotent` | controller/controller_service.go:95 | a second delete of the same request returns the same reply and leaves the same registry |
| `Controller.DeleteUndoesCreate` | controller/controller_service.go:95 | deleting, by its returned id, a volume just created under a fresh name restores the original registry |
| `Controller.ListedIffStored` | controller/controller_service.go:147-152 | in a well-formed registry, a listing contains a name's descriptor exactly when the name is stored |
| `Controller.CreateListDeleteScenario` | controller/controller_service_test.go:142-165 | create, create again, list, delete by the returned id, list: the same descriptor twice, listed, then success and no longer listed |
| `Controller.PresenceFollowsLastTouch` | controller/controller_service.go:61-95 | after any sequence of creates and deletes, a name is stored exactly when the last request naming it was a create, or, if none named it, when it was stored at the start |
| `Controller.RunKeepsWellFormed` | controller/controller_service.go:61-63 | every sequence of requests keeps the registry well formed |
| `Controller.AdvertisesEveryRpc` | controller/controller_service.go:176-205 | every RPC capability type except UNKNOWN is advertised |
| `Controller.ListingEnumerates` | controller/controller_service.go:147-152 | one entry per stored name, each that name's descriptor, is a listing of the registry |
| `Controller.ListingIsDuplicateFree` | controller/controller_service.go:147-152 | in a well-formed registry, the listing holds no descriptor twice |
| `Controller.Controller.constructor` | controller/controller_service.go:32-44 | a new controller has an empty, well-formed registry |
| `Controller.Controller.CreateVolume` | controller/controller_service.go:46-74 | performs `CreateVolumeOutcome` on the registry and keeps it well formed |
| `Controller.Controller.DeleteVolume` | controller/controller_service.go:76-101 | performs `DeleteVolumeOutcome` on the registry and keeps it well formed |
| `Controller.Controller.ControllerPublishVolume` | controller/controller_service.go:102-108 | always succeeds, with an empty but present PublishVolumeInfo |
| `Controller.Controller.ControllerUnpublishVolume` | controller/controller_service.go:110-114 | always succeeds |
| `Controller.Controller.ValidateVolumeCapabilities` | controller/controller_service.go:116-142 | the nested scan with early exits returns exactly `Capabilities.Validate` of the capabilities, and a nil Go error |
| `Controller.Controller.ListVolumes` | controller/controller_service.go:144-161 | a result listing the registry: as many entries as volumes, every stored descriptor present, each entry a stored descriptor, taken from distinct names; paging fields are ignored and the registry is only read |
| `Controller.Controller.GetCapacity` | controller/controller_service.go:163-171 | a result whose capacity is 2^64 − 1, the largest uint64 |
| `Controller.Controller.ControllerGetCapabilities` | controller/controller_service.go:173-207 | four distinct capabilities without UNKNOWN, in the order CREATE_DELETE_VOLUME, PUBLISH_UNPUBLISH_VOLUME, LIST_VOLUMES, GET_CAPACITY |
| `Models.VolumeNotFound` | models/controller_service.go:93 | the message is `Volume '`, then the name itself, then `' not found` |
| `Models.VolumeNotFoundInjective` | models/controller_service.go:93 | different names give different "not found" messages |
| `Models.CreateVolumeOutcome` | models/controller_service.go:52-71 | succeeds exactly for a non-empty name that is not stored; that case adds exactly that one entry and returns it; every failure is a Go error with an empty reply and no change; an empty name and a stored name each get their own message |
| `Models.DeleteVolumeOutcome` | models/controller_service.go:79-97 | never changes the registry; succeeds exactly when the name is present, non-empty and stored; otherwise an empty reply with a Go error for a missing, a blank or an unknown name |
| `Models.CreateTwiceFails` | models/controller_service.go:58-71 | a second create of the same request always fails and leaves the registry as the first call left it |
| `Models.PresenceIsCreation` | models/controller_service.go:58-97 | after any sequence of requests, a name is stored exactly when it was stored at the start or some request created it; stored descriptors are never replaced |
| `Models.RunKeepsWellFormed` | models/controller_service.go:58-61 | every sequence of requests keeps the registry well formed |
| `Models.Controller.constructor` | models/controller_service.go:33-45 | a new controller has an empty, well-formed registry |
| `Models.Controller.CreateVolume` | models/controller_service.go:47-72 | performs `Models.CreateVolumeOutcome` on the registry and keeps it well formed |
| `Models.Controller.DeleteVolume` | models/controller_service.go:74-99 | returns the reply and Go error of `Models.DeleteVolumeOutcome`, without a frame to modify anything |
| `Models.Controller.ControllerPublishVolume` | models/controller_service.go:100-102 | an empty reply |
| `Models.Controller.ControllerUnpublishVolume` | models/controller_service.go:104-106 | an empty reply |
| `Models.Controller.ValidateVolumeCapabilities` | models/controller_service.go:108-134 | the same scan returns exactly `Capabilities.Validate` of the capabilities, and a nil Go error |
| `Models.Controller.ListVolumes` | models/controller_service.go:136-138 | an empty reply with no entries, whatever the registry holds |
| `Models.Controller.GetCapacity` | models/controller_service.go:140-142 | an empty reply whose capacity reads as zero |
| `Models.Controller.ControllerGetCapabilities` | models/controller_service.go:144-151 | only CREATE_DELETE_VOLUME is advertised, and not list, capacity or publish |
| `Contrast.CreateAgreesOnFreshName` | models/controller_service.go:58-69 | on a fresh non-empty name both controllers give the same registry, reply and nil error |
| `Contrast.CreateDiffersOnStoredName` | models/controller_service.go:71 | on a stored name the current controller returns the stored descriptor; the older one returns an empty reply and the "should not have gotten here!!!" error |
| `Contrast.CreateRefusesEmptyNameDifferently` | models/controller_service.go:54-56 | an empty name changes neither registry; the current controller's error is in the reply and the older one's is a Go error |
| `Contrast.DeleteOfStoredName` | models/controller_service.go:91-97 | deleting a stored name succeeds in both; only the current controller removes it |
| `Contrast.DeleteOfUnknownName` | models/controller_service.go:91-94 | an unknown name is a success in the current controller and a "not found" Go error in the older one; neither changes the registry |
| `Contrast.CreateThenDelete` | models/controller_service.go:74-99 | create and then delete of a fresh name restores the registry in the current controller; the older one keeps the name, and a re-create then fails |
| `Contrast.CapabilitiesArePrefix` | models/controller_service.go:144-151 | the older controller's capabilities are the first entry of the current controller's |
| `Contrast.CapacityDiffers` | models/controller_service.go:140-142 | the current controller reports 2^64 − 1; the older one's capacity reads as zero |
| `Contrast.ListingsDiffer` | models/controller_service.go:136-138 | on a non-empty registry, the current controller's listing differs from the older one's empty one |
| `Contrast.PublishRepliesDiffer` | models/controller_service.go:100-106 | publish and unpublish fill in the result arm only in the current controller |

## Left out

- `cmd/localcontrollerplugin/main.go` is not part of this model. It holds flag parsing, gRPC server construction, service registration and signal monitoring, which are process plumbing.
- `volumePath` in both packages is left out. It resolves an absolute path, sets the umask and creates directories, which is filesystem I/O, and no RPC calls it. For the same reason, the `os` and `filepath` shims and `mountPathRoot` are not fields of the model's classes.
- Logging through `lager` is left out, because it is output only.
- `context.Context` parameters are left out, because no handler reads them.
- Concurrency is left out. The Go map is accessed without a lock. Each RPC is modelled as one atomic, sequential method, and interleavings are not modelled.
- Pointer identity is left out. The current CreateVolume returns a pointer to the stored descriptor and ListVolumes returns pointers to the stored descriptors; here replies hold descriptor values, compared by value.
- Protobuf wire encoding is left out.
- Message fields that no handler reads are left out: every request's `Version`, the descriptor fields the controllers leave at their zero value, and error codes other than INVALID_VOLUME_NAME and INVALID_VOLUME_ID.
- Controller.Controller.ListVolumes: Go's map iteration order is unspecified. The method picks keys in an arbitrary order and records that order in the ghost out-parameter `keys`. It promises no particular order.
- Models.Controller.DeleteVolume: "the registry is not changed" follows from the method having no `modifies` clause, not from an `ensures` clause.
