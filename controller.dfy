/**
 The current controller (package `controller`): a CSI Controller Service
 answering from an in-memory registry of volumes. Creation is an idempotent
 create-if-absent keyed by the requested name, deletion an idempotent
 remove, and request errors are reported in the reply's error arm, never as
 a Go error.

 The two mutating RPCs are specified by the step functions
 `CreateVolumeOutcome` and `DeleteVolumeOutcome` (new registry, reply and
 Go error as a function of the old registry and the request); the class
 methods are proved to perform exactly those steps.
 */
module Controller {
  import opened Csi
  import Capabilities

  const VolumeNameNotSupplied: string := "Volume name not supplied"
  const RequestMissingVolumeName: string := "Request missing 'volume_name'"
  const RequestHasBlankVolumeName: string := "Request has blank volume name"

  /** `createCreateVolumeErrorResponse`: a reply whose error arm carries
      exactly the given code and description. */
  function CreateVolumeErrorResponse(code: CreateVolumeErrorCode, description: string): (r: CreateVolumeResponse)
    ensures r.CreateError? && r.createCode == code && r.createDescription == description
  {
    CreateError(code, description)
  }

  /** `createDeleteVolumeErrorResponse`: a reply whose error arm carries
      exactly the given code and description. */
  function DeleteVolumeErrorResponse(code: DeleteVolumeErrorCode, description: string): (r: DeleteVolumeResponse)
    ensures r.DeleteError? && r.deleteCode == code && r.deleteDescription == description
  {
    DeleteError(code, description)
  }

  /** CreateVolume on registry `vols`. */
  function CreateVolumeOutcome(vols: Registry, req: CreateVolumeRequest): (o: Outcome<CreateVolumeResponse>)
    ensures o.err == None
    ensures req.name == "" ==> o.volumes == vols && o.reply == CreateError(INVALID_VOLUME_NAME, VolumeNameNotSupplied)
    ensures req.name != "" ==> req.name in o.volumes && o.reply == CreateResult(o.volumes[req.name])
    ensures req.name in vols ==> o.volumes == vols
    ensures req.name != "" && req.name !in vols ==>
              o.volumes[req.name] == NewVolumeInfo(req.name) && |o.volumes| == |vols| + 1
    ensures forall k :: k != req.name ==> (k in o.volumes <==> k in vols)
    ensures forall k :: k != req.name && k in vols ==> o.volumes[k] == vols[k]
    ensures WellFormed(vols) ==> WellFormed(o.volumes)
  {
    if req.name == "" then
      Outcome(vols, CreateVolumeErrorResponse(INVALID_VOLUME_NAME, VolumeNameNotSupplied), None)
    else
      var vols' := if req.name in vols then vols else vols[req.name := NewVolumeInfo(req.name)];
      Outcome(vols', CreateResult(vols'[req.name]), None)
  }

  /** DeleteVolume on registry `vols`. */
  function DeleteVolumeOutcome(vols: Registry, req: DeleteVolumeRequest): (o: Outcome<DeleteVolumeResponse>)
    ensures o.err == None
    ensures RequestedVolumeName(req) == None ==>
              o.volumes == vols && o.reply == DeleteError(INVALID_VOLUME_ID, RequestMissingVolumeName)
    ensures RequestedVolumeName(req) == Some("") ==>
              o.volumes == vols && o.reply == DeleteError(INVALID_VOLUME_ID, RequestHasBlankVolumeName)
    ensures o.reply.DeleteResult? <==> RequestedVolumeName(req).Some? && RequestedVolumeName(req).value != ""
    ensures o.reply.DeleteResult? || o.reply.DeleteError?
    ensures o.reply.DeleteResult? ==> RequestedVolumeName(req).value !in o.volumes
    ensures forall k :: Some(k) != RequestedVolumeName(req) ==> (k in o.volumes <==> k in vols)
    ensures forall k :: k in o.volumes ==> k in vols && o.volumes[k] == vols[k]
    ensures o.reply.DeleteResult? && RequestedVolumeName(req).value in vols ==> |o.volumes| == |vols| - 1
    ensures RequestedVolumeName(req).Some? && RequestedVolumeName(req).value !in vols ==> o.volumes == vols
    ensures WellFormed(vols) ==> WellFormed(o.volumes)
  {
    match RequestedVolumeName(req)
    case None =>
      Outcome(vols, DeleteVolumeErrorResponse(INVALID_VOLUME_ID, RequestMissingVolumeName), None)
    case Some(name) =>
      if name == "" then
        Outcome(vols, DeleteVolumeErrorResponse(INVALID_VOLUME_ID, RequestHasBlankVolumeName), None)
      else
        Outcome(vols - {name}, DeleteResult, None)
  }

  /** Creating the same name twice: the second call returns the same reply
      and leaves the registry as the first call left it. */
  lemma CreateIdempotent(vols: Registry, req: CreateVolumeRequest)
    ensures var first := CreateVolumeOutcome(vols, req);
            var second := CreateVolumeOutcome(first.volumes, req);
            second.reply == first.reply && second.volumes == first.volumes
  {
  }

  /** Deleting twice: the second call returns the same reply and leaves the
      registry as the first call left it. */
  lemma DeleteIdempotent(vols: Registry, req: DeleteVolumeRequest)
    ensures var first := DeleteVolumeOutcome(vols, req);
            var second := DeleteVolumeOutcome(first.volumes, req);
            second.reply == first.reply && second.volumes == first.volumes
  {
  }

  /** Deleting a volume just created with a fresh name restores the registry. */
  lemma {:induction false} DeleteUndoesCreate(vols: Registry, name: string, caps: seq<VolumeCapability>)
    requires name != "" && name !in vols
    ensures var created := CreateVolumeOutcome(vols, CreateVolumeRequest(name, caps));
            DeleteVolumeOutcome(created.volumes, DeleteVolumeRequest(Some(created.reply.volumeInfo.id))).volumes == vols
  {
    var created := CreateVolumeOutcome(vols, CreateVolumeRequest(name, caps));
    assert created.volumes == vols[name := NewVolumeInfo(name)];
    assert RequestedVolumeName(DeleteVolumeRequest(Some(created.reply.volumeInfo.id))) == Some(name);
    assert created.volumes - {name} == vols;
  }

  /** In a well-formed registry a descriptor is listed exactly when its name
      is stored. */
  lemma {:induction false} ListedIffStored(vols: Registry, entries: seq<VolumeInfo>, name: string)
    requires WellFormed(vols) && Enumerates(entries, vols)
    ensures NewVolumeInfo(name) in entries <==> name in vols
  {
    if NewVolumeInfo(name) in entries {
      var i :| 0 <= i < |entries| && entries[i] == NewVolumeInfo(name);
      var k :| k in vols && vols[k] == entries[i];
      NewVolumeInfoInjective(k, name);
    }
  }

  /** The life cycle the package's tests walk through: create a fresh name,
      create it again, list, delete by the returned id, list again. */
  lemma {:induction false} CreateListDeleteScenario(vols: Registry, name: string, caps: seq<VolumeCapability>, e1: seq<VolumeInfo>, e2: seq<VolumeInfo>)
    requires WellFormed(vols) && name != "" && name !in vols
    ensures var first := CreateVolumeOutcome(vols, CreateVolumeRequest(name, caps));
            var second := CreateVolumeOutcome(first.volumes, CreateVolumeRequest(name, caps));
            var del := DeleteVolumeOutcome(second.volumes, DeleteVolumeRequest(Some(first.reply.volumeInfo.id)));
            && first.reply == CreateResult(NewVolumeInfo(name)) && first.err == None
            && second.reply == first.reply && |second.volumes| == |first.volumes|
            && (Enumerates(e1, second.volumes) ==> NewVolumeInfo(name) in e1)
            && del.reply == DeleteResult && del.err == None
            && (Enumerates(e2, del.volumes) ==> NewVolumeInfo(name) !in e2)
  {
    var first := CreateVolumeOutcome(vols, CreateVolumeRequest(name, caps));
    CreateIdempotent(vols, CreateVolumeRequest(name, caps));
    DeleteUndoesCreate(vols, name, caps);
    if Enumerates(e1, first.volumes) {
      ListedIffStored(first.volumes, e1, name);
    }
    if Enumerates(e2, vols) {
      ListedIffStored(vols, e2, name);
    }
  }

  // ---- Sequences of requests ----

  /** The registry after one mutating call. */
  function Apply(vols: Registry, call: Call): Registry
  {
    match call
    case Create(req) => CreateVolumeOutcome(vols, req).volumes
    case Delete(req) => DeleteVolumeOutcome(vols, req).volumes
  }

  /** The registry after a sequence of mutating calls, in order. */
  function Run(vols: Registry, calls: seq<Call>): Registry
    decreases |calls|
  {
    if calls == [] then vols else Apply(Run(vols, calls[..|calls| - 1]), calls[|calls| - 1])
  }

  /** How one call affects `name`: `Some(true)` when it creates the name,
      `Some(false)` when it deletes it, `None` when it leaves it alone. */
  function Touch(call: Call, name: string): Option<bool>
  {
    if name == "" then None
    else
      match call
      case Create(req) => if req.name == name then Some(true) else None
      case Delete(req) => if RequestedVolumeName(req) == Some(name) then Some(false) else None
  }

  /** The effect on `name` of the last call that touches it. */
  function LastTouch(calls: seq<Call>, name: string): Option<bool>
    decreases |calls|
  {
    if calls == [] then None
    else if Touch(calls[|calls| - 1], name).Some? then Touch(calls[|calls| - 1], name)
    else LastTouch(calls[..|calls| - 1], name)
  }

  /** A volume is registered exactly when the last request about its name
      created it, or, if none did, when it was registered to begin with. */
  lemma {:induction false} PresenceFollowsLastTouch(vols: Registry, calls: seq<Call>, name: string)
    ensures name in Run(vols, calls) <==>
              match LastTouch(calls, name)
              case None => name in vols
              case Some(created) => created
  {
    if calls != [] {
      PresenceFollowsLastTouch(vols, calls[..|calls| - 1], name);
    }
  }

  /** Every sequence of requests keeps the registry well formed. */
  lemma {:induction false} RunKeepsWellFormed(vols: Registry, calls: seq<Call>)
    requires WellFormed(vols)
    ensures WellFormed(Run(vols, calls))
  {
    if calls != [] {
      RunKeepsWellFormed(vols, calls[..|calls| - 1]);
    }
  }

  /** The controller object: its only state is the volume registry. */
  class Controller {
    var volumes: Registry

    ghost predicate Valid()
      reads this
    {
      WellFormed(volumes)
    }

    /** `NewController`: an empty registry. */
    constructor ()
      ensures Valid() && volumes == map[]
    {
      volumes := map[];
    }

    method CreateVolume(req: CreateVolumeRequest) returns (resp: CreateVolumeResponse, err: Option<string>)
      requires Valid()
      modifies this
      ensures Valid()
      ensures Outcome(volumes, resp, err) == CreateVolumeOutcome(old(volumes), req)
    {
      var volName := req.name;
      if volName == "" {
        return CreateVolumeErrorResponse(INVALID_VOLUME_NAME, VolumeNameNotSupplied), None;
      }
      if volName !in volumes {
        volumes := volumes[req.name := NewVolumeInfo(volName)];
      }
      var localVol := volumes[volName];
      resp, err := CreateResult(localVol), None;
    }

    method DeleteVolume(req: DeleteVolumeRequest) returns (resp: DeleteVolumeResponse, err: Option<string>)
      requires Valid()
      modifies this
      ensures Valid()
      ensures Outcome(volumes, resp, err) == DeleteVolumeOutcome(old(volumes), req)
    {
      var found := RequestedVolumeName(req);
      if found.None? {
        return DeleteVolumeErrorResponse(INVALID_VOLUME_ID, RequestMissingVolumeName), None;
      }
      var volName := found.value;
      if volName == "" {
        return DeleteVolumeErrorResponse(INVALID_VOLUME_ID, RequestHasBlankVolumeName), None;
      }
      volumes := volumes - {volName};
      resp, err := DeleteResult, None;
    }

    /** Always succeeds with an empty, non-nil `PublishVolumeInfo`. */
    static function ControllerPublishVolume(req: ControllerPublishVolumeRequest): (r: ControllerPublishVolumeResponse)
      ensures r.PublishResult? && r.publishVolumeInfo == map[]
    {
      PublishResult(map[])
    }

    /** Always succeeds, however often it is repeated. */
    static function ControllerUnpublishVolume(req: ControllerUnpublishVolumeRequest): (r: ControllerUnpublishVolumeResponse)
      ensures r.UnpublishResult?
    {
      UnpublishResult
    }

    /** Scans the capabilities in order and stops at the first violation. */
    method ValidateVolumeCapabilities(req: ValidateVolumeCapabilitiesRequest)
      returns (resp: ValidateVolumeCapabilitiesResponse, err: Option<string>)
      ensures resp == Capabilities.Validate(req.volumeCapabilities)
      ensures err == None
    {
      var caps := req.volumeCapabilities;
      for i := 0 to |caps|
        invariant Capabilities.Validate(caps[i..]) == Capabilities.Validate(caps)
      {
        var vc := caps[i];
        assert caps[i..][0] == vc && caps[i..][1..] == caps[i + 1..];
        if FsType(vc) != "" {
          return ValidateResult(false, Capabilities.FsTypeUnsupported), None;
        }
        var flags := MountFlags(vc);
        for j := 0 to |flags|
          invariant forall f :: 0 <= f < j ==> flags[f] == ""
        {
          if flags[j] != "" {
            return ValidateResult(false, Capabilities.MountFlagsUnsupported), None;
          }
        }
      }
      resp, err := ValidateResult(true, ""), None;
    }

    /** One entry per registered volume, in the map's (unspecified) iteration
        order, which `keys` records; the request's paging fields are ignored. */
    method ListVolumes(req: ListVolumesRequest) returns (resp: ListVolumesResponse, err: Option<string>, ghost keys: seq<string>)
      ensures err == None && resp.ListResult?
      ensures Enumerates(resp.entries, volumes)
      ensures |keys| == |resp.entries|
      ensures forall i :: 0 <= i < |keys| ==> keys[i] in volumes && resp.entries[i] == volumes[keys[i]]
      ensures forall i, j :: 0 <= i < j < |keys| ==> keys[i] != keys[j]
    {
      var volList: seq<VolumeInfo> := [];
      var remaining := volumes.Keys;
      keys := [];
      while remaining != {}
        invariant remaining <= volumes.Keys
        invariant |volList| == |keys| && |keys| + |remaining| == |volumes.Keys|
        invariant forall i :: 0 <= i < |keys| ==> keys[i] in volumes && keys[i] !in remaining && volList[i] == volumes[keys[i]]
        invariant forall k :: k in volumes && k !in remaining ==> k in keys
        invariant forall i, j :: 0 <= i < j < |keys| ==> keys[i] != keys[j]
        decreases remaining
      {
        var k :| k in remaining;
        volList := volList + [volumes[k]];
        keys := keys + [k];
        remaining := remaining - {k};
      }
      ListingEnumerates(volumes, volList, keys);
      resp, err := ListResult(volList), None;
    }

    /** Reports `^uint64(0)`, the largest value a `uint64` holds. */
    static function GetCapacity(req: GetCapacityRequest): (r: GetCapacityResponse)
      ensures r.CapacityResult?
      ensures r.totalCapacity as int == 0x1_0000_0000_0000_0000 - 1
    {
      CapacityResult(AllOnes64)
    }

    /** Advertises every RPC capability the schema names, each once, in the
        order create/delete, publish/unpublish, list, capacity. */
    static function ControllerGetCapabilities(req: ControllerGetCapabilitiesRequest): (r: ControllerGetCapabilitiesResponse)
      ensures r.CapabilitiesResult? && |r.capabilities| == 4
      ensures RPC_UNKNOWN !in r.capabilities
      ensures forall i, j :: 0 <= i < j < |r.capabilities| ==> r.capabilities[i] != r.capabilities[j]
      ensures r.capabilities[0] == CREATE_DELETE_VOLUME && r.capabilities[1] == PUBLISH_UNPUBLISH_VOLUME
      ensures r.capabilities[2] == LIST_VOLUMES && r.capabilities[3] == GET_CAPACITY
    {
      CapabilitiesResult([CREATE_DELETE_VOLUME, PUBLISH_UNPUBLISH_VOLUME, LIST_VOLUMES, GET_CAPACITY])
    }
  }

  /** Every RPC capability the schema defines is advertised. */
  lemma AdvertisesEveryRpc(req: ControllerGetCapabilitiesRequest, t: RpcType)
    requires t != RPC_UNKNOWN
    ensures t in Controller.ControllerGetCapabilities(req).capabilities
  {
  }

  /** A listing built key by key from every stored name enumerates the
      registry. */
  lemma ListingEnumerates(vols: Registry, entries: seq<VolumeInfo>, keys: seq<string>)
    requires |keys| == |entries| == |vols.Keys|
    requires forall i :: 0 <= i < |keys| ==> keys[i] in vols && entries[i] == vols[keys[i]]
    requires forall k :: k in vols ==> k in keys
    ensures Enumerates(entries, vols)
  {
    forall k | k in vols
      ensures vols[k] in entries
    {
      var i :| 0 <= i < |keys| && keys[i] == k;
      assert entries[i] == vols[k];
    }
  }

  /** A listing of a well-formed registry, one entry per distinct stored
      name, holds distinct descriptors; by `RunKeepsWellFormed` this covers
      every registry reached from a fresh controller. */
  lemma {:induction false} ListingIsDuplicateFree(vols: Registry, entries: seq<VolumeInfo>, keys: seq<string>)
    requires WellFormed(vols)
    requires |keys| == |entries|
    requires forall i :: 0 <= i < |keys| ==> keys[i] in vols && entries[i] == vols[keys[i]]
    requires forall i, j :: 0 <= i < j < |keys| ==> keys[i] != keys[j]
    ensures forall i, j :: 0 <= i < j < |entries| ==> entries[i] != entries[j]
  {
    forall i, j | 0 <= i < j < |entries|
      ensures entries[i] != entries[j]
    {
      if entries[i] == entries[j] {
        NewVolumeInfoInjective(keys[i], keys[j]);
      }
    }
  }
}
