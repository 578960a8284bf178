/**
 The older controller (package `models`), built against an earlier copy of
 the same CSI schema. It keeps the same registry but reports request errors
 as Go errors with an empty reply, refuses to create a name twice, refuses
 to delete an unknown name, never removes anything from the registry, and
 answers ListVolumes and GetCapacity with empty replies.
 */
module Models {
  import opened Csi
  import Capabilities

  const MissingMandatoryVolumeName: string := "Missing mandatory 'volume_name'"
  const ShouldNotHaveGottenHere: string := "should not have gotten here!!!"
  const RequestMissingVolumeName: string := "Request missing 'volume_name'"
  const RequestNeedsNonEmptyVolumeName: string := "Request needs non-empty 'volume_name'"

  /** `fmt.Sprintf("Volume '%s' not found", name)`: the name, quoted,
      between a fixed prefix and suffix. */
  function VolumeNotFound(name: string): (r: string)
    ensures |r| == |name| + 19
    ensures r[..8] == "Volume '" && r[|r| - 11..] == "' not found"
    ensures r[8..|r| - 11] == name
  {
    "Volume '" + name + "' not found"
  }

  /** CreateVolume on registry `vols`: only a fresh, non-empty name succeeds. */
  function CreateVolumeOutcome(vols: Registry, req: CreateVolumeRequest): (o: Outcome<CreateVolumeResponse>)
    ensures o.err == None <==> req.name != "" && req.name !in vols
    ensures o.err == None ==>
              && o.volumes == vols[req.name := NewVolumeInfo(req.name)]
              && o.reply == CreateResult(NewVolumeInfo(req.name))
              && |o.volumes| == |vols| + 1
    ensures o.err != None ==> o.volumes == vols && o.reply == CreateEmpty
    ensures req.name == "" ==> o.err == Some(MissingMandatoryVolumeName)
    ensures req.name != "" && req.name in vols ==> o.err == Some(ShouldNotHaveGottenHere)
    ensures WellFormed(vols) ==> WellFormed(o.volumes)
  {
    if req.name == "" then
      Outcome(vols, CreateEmpty, Some(MissingMandatoryVolumeName))
    else if req.name !in vols then
      var localVol := NewVolumeInfo(req.name);
      Outcome(vols[req.name := localVol], CreateResult(localVol), None)
    else
      Outcome(vols, CreateEmpty, Some(ShouldNotHaveGottenHere))
  }

  /** DeleteVolume on registry `vols`: it only looks the name up, so the
      registry is left as it was whatever the outcome. */
  function DeleteVolumeOutcome(vols: Registry, req: DeleteVolumeRequest): (o: Outcome<DeleteVolumeResponse>)
    ensures o.volumes == vols
    ensures o.err == None <==> o.reply.DeleteResult?
    ensures o.err != None ==> o.reply == DeleteEmpty
    ensures o.err == None <==>
              RequestedVolumeName(req).Some? && RequestedVolumeName(req).value != "" && RequestedVolumeName(req).value in vols
    ensures RequestedVolumeName(req) == None ==> o.err == Some(RequestMissingVolumeName)
    ensures RequestedVolumeName(req) == Some("") ==> o.err == Some(RequestNeedsNonEmptyVolumeName)
    ensures RequestedVolumeName(req).Some? && RequestedVolumeName(req).value != "" && RequestedVolumeName(req).value !in vols ==>
              o.err == Some(VolumeNotFound(RequestedVolumeName(req).value))
  {
    match RequestedVolumeName(req)
    case None => Outcome(vols, DeleteEmpty, Some(RequestMissingVolumeName))
    case Some(name) =>
      if name == "" then Outcome(vols, DeleteEmpty, Some(RequestNeedsNonEmptyVolumeName))
      else if name !in vols then Outcome(vols, DeleteEmpty, Some(VolumeNotFound(name)))
      else Outcome(vols, DeleteResult, None)
  }

  /** Different names give different "not found" messages. */
  lemma VolumeNotFoundInjective(a: string, b: string)
    requires VolumeNotFound(a) == VolumeNotFound(b)
    ensures a == b
  {
    assert a == VolumeNotFound(a)[8..|VolumeNotFound(a)| - 11];
  }

  /** Creating the same name twice: the second call always fails, and the
      registry keeps exactly what the first call left. */
  lemma CreateTwiceFails(vols: Registry, req: CreateVolumeRequest)
    ensures var first := CreateVolumeOutcome(vols, req);
            var second := CreateVolumeOutcome(first.volumes, req);
            second.err.Some? && second.reply == CreateEmpty && second.volumes == first.volumes
  {
  }

  // ---- Sequences of requests ----

  /** The registry after one mutating call. */
  function Apply(vols: Registry, call: Call): Registry
  {
    match call
    case Create(req) => CreateVolumeOutcome(vols, req).volumes
    case Delete(req) => DeleteVolumeOutcome(vols, req).volumes
  }

  /** The registry after a sequence of mutating calls, in order. */
  function Run(vols: Registry, calls: seq<Call>): Registry
    decreases |calls|
  {
    if calls == [] then vols else Apply(Run(vols, calls[..|calls| - 1]), calls[|calls| - 1])
  }

  /** `call` asks to create the non-empty name `name`. */
  predicate CreatesName(call: Call, name: string)
  {
    name != "" && call.Create? && call.createReq.name == name
  }

  /** A name is registered exactly when it was registered to begin with or
      some call created it: deletion never takes a name away, and a stored
      descriptor is never replaced. */
  lemma {:induction false} PresenceIsCreation(vols: Registry, calls: seq<Call>, name: string)
    ensures name in Run(vols, calls) <==>
              name in vols || exists i :: 0 <= i < |calls| && CreatesName(calls[i], name)
    ensures name in vols ==> Run(vols, calls)[name] == vols[name]
  {
    if calls != [] {
      var init := calls[..|calls| - 1];
      PresenceIsCreation(vols, init, name);
      assert forall i :: 0 <= i < |init| ==> init[i] == calls[i];
      if exists i :: 0 <= i < |calls| && CreatesName(calls[i], name) {
        var i :| 0 <= i < |calls| && CreatesName(calls[i], name);
        if i < |init| {
          assert CreatesName(init[i], name);
        }
      }
    }
  }

  /** Every sequence of requests keeps the registry well formed. */
  lemma {:induction false} RunKeepsWellFormed(vols: Registry, calls: seq<Call>)
    requires WellFormed(vols)
    ensures WellFormed(Run(vols, calls))
  {
    if calls != [] {
      RunKeepsWellFormed(vols, calls[..|calls| - 1]);
    }
  }

  /** The older controller object; its only state is the registry. */
  class Controller {
    var volumes: Registry

    ghost predicate Valid()
      reads this
    {
      WellFormed(volumes)
    }

    /** `NewController`: an empty registry. */
    constructor ()
      ensures Valid() && volumes == map[]
    {
      volumes := map[];
    }

    method CreateVolume(req: CreateVolumeRequest) returns (resp: CreateVolumeResponse, err: Option<string>)
      requires Valid()
      modifies this
      ensures Valid()
      ensures Outcome(volumes, resp, err) == CreateVolumeOutcome(old(volumes), req)
    {
      var volName := req.name;
      if volName == "" {
        return CreateEmpty, Some(MissingMandatoryVolumeName);
      }
      if volName !in volumes {
        var localVol := NewVolumeInfo(volName);
        volumes := volumes[req.name := localVol];
        return CreateResult(localVol), None;
      }
      return CreateEmpty, Some(ShouldNotHaveGottenHere);
    }

    /** Reads the registry only: there is no `modifies` clause. */
    method DeleteVolume(req: DeleteVolumeRequest) returns (resp: DeleteVolumeResponse, err: Option<string>)
      ensures resp == DeleteVolumeOutcome(volumes, req).reply
      ensures err == DeleteVolumeOutcome(volumes, req).err
    {
      var found := RequestedVolumeName(req);
      if found.None? {
        return DeleteEmpty, Some(RequestMissingVolumeName);
      }
      var volName := found.value;
      if volName == "" {
        return DeleteEmpty, Some(RequestNeedsNonEmptyVolumeName);
      }
      if volName !in volumes {
        return DeleteEmpty, Some(VolumeNotFound(volName));
      }
      resp, err := DeleteResult, None;
    }

    /** An empty reply (nil `Reply`) and a nil error. */
    static function ControllerPublishVolume(req: ControllerPublishVolumeRequest): (r: ControllerPublishVolumeResponse)
      ensures r.PublishEmpty?
    {
      PublishEmpty
    }

    /** An empty reply (nil `Reply`) and a nil error. */
    static function ControllerUnpublishVolume(req: ControllerUnpublishVolumeRequest): (r: ControllerUnpublishVolumeResponse)
      ensures r.UnpublishEmpty?
    {
      UnpublishEmpty
    }

    /** The same scan as the current controller's. */
    method ValidateVolumeCapabilities(req: ValidateVolumeCapabilitiesRequest)
      returns (resp: ValidateVolumeCapabilitiesResponse, err: Option<string>)
      ensures resp == Capabilities.Validate(req.volumeCapabilities)
      ensures err == None
    {
      var caps := req.volumeCapabilities;
      for i := 0 to |caps|
        invariant Capabilities.Validate(caps[i..]) == Capabilities.Validate(caps)
      {
        var vc := caps[i];
        assert caps[i..][0] == vc && caps[i..][1..] == caps[i + 1..];
        if FsType(vc) != "" {
          return ValidateResult(false, Capabilities.FsTypeUnsupported), None;
        }
        var flags := MountFlags(vc);
        for j := 0 to |flags|
          invariant forall f :: 0 <= f < j ==> flags[f] == ""
        {
          if flags[j] != "" {
            return ValidateResult(false, Capabilities.MountFlagsUnsupported), None;
          }
        }
      }
      resp, err := ValidateResult(true, ""), None;
    }

    /** An empty reply whatever the registry holds: no entries. */
    static function ListVolumes(req: ListVolumesRequest): (r: ListVolumesResponse)
      ensures r.ListEmpty? && Entries(r) == []
    {
      ListVolumesResponse.ListEmpty
    }

    /** An empty reply: the capacity reads as zero. */
    static function GetCapacity(req: GetCapacityRequest): (r: GetCapacityResponse)
      ensures r.CapacityEmpty? && TotalCapacity(r) == 0
    {
      CapacityEmpty
    }

    /** Advertises create/delete and nothing else. */
    static function ControllerGetCapabilities(req: ControllerGetCapabilitiesRequest): (r: ControllerGetCapabilitiesResponse)
      ensures r.CapabilitiesResult? && r.capabilities == [CREATE_DELETE_VOLUME]
      ensures LIST_VOLUMES !in RpcTypes(r) && GET_CAPACITY !in RpcTypes(r) && PUBLISH_UNPUBLISH_VOLUME !in RpcTypes(r)
    {
      CapabilitiesResult([CREATE_DELETE_VOLUME])
    }
  }
}
