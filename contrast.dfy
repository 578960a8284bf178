/**
 Where the current controller (package `controller`) and the older one
 (package `models`) agree and where they part ways, on the same registry
 and the same request.
 */
module Contrast {
  import opened Csi
  import Controller
  import Models

  /** On a fresh, non-empty name both create the same descriptor and leave
      the same registry. */
  lemma CreateAgreesOnFreshName(vols: Registry, req: CreateVolumeRequest)
    requires req.name != "" && req.name !in vols
    ensures Controller.CreateVolumeOutcome(vols, req) == Models.CreateVolumeOutcome(vols, req)
  {
  }

  /** On a name already stored the current controller answers with the
      stored descriptor, the older one with a Go error and an empty reply. */
  lemma CreateDiffersOnStoredName(vols: Registry, req: CreateVolumeRequest)
    requires req.name != "" && req.name in vols
    ensures Controller.CreateVolumeOutcome(vols, req) == Outcome(vols, CreateResult(vols[req.name]), None)
    ensures Models.CreateVolumeOutcome(vols, req) == Outcome(vols, CreateEmpty, Some(Models.ShouldNotHaveGottenHere))
  {
  }

  /** An empty name is refused by both, in the reply's error arm by the
      current controller and as a Go error by the older one. */
  lemma CreateRefusesEmptyNameDifferently(vols: Registry, req: CreateVolumeRequest)
    requires req.name == ""
    ensures Controller.CreateVolumeOutcome(vols, req).err == None
    ensures Controller.CreateVolumeOutcome(vols, req).reply.CreateError?
    ensures Models.CreateVolumeOutcome(vols, req).err.Some?
    ensures Models.CreateVolumeOutcome(vols, req).reply == CreateEmpty
    ensures Controller.CreateVolumeOutcome(vols, req).volumes == Models.CreateVolumeOutcome(vols, req).volumes == vols
  {
  }

  /** Deleting a stored name succeeds in both, but only the current
      controller removes it. */
  lemma DeleteOfStoredName(vols: Registry, req: DeleteVolumeRequest)
    requires RequestedVolumeName(req).Some? && RequestedVolumeName(req).value != ""
    requires RequestedVolumeName(req).value in vols
    ensures Controller.DeleteVolumeOutcome(vols, req).reply == Models.DeleteVolumeOutcome(vols, req).reply == DeleteResult
    ensures RequestedVolumeName(req).value !in Controller.DeleteVolumeOutcome(vols, req).volumes
    ensures RequestedVolumeName(req).value in Models.DeleteVolumeOutcome(vols, req).volumes
  {
  }

  /** Deleting an unknown name succeeds in the current controller and is a
      "not found" Go error in the older one; neither changes the registry. */
  lemma DeleteOfUnknownName(vols: Registry, req: DeleteVolumeRequest)
    requires RequestedVolumeName(req).Some? && RequestedVolumeName(req).value != ""
    requires RequestedVolumeName(req).value !in vols
    ensures Controller.DeleteVolumeOutcome(vols, req) == Outcome(vols, DeleteResult, None)
    ensures Models.DeleteVolumeOutcome(vols, req) ==
              Outcome(vols, DeleteEmpty, Some(Models.VolumeNotFound(RequestedVolumeName(req).value)))
  {
  }

  /** Creating a fresh name and then deleting it gives back the original
      registry in the current controller, but keeps the name in the older
      one, where a later create of that name can only fail. */
  lemma {:induction false} CreateThenDelete(vols: Registry, name: string, caps: seq<VolumeCapability>)
    requires name != "" && name !in vols
    ensures var calls := [Create(CreateVolumeRequest(name, caps)), Delete(DeleteVolumeRequest(Some(NewVolumeInfo(name).id)))];
            && Controller.Run(vols, calls) == vols
            && Models.Run(vols, calls) == vols[name := NewVolumeInfo(name)]
            && Models.CreateVolumeOutcome(Models.Run(vols, calls), CreateVolumeRequest(name, caps)).err.Some?
  {
    var calls := [Create(CreateVolumeRequest(name, caps)), Delete(DeleteVolumeRequest(Some(NewVolumeInfo(name).id)))];
    var created := vols[name := NewVolumeInfo(name)];
    assert calls[..1][..0] == [];
    assert RequestedVolumeName(calls[1].deleteReq) == Some(name);
    assert Controller.Run(vols, calls[..1]) == created;
    assert Models.Run(vols, calls[..1]) == created;
    assert created - {name} == vols;
  }

  /** The older controller advertises a prefix of what the current one does. */
  lemma CapabilitiesArePrefix(req: ControllerGetCapabilitiesRequest)
    ensures RpcTypes(Models.Controller.ControllerGetCapabilities(req)) ==
            RpcTypes(Controller.Controller.ControllerGetCapabilities(req))[..1]
  {
  }

  /** The current controller reports the largest capacity, the older one an
      empty reply whose capacity reads as zero. */
  lemma CapacityDiffers(req: GetCapacityRequest)
    ensures TotalCapacity(Controller.Controller.GetCapacity(req)) as int == 0x1_0000_0000_0000_0000 - 1
    ensures TotalCapacity(Models.Controller.GetCapacity(req)) == 0
  {
  }

  /** On a non-empty registry the current controller's listing has entries
      and the older one's has none. */
  lemma ListingsDiffer(vols: Registry, entries: seq<VolumeInfo>, req: ListVolumesRequest)
    requires vols != map[] && Enumerates(entries, vols)
    ensures entries != Entries(Models.Controller.ListVolumes(req))
  {
    var k :| k in vols;
    assert vols[k] in entries;
  }

  /** Publish and unpublish never fail in either controller, but only the
      current one fills in the result arm. */
  lemma PublishRepliesDiffer(p: ControllerPublishVolumeRequest, u: ControllerUnpublishVolumeRequest)
    ensures Controller.Controller.ControllerPublishVolume(p).PublishResult?
    ensures Models.Controller.ControllerPublishVolume(p) == PublishEmpty
    ensures Controller.Controller.ControllerUnpublishVolume(u) == UnpublishResult
    ensures Models.Controller.ControllerUnpublishVolume(u) == UnpublishEmpty
  {
  }
}
