/**
 The rule by which both controllers answer ValidateVolumeCapabilities: the
 requested capabilities are scanned in order, and the first capability that
 asks for a filesystem type or for a non-empty mount flag decides the reply.
 */
module Capabilities {
  import opened Csi

  const FsTypeUnsupported: string := "Specifying FsType is unsupported."
  const MountFlagsUnsupported: string := "Specifying mount flags is unsupported."

  /** Some mount flag is a non-empty string (empty strings are allowed). */
  predicate HasNonEmptyFlag(flags: seq<string>)
  {
    exists j :: 0 <= j < |flags| && flags[j] != ""
  }

  /** The message one capability is rejected with, if any; within one
      capability the filesystem type is checked before the mount flags. */
  function Violation(vc: VolumeCapability): (r: Option<string>)
    ensures r == None <==> FsType(vc) == "" && forall j :: 0 <= j < |MountFlags(vc)| ==> MountFlags(vc)[j] == ""
    ensures FsType(vc) != "" ==> r == Some(FsTypeUnsupported)
    ensures FsType(vc) == "" && HasNonEmptyFlag(MountFlags(vc)) ==> r == Some(MountFlagsUnsupported)
    ensures r.Some? ==> r.value == FsTypeUnsupported || r.value == MountFlagsUnsupported
  {
    if FsType(vc) != "" then Some(FsTypeUnsupported)
    else if HasNonEmptyFlag(MountFlags(vc)) then Some(MountFlagsUnsupported)
    else None
  }

  /** The reply to a ValidateVolumeCapabilities request for `caps`. It is
      always a result, never an error or an empty reply, and it says
      `supported` exactly when no capability is violated. */
  function Validate(caps: seq<VolumeCapability>): (r: ValidateVolumeCapabilitiesResponse)
    ensures r.ValidateResult?
    ensures r.supported <==> forall i :: 0 <= i < |caps| ==> Violation(caps[i]) == None
    ensures r.supported ==> r.message == ""
    ensures !r.supported ==> r.message == FsTypeUnsupported || r.message == MountFlagsUnsupported
  {
    if caps == [] then ValidateResult(true, "")
    else
      match Violation(caps[0])
      case Some(msg) => ValidateResult(false, msg)
      case None =>
        var rest := Validate(caps[1..]);
        assert forall i :: 1 <= i < |caps| ==> caps[i] == caps[1..][i - 1];
        rest
  }

  /** The first violated capability decides the reply, whatever follows it. */
  lemma {:induction false} FirstViolationDecides(caps: seq<VolumeCapability>, i: nat)
    requires i < |caps| && Violation(caps[i]).Some?
    requires forall j :: 0 <= j < i ==> Violation(caps[j]) == None
    ensures Validate(caps) == ValidateResult(false, Violation(caps[i]).value)
  {
    if i > 0 {
      assert Violation(caps[0]) == None;
      assert caps[1..][i - 1] == caps[i];
      FirstViolationDecides(caps[1..], i - 1);
    }
  }

  /** A capability naming a filesystem type is rejected with the FsType
      message when no earlier capability is violated, even if it also has
      mount flags. */
  lemma FsTypeRejected(caps: seq<VolumeCapability>, i: nat)
    requires i < |caps| && FsType(caps[i]) != ""
    requires forall j :: 0 <= j < i ==> Violation(caps[j]) == None
    ensures Validate(caps) == ValidateResult(false, FsTypeUnsupported)
  {
    FirstViolationDecides(caps, i);
  }

  /** A capability with no filesystem type but a non-empty mount flag is
      rejected with the mount-flag message when no earlier capability is
      violated. */
  lemma FlagRejected(caps: seq<VolumeCapability>, i: nat)
    requires i < |caps| && FsType(caps[i]) == "" && HasNonEmptyFlag(MountFlags(caps[i]))
    requires forall j :: 0 <= j < i ==> Violation(caps[j]) == None
    ensures Validate(caps) == ValidateResult(false, MountFlagsUnsupported)
  {
    FirstViolationDecides(caps, i);
  }

  /** A non-empty mount flag in an earlier capability wins over a filesystem
      type in a later one. */
  lemma EarlierFlagBeatsLaterFsType(caps: seq<VolumeCapability>, i: nat, k: nat)
    requires i < k < |caps|
    requires FsType(caps[i]) == "" && HasNonEmptyFlag(MountFlags(caps[i]))
    requires FsType(caps[k]) != ""
    requires forall j :: 0 <= j < i ==> Violation(caps[j]) == None
    ensures Validate(caps) == ValidateResult(false, MountFlagsUnsupported)
  {
    FirstViolationDecides(caps, i);
  }

  /** Capabilities whose filesystem types are empty and whose mount flags are
      all empty strings are supported, however many flags they carry. */
  lemma EmptyFlagsSupported(caps: seq<VolumeCapability>)
    requires forall i :: 0 <= i < |caps| ==> FsType(caps[i]) == ""
    requires forall i, j :: 0 <= i < |caps| && 0 <= j < |MountFlags(caps[i])| ==> MountFlags(caps[i])[j] == ""
    ensures Validate(caps) == ValidateResult(true, "")
  {
  }

  /** The three requests of the controller's test suite: one empty-string
      flag is supported, a filesystem type or a real flag is not. */
  lemma TestSuiteCases()
    ensures Validate([VolumeCapability(Some(MountVolume("", [""])))]) == ValidateResult(true, "")
    ensures Validate([VolumeCapability(Some(MountVolume("unsupported", [])))]) == ValidateResult(false, FsTypeUnsupported)
    ensures Validate([VolumeCapability(Some(MountVolume("", ["unsupported"])))]) == ValidateResult(false, MountFlagsUnsupported)
  {
    assert MountFlags(VolumeCapability(Some(MountVolume("", ["unsupported"]))))[0] != "";
  }
}
