/**
 The methods of `PreSoakDeployController`: every method issues its commands one by one, gives up at
 the first failure, and is proved to follow the plan of its action.
 */
module DeploymentController {
  import opened Text
  import opened Deployment
  import opened DeploymentRuns
  import opened DeploymentSafety

  /** A passing receipt of this action for this release, over its own payload. */
  predicate Binds(hashes: Hashes, receipt: Receipt, action: string, bundle: Bundle, now: int) {
    var p := receipt.payload;
    && receipt.schemaVersion == "research-os.pre-soak-deployment-receipt.v1"
    && receipt.classification == "D1_INTERNAL_SANITIZED"
    && receipt.issuedAt == Some(now) && receipt.payloadSha == hashes.payload(p)
    && p.action == action && p.status == "PASS" && p.releaseSha == bundle.releaseSha
    && p.imageId == bundle.imageId && p.policySha == bundle.policySha
    && p.configSha == bundle.configSha && p.capsule == bundle.capsule
  }

  /** The evidence records a pause state and its digest. */
  predicate Records(hashes: Hashes, e: Evidence, pause: string) {
    e.pause == Some(pause) && e.pauseSha == Some(hashes.pause(pause))
  }

  class Controller {
    var host: Host
    var trace: seq<Event>
    const world: World

    constructor (host: Host, world: World)
      ensures this.host == host && trace == [] && this.world == world
    {
      this.host, trace, this.world := host, [], world;
    }

    function State(ok: bool): Run
      reads this
    {
      Run(host, trace, ok)
    }

    /** Issues step i of a plan; the outside world answers it. */
    method Take(s: Step, ghost plan: seq<Step>, ghost i: nat) returns (ok: bool)
      requires i < |plan| && plan[i] == s
      modifies this
      ensures State(ok) == Perform(world, s, old(State(true)))
      ensures Play(world, plan[i..], old(State(true))) == Play(world, plan[i + 1..], State(ok))
      ensures !ok || i + 1 == |plan| ==> Play(world, plan[i + 1..], State(ok)) == State(ok)
    {
      var after := Perform(world, s, State(true));
      host, trace, ok := after.host, after.log, after.ok;
      assert plan[i..][1..] == plan[i + 1..];
    }

    method Preflight() returns (ok: bool)
      modifies this
      ensures State(ok) == Play(world, PREFLIGHT, old(State(true)))
    {
      hide Play, Perform;
      ok := Take(Demand(AliasExpands), PREFLIGHT, 0);
      if !ok { return; }
      ok := Take(Demand(HostFits), PREFLIGHT, 1);
      if !ok { return; }
      ok := Take(Demand(EngineFits), PREFLIGHT, 2);
    }

    method AssertNoConflictingWriter() returns (ok: bool)
      modifies this
      ensures State(ok) == Play(world, ConflictPlan(world.profile), old(State(true)))
    {
      hide Play, Perform;
      ghost var plan := ConflictPlan(world.profile);
      match world.profile {
        case NoConflict =>
          ok := Take(Clear, plan, 0);
        case Incomplete =>
          ok := Take(Refuse, plan, 0);
        case Named =>
          ok := Take(Deny(PredecessorActive), plan, 0);
          if !ok { return; }
          ok := Take(Deny(PredecessorEnabled), plan, 1);
          if !ok { return; }
          ok := Take(Demand(PredecessorNotRunning), plan, 2);
          if !ok { return; }
          ok := Take(Clear, plan, 3);
      }
    }

    /** `_verify_running`: the pause state it returns is the one the host has. */
    method VerifyRunning(bundle: Bundle) returns (pause: Option<string>)
      modifies this
      ensures State(pause.Some?) == Play(world, RunningPlan(bundle), old(State(true)))
      ensures pause.Some? ==> pause.value == host.pause
    {
      hide Play, Perform;
      ghost var plan := RunningPlan(bundle);
      var ok := Take(Demand(ServiceActive), plan, 0);
      if !ok { return None; }
      ok := Take(Demand(ServiceEnabled), plan, 1);
      if !ok { return None; }
      ok := Take(Demand(ContainerIs(bundle, true)), plan, 2);
      if !ok { return None; }
      ok := Take(Demand(PauseState), plan, 3);
      return if ok then Some(host.pause) else None;
    }

    method StageImage(bundle: Bundle) returns (ok: bool)
      modifies this
      ensures State(ok) == Play(world, ImagePlan(bundle), old(State(true)))
    {
      hide Play, Perform;
      ghost var plan := ImagePlan(bundle);
      if bundle.archiveSha.None? {
        ok := Take(Refuse, plan, 0);
        return;
      }
      ok := Take(Checked(MakeDirectories), plan, 0);
      if !ok { return; }
      ok := Take(Checked(TransferArchive), plan, 1);
      if !ok { return; }
      ok := Take(Demand(ArchiveIs(bundle.archiveSha.value)), plan, 2);
      if !ok { return; }
      ok := Take(Checked(LoadImage), plan, 3);
      if !ok { return; }
      ok := Take(Demand(ImageIs(bundle.imageId, bundle.releaseSha)), plan, 4);
    }

    method StageConfig(bundle: Bundle) returns (ok: bool)
      modifies this
      ensures State(ok) == Play(world, ConfigPlan(bundle), old(State(true)))
    {
      hide Play, Perform;
      ghost var plan := ConfigPlan(bundle);
      ok := Take(Checked(TransferConfig), plan, 0);
      if !ok { return; }
      ok := Take(Demand(ConfigIs(bundle.configSha)), plan, 1);
      if !ok { return; }
      ok := Take(Checked(ProtectConfig), plan, 2);
    }

    method StageVolumes(bundle: Bundle) returns (ok: bool)
      modifies this
      ensures State(ok) == Play(world, VolumePlan(bundle), old(State(true)))
    {
      hide Play, Perform;
      ghost var plan := VolumePlan(bundle);
      ghost var n := 0;
      if bundle.capsule.Some? {
        ok := Take(Checked(MakeCapsuleDirectory), plan, 0);
        if !ok { return; }
        ok := Take(Checked(TransferCapsuleObject), plan, 1);
        if !ok { return; }
        ok := Take(Checked(TransferCapsuleObject), plan, 2);
        if !ok { return; }
        ok := Take(Checked(SealCapsule), plan, 3);
        if !ok { return; }
        n := 4;
      }
      ok := Take(Checked(CreateRuntimeVolume), plan, n);
      if !ok { return; }
      ok := Take(Checked(CreateConfigVolume), plan, n + 1);
      if !ok { return; }
      if bundle.capsule.None? {
        ok := Take(Checked(InitializeVolumes), plan, 2);
        if !ok { return; }
        ok := Take(Demand(VolumeIs(bundle.configSha)), plan, 3);
      } else {
        ok := Take(Checked(InitializeFromCapsule(bundle.configSha)), plan, 6);
        if !ok { return; }
        ok := Take(Checked(CleanCapsule), plan, 7);
      }
    }

    method StageSavedUnit(bundle: Bundle) returns (ok: bool)
      modifies this
      ensures State(ok) == Play(world, SavedUnitPlan(bundle), old(State(true)))
    {
      hide Play, Perform;
      ghost var plan := SavedUnitPlan(bundle);
      ok := Take(Checked(SaveUnit), plan, 0);
      if !ok { return; }
      ok := Take(Checked(ProtectUnit), plan, 1);
      if !ok { return; }
      ok := Take(Demand(SavedUnitIs(bundle.unitSha)), plan, 2);
    }

    method StageContent(bundle: Bundle) returns (ok: bool)
      modifies this
      ensures State(ok) == Stage(world, bundle, old(State(true)))
    {
      ok := StageImage(bundle);
      if !ok { return; }
      ok := StageConfig(bundle);
      if !ok { return; }
      ok := StageVolumes(bundle);
      if !ok { return; }
      ok := StageSavedUnit(bundle);
    }

    /** Only the last of the three commands is checked, and none of them is shielded. */
    method ForceStopped() returns (ok: bool)
      modifies this
      ensures State(ok) == Play(world, FORCED_STOP, old(State(true)))
    {
      hide Play, Perform;
      ok := Take(Unchecked(DisableService), FORCED_STOP, 0);
      if !ok { return; }
      ok := Take(Unchecked(StopContainer), FORCED_STOP, 1);
      if !ok { return; }
      ok := Take(Checked(RetireUnit), FORCED_STOP, 2);
    }

    /** The body of the `try` statement. */
    method MoveAndEnable() returns (ok: bool)
      modifies this
      ensures State(ok) == Play(world, ACTIVATION, old(State(true)))
    {
      hide Play, Perform;
      ok := Take(Checked(MoveUnit), ACTIVATION, 0);
      if !ok { return; }
      ok := Take(Checked(ReloadDaemon), ACTIVATION, 1);
      if !ok { return; }
      ok := Take(Checked(EnableService), ACTIVATION, 2);
    }

    method InstallSavedUnit(bundle: Bundle) returns (ok: bool)
      modifies this
      ensures State(ok) == Install(world, bundle, old(State(true)))
    {
      ghost var plan := StagedUnitPlan(bundle);
      ok := Take(Checked(StageUnit), plan, 0);
      if !ok { return; }
      ok := Take(Demand(NextUnitIs(bundle.unitSha)), plan, 1);
      if !ok { return; }
      ok := MoveAndEnable();
      if !ok {
        var _ := ForceStopped();
      }
    }

    /** `_container_inspect` with `missing_ok`, where a refusal reads like an absent container. */
    method FirstRelease(bundle: Bundle) returns (ok: bool)
      modifies this
      ensures State(ok) == Leftover(world, bundle, old(State(true)))
    {
      var own := ContainerIs(bundle, false);
      ok := Take(Tolerate(own), [Tolerate(own)], 0);
      if !ok || trace[|trace| - 1].outcome.Refused? || host.container.None? { return; }
      ok := Holds(world.hashes, host, own);
      if !ok { return; }
      ok := Take(Demand(own), [Demand(own)], 0);
    }

    /** Everything `deploy` does before it changes the host. */
    method PrepareDeploy(bundle: Bundle, callback: bool) returns (ok: bool)
      modifies this
      ensures State(ok) == Prepare(world, bundle, callback, old(State(true)))
    {
      ok := Preflight();
      if !ok { return; }
      ok := AssertNoConflictingWriter();
      if !ok { return; }
      ok := Take(Deny(ServiceActive), [Deny(ServiceActive)], 0);
      if !ok { return; }
      ok := FirstRelease(bundle);
      if !ok || !callback { return; }
      ok := Take(Consent, [Consent], 0);
      if !ok { return; }
      ok := AssertNoConflictingWriter();
    }

    method Deploy(bundle: Bundle, callback: bool, now: int) returns (r: Option<Receipt>)
      modifies this
      ensures State(r.Some?) == Deployment.Deploy(world, bundle, callback, old(State(true)))
      ensures r.Some? ==> r.value == DeployReceipt(world.hashes, bundle, host, now)
      ensures r.Some? ==>
        && Binds(world.hashes, r.value, "deploy", bundle, now)
        && var e := r.value.payload.evidence;
        && Records(world.hashes, e, host.pause)
        && e.unitSha == Some(bundle.unitSha) && e.rollbackTarget == Some(bundle.previousRelease)
      ensures Extends(old(State(true)), State(r.Some?))
      ensures SafeTrace(Since(old(State(true)), State(r.Some?)), callback)
      ensures r.Some? ==>
        && Running(host, bundle) && Installed(world.hashes, host, bundle)
        && Kept(world.hashes, host, bundle)
    {
      hide SafeTrace, Running, Installed, Kept;
      DeployTraceIsSafe(world, bundle, callback, State(true));
      DeployPasses(world, bundle, callback, State(true));
      var ok := PrepareDeploy(bundle, callback);
      if !ok { return None; }
      ok := StageContent(bundle);
      if !ok { return None; }
      ok := InstallSavedUnit(bundle);
      if !ok { return None; }
      var pause := VerifyRunning(bundle);
      if pause.None? { return None; }
      return Some(Issue(world.hashes, "deploy", "PASS", bundle,
                        Evidence(pause, Some(world.hashes.pause(pause.value)), None, Some(bundle.unitSha),
                                 Some(bundle.previousRelease), None, None, None, DEPLOY_FACTS), now));
    }

    method RebootBoundary(bundle: Bundle, now: int) returns (r: Option<Receipt>)
      modifies this
      ensures State(r.Some?) == Deployment.RebootBoundary(world, bundle, old(State(true)))
      ensures r.Some? ==> r.value == BoundaryReceipt(world.hashes, bundle, host, now)
      ensures r.Some? ==>
        && Binds(world.hashes, r.value, "reboot-boundary", bundle, now)
        && var e := r.value.payload.evidence;
        && Records(world.hashes, e, host.pause)
        && e.beforeBootSha == Some(host.bootSha)
      ensures host == old(host) && (r.Some? ==> Running(host, bundle))
    {
      hide Running;
      BoundaryPasses(world, bundle, State(true));
      var ok := Preflight();
      if !ok { return None; }
      var pause := VerifyRunning(bundle);
      if pause.None? { return None; }
      ok := Take(Demand(BootIdentity), [Demand(BootIdentity)], 0);
      if !ok { return None; }
      return Some(Issue(world.hashes, "reboot-boundary", "PASS", bundle,
                        Evidence(pause, Some(world.hashes.pause(pause.value)), None, None, None,
                                 Some(host.bootSha), None, None, BOUNDARY_FACTS), now));
    }

    method VerifyReboot(bundle: Bundle, boundary: Receipt, now: int)
      returns (r: Option<Receipt>)
      modifies this
      ensures State(r.Some?) == Deployment.VerifyReboot(world, bundle, boundary, old(State(true)))
      ensures r.Some? ==> r.value == VerifiedReceipt(world.hashes, bundle, host, boundary, now)
      ensures r.Some? ==>
        && Binds(world.hashes, r.value, "verify-reboot", bundle, now)
        && var e := r.value.payload.evidence;
        && Records(world.hashes, e, host.pause)
        && e.beforeBootSha == boundary.payload.evidence.beforeBootSha
        && e.afterBootSha == Some(host.bootSha)
        && e.parentPayloadSha == Some(boundary.payloadSha)
        && e.others == NO_AUTHORITY + map["boot_identity_changed" := "true"]
      ensures host == old(host)
      ensures r.Some? ==>
        && Running(host, bundle)
        && boundary.payload.evidence.beforeBootSha.Some?
        && host.bootSha != boundary.payload.evidence.beforeBootSha.value
        && boundary.payload.evidence.pauseSha == Some(world.hashes.pause(host.pause))
    {
      hide Running;
      RebootPasses(world, bundle, boundary, State(true));
      var parent := ParentEvidence(world.hashes, boundary, "reboot-boundary", bundle);
      if parent.None? || parent.value.beforeBootSha.None? || parent.value.pauseSha.None? {
        return None;
      }
      PlaySplit(world, PREFLIGHT, [Demand(BootIdentity)], State(true));
      var ok := Preflight();
      if !ok { return None; }
      ok := Take(Demand(BootIdentity), [Demand(BootIdentity)], 0);
      if !ok || host.bootSha == parent.value.beforeBootSha.value { return None; }
      var pause := VerifyRunning(bundle);
      if pause.None? { return None; }
      var sha := world.hashes.pause(pause.value);
      if sha != parent.value.pauseSha.value { return None; }
      return Some(Issue(world.hashes, "verify-reboot", "PASS", bundle,
                        Evidence(pause, Some(sha), None, None, None, parent.value.beforeBootSha,
                                 Some(host.bootSha), Some(boundary.payloadSha), REBOOT_FACTS),
                        now));
    }

    /** Disables, stops and retires; only the stop is unchecked. Then it looks again. */
    method StopAndRetire(bundle: Bundle) returns (ok: bool)
      modifies this
      ensures State(ok) == Play(world, RollbackPlan(bundle), old(State(true)))
    {
      hide Play, Perform;
      ghost var plan := RollbackPlan(bundle);
      ok := Take(Checked(DisableService), plan, 0);
      if !ok { return; }
      ok := Take(Unchecked(StopContainer), plan, 1);
      if !ok { return; }
      ok := Take(Checked(RetireUnit), plan, 2);
      if !ok { return; }
      ok := Take(Deny(ServiceActive), plan, 3);
      if !ok { return; }
      ok := Take(Deny(ServiceEnabled), plan, 4);
      if !ok { return; }
      ok := Take(Demand(ContainerIs(bundle, false)), plan, 5);
    }

    method Rollback(bundle: Bundle, now: int) returns (r: Option<Receipt>)
      modifies this
      ensures State(r.Some?) == Deployment.Rollback(world, bundle, old(State(true)))
      ensures r.Some? ==> r.value == RollbackReceipt(world.hashes, bundle, old(host), now)
      ensures r.Some? ==>
        && Binds(world.hashes, r.value, "rollback", bundle, now)
        && var e := r.value.payload.evidence;
        && Records(world.hashes, e, old(host.pause))
        && e.serviceState == Some("none-service-stopped")
        && e.unitSha == Some(bundle.unitSha) && e.rollbackTarget == Some(bundle.previousRelease)
      ensures r.Some? ==> old(Running(host, bundle)) && Stopped(host) && host.liveUnit == None
      ensures host.savedUnit == old(host.savedUnit) && host.images == old(host.images)
      ensures host.configVolume == old(host.configVolume)
    {
      hide Running, Stopped;
      RollbackPasses(world, bundle, State(true));
      RollbackKeeps(world, bundle, State(true));
      PlayReads(world, PREFLIGHT, State(true));
      PlayReads(world, RunningPlan(bundle), Play(world, PREFLIGHT, State(true)));
      var ok := Preflight();
      if !ok { return None; }
      var pause := VerifyRunning(bundle);
      if pause.None? { return None; }
      ok := StopAndRetire(bundle);
      if !ok { return None; }
      return Some(Issue(world.hashes, "rollback", "PASS", bundle,
                        Evidence(pause, Some(world.hashes.pause(pause.value)), Some(STOPPED),
                                 Some(bundle.unitSha), Some(bundle.previousRelease), None, None,
                                 None, ROLLBACK_FACTS), now));
    }

    /** The checks of `redeploy` on the stopped host. */
    method RedeployReady(bundle: Bundle) returns (ok: bool)
      modifies this
      ensures State(ok) == Play(world, RedeployPlan(bundle), old(State(true)))
    {
      hide Play, Perform;
      ghost var plan := RedeployPlan(bundle);
      ok := Take(Deny(ServiceActive), plan, 0);
      if !ok { return; }
      ok := Take(Demand(SavedUnitIs(bundle.unitSha)), plan, 1);
      if !ok { return; }
      ok := Take(Demand(ImageIs(bundle.imageId, bundle.releaseSha)), plan, 2);
      if !ok { return; }
      ok := Take(Demand(ContainerIs(bundle, false)), plan, 3);
    }

    method Redeploy(bundle: Bundle, rollback: Receipt, now: int) returns (r: Option<Receipt>)
      modifies this
      ensures State(r.Some?) == Deployment.Redeploy(world, bundle, rollback, old(State(true)))
      ensures r.Some? ==> r.value == RedeployReceipt(world.hashes, bundle, host, rollback, now)
      ensures r.Some? ==>
        && Binds(world.hashes, r.value, "redeploy", bundle, now)
        && var e := r.value.payload.evidence;
        && Records(world.hashes, e, host.pause)
        && e.unitSha == Some(bundle.unitSha) && e.rollbackTarget == Some(bundle.previousRelease)
        && e.parentPayloadSha == Some(rollback.payloadSha)
      ensures r.Some? ==>
        && Running(host, bundle) && Installed(world.hashes, host, bundle)
        && ExpectedPause(world.hashes, rollback, bundle) == Some(world.hashes.pause(host.pause))
    {
      hide Running, Installed;
      RedeployPasses(world, bundle, rollback, State(true));
      var parent := ParentEvidence(world.hashes, rollback, "rollback", bundle);
      if parent.None? || parent.value.pauseSha.None? || parent.value.serviceState != Some(STOPPED) {
        return None;
      }
      var ok := Preflight();
      if !ok { return None; }
      ok := RedeployReady(bundle);
      if !ok { return None; }
      ok := InstallSavedUnit(bundle);
      if !ok { return None; }
      var pause := VerifyRunning(bundle);
      if pause.None? { return None; }
      var sha := world.hashes.pause(pause.value);
      if sha != parent.value.pauseSha.value {
        var _ := ForceStopped();
        return None;
      }
      return Some(Issue(world.hashes, "redeploy", "PASS", bundle,
                        Evidence(pause, Some(sha), None, Some(bundle.unitSha), Some(bundle.previousRelease),
                                 None, None, Some(rollback.payloadSha), REDEPLOY_FACTS), now));
    }
  }
}
