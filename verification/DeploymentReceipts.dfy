/**
 What acceptance as a parent receipt says about where the receipt came from. Only its release, its
 action and a few members of its evidence are checked, and its digest carries no key.
 */
module DeploymentReceipts {
  import opened Text
  import opened Deployment
  import opened DeploymentRuns
  import opened DeploymentSafety
  import opened DeploymentLimits

  // ---------------------------------------------------------------- issued by some run

  /** Some passing run of `rollback`, for a bundle of this release, issued the receipt. */
  ghost predicate IssuedByRollback(hashes: Hashes, receipt: Receipt, bundle: Bundle) {
    exists w: World, b: Bundle, h: Host, at: int ::
      && w.hashes == hashes && SameRelease(b, bundle)
      && Deployment.Rollback(w, b, Run(h, [], true)).ok
      && receipt == RollbackReceipt(hashes, b, h, at)
  }

  /** Some passing run of `reboot_boundary` did. */
  ghost predicate IssuedByBoundary(hashes: Hashes, receipt: Receipt, bundle: Bundle) {
    exists w: World, b: Bundle, h: Host, at: int ::
      && w.hashes == hashes && SameRelease(b, bundle)
      && Deployment.RebootBoundary(w, b, Run(h, [], true)).ok
      && receipt == BoundaryReceipt(hashes, b, h, at)
  }

  /** No member the controller does not write, and a time it could have written. */
  predicate OnlyKnownMembers(receipt: Receipt) {
    && receipt.issuedAt.Some?
    && receipt.payload.others == map[] && receipt.integrityOthers == map[]
  }

  /** The recorded pause digest is that of the recorded pause state. */
  predicate PauseRecorded(hashes: Hashes, e: Evidence) {
    e.pause.Some? && e.pauseSha == Some(hashes.pause(e.pause.value))
  }

  predicate RollbackEvidence(hashes: Hashes, e: Evidence) {
    && PauseRecorded(hashes, e)
    && e.serviceState == Some(STOPPED) && e.unitSha.Some? && e.rollbackTarget.Some?
    && e.beforeBootSha.None? && e.afterBootSha.None? && e.parentPayloadSha.None?
    && e.others == ROLLBACK_FACTS
  }

  predicate BoundaryEvidence(hashes: Hashes, e: Evidence) {
    && PauseRecorded(hashes, e)
    && e.beforeBootSha.Some?
    && e.serviceState.None? && e.unitSha.None? && e.rollbackTarget.None?
    && e.afterBootSha.None? && e.parentPayloadSha.None?
    && e.others == BOUNDARY_FACTS
  }

  // ---------------------------------------------------------------- every such receipt is issued

  lemma SteadyVerified(hashes: Hashes, bundle: Bundle, h: Host)
    requires Running(h, bundle)
    ensures var r := Verified(WorkingWorld(hashes, h), bundle, Run(h, [], true));
      r.ok && r.host == h
  {
    var w, start := WorkingWorld(hashes, h), Run(h, [], true);
    SteadyRun(w, PREFLIGHT, start, h);
    SteadyRunning(hashes, bundle, h, h);
    SteadyRun(w, RunningPlan(bundle), Play(w, PREFLIGHT, start), h);
  }

  /** On a host that runs the release, a rollback whose commands all work passes. */
  lemma WorkingRollbackPasses(hashes: Hashes, bundle: Bundle, h: Host)
    requires Running(h, bundle)
    ensures Deployment.Rollback(WorkingWorld(hashes, h), bundle, Run(h, [], true)).ok
  {
    var w := WorkingWorld(hashes, h);
    SteadyVerified(hashes, bundle, h);
    WorkingStop(hashes, bundle, h, Verified(w, bundle, Run(h, [], true)));
  }

  lemma WorkingStop(hashes: Hashes, bundle: Bundle, h: Host, r: Run)
    requires Running(h, bundle) && r.ok && r.host == h
    ensures Play(WorkingWorld(hashes, h), RollbackPlan(bundle), r).ok
  {
    var w, plan := WorkingWorld(hashes, h), RollbackPlan(bundle);
    assert plan == plan[..3] + plan[3..];
    PlaySplit(w, plan[..3], plan[3..], r);
    PlayThree(w, plan[..3], r);
    StopWorks(w, bundle, h, r);
    var stopped := Play(w, plan[..3], r);
    SteadyStopped(hashes, bundle, stopped.host, h);
    SteadyRun(w, plan[3..], stopped, h);
  }

  lemma StopWorks(w: World, bundle: Bundle, h: Host, r: Run)
    requires Running(h, bundle) && r.ok && forall n :: w.script(n) == Fine(h)
    ensures var a := Perform(w, Checked(DisableService), r);
      var b := Perform(w, Unchecked(StopContainer), a);
      var c := Perform(w, Checked(RetireUnit), b);
      && c.ok && !c.host.active && !c.host.enabled
      && Holds(w.hashes, c.host, ContainerIs(bundle, false))
  {
  }

  lemma SteadyStopped(hashes: Hashes, bundle: Bundle, h: Host, goal: Host)
    requires !h.active && !h.enabled && Holds(hashes, h, ContainerIs(bundle, false))
    ensures forall s | s in RollbackPlan(bundle)[3..] :: Steady(hashes, s, h, goal)
  {
    hide Holds;
    assert !Holds(hashes, h, ServiceActive) && !Holds(hashes, h, ServiceEnabled) by {
      QuestionsAreNo(hashes, h);
    }
    assert RollbackPlan(bundle)[3..]
      == [Deny(ServiceActive), Deny(ServiceEnabled), Demand(ContainerIs(bundle, false))];
  }

  lemma QuestionsAreNo(hashes: Hashes, h: Host)
    requires !h.active && !h.enabled
    ensures !Holds(hashes, h, ServiceActive) && !Holds(hashes, h, ServiceEnabled)
  {
  }

  lemma WorkingBoundaryPasses(hashes: Hashes, bundle: Bundle, h: Host)
    requires Running(h, bundle)
    ensures Deployment.RebootBoundary(WorkingWorld(hashes, h), bundle, Run(h, [], true)).ok
  {
    var w := WorkingWorld(hashes, h);
    SteadyVerified(hashes, bundle, h);
    SteadyRun(w, [Demand(BootIdentity)], Verified(w, bundle, Run(h, [], true)), h);
  }

  // ---------------------------------------------------------------- the exact conditions

  /**
   A receipt came out of a passing rollback of this release exactly if it is accepted as the parent
   of a redeployment, has no foreign member, and its evidence has the one shape of a rollback.
   */
  lemma RollbackParentIsIssued(hashes: Hashes, receipt: Receipt, bundle: Bundle)
    ensures IssuedByRollback(hashes, receipt, bundle) <==>
      && ParentEvidence(hashes, receipt, "rollback", bundle).Some?
      && OnlyKnownMembers(receipt) && RollbackEvidence(hashes, receipt.payload.evidence)
  {
    hide Deployment.Rollback;
    if && ParentEvidence(hashes, receipt, "rollback", bundle).Some?
       && OnlyKnownMembers(receipt) && RollbackEvidence(hashes, receipt.payload.evidence)
    {
      var e := receipt.payload.evidence;
      var b := bundle.(unitSha := e.unitSha.value, previousRelease := e.rollbackTarget.value);
      var h := Goal(b, true, e.pause.value);
      WorkingRollbackPasses(hashes, b, h);
      assert WorkingWorld(hashes, h).hashes == hashes && SameRelease(b, bundle);
      assert receipt == RollbackReceipt(hashes, b, h, receipt.issuedAt.value);
    }
  }

  /** The same for the receipt of a reboot boundary, the parent of a reboot verification. */
  lemma BoundaryParentIsIssued(hashes: Hashes, receipt: Receipt, bundle: Bundle)
    ensures IssuedByBoundary(hashes, receipt, bundle) <==>
      && ParentEvidence(hashes, receipt, "reboot-boundary", bundle).Some?
      && OnlyKnownMembers(receipt) && BoundaryEvidence(hashes, receipt.payload.evidence)
  {
    hide Deployment.RebootBoundary;
    if && ParentEvidence(hashes, receipt, "reboot-boundary", bundle).Some?
       && OnlyKnownMembers(receipt) && BoundaryEvidence(hashes, receipt.payload.evidence)
    {
      var e := receipt.payload.evidence;
      var h := Goal(bundle, true, e.pause.value).(bootSha := e.beforeBootSha.value);
      WorkingBoundaryPasses(hashes, bundle, h);
      assert WorkingWorld(hashes, h).hashes == hashes && SameRelease(bundle, bundle);
      assert receipt == BoundaryReceipt(hashes, bundle, h, receipt.issuedAt.value);
    }
  }

  // ---------------------------------------------------------------- accepted but never issued

  /** A pause digest and a service state are enough for `redeploy` to go on. */
  lemma BareEvidenceIsAccepted(hashes: Hashes, bundle: Bundle, pauseSha: string, at: int)
    ensures var bare := Evidence(
        None, Some(pauseSha), Some(STOPPED), None, None, None, None, None, map[]);
      var receipt := Issue(hashes, "rollback", "PASS", bundle, bare, at);
      && ExpectedPause(hashes, receipt, bundle) == Some(pauseSha)
      && OnlyKnownMembers(receipt) && !IssuedByRollback(hashes, receipt, bundle)
  {
    var bare := Evidence(None, Some(pauseSha), Some(STOPPED), None, None, None, None, None, map[]);
    RollbackParentIsIssued(hashes, Issue(hashes, "rollback", "PASS", bundle, bare, at), bundle);
  }

  /** A member the controller never writes is accepted, and so is a time of issue that is none. */
  lemma ForeignMemberIsAccepted(hashes: Hashes, bundle: Bundle, h: Host)
    ensures var issued := RollbackReceipt(hashes, bundle, h, 0);
      var payload := issued.payload.(others := map["note" := "x"]);
      var foreign := issued.(payload := payload, payloadSha := hashes.payload(payload));
      var untimed := issued.(issuedAt := None);
      && ExpectedPause(hashes, foreign, bundle) == Some(hashes.pause(h.pause))
      && !IssuedByRollback(hashes, foreign, bundle)
      && ExpectedPause(hashes, untimed, bundle) == Some(hashes.pause(h.pause))
      && !IssuedByRollback(hashes, untimed, bundle)
  {
    var issued := RollbackReceipt(hashes, bundle, h, 0);
    var payload := issued.payload.(others := map["note" := "x"]);
    var foreign := issued.(payload := payload, payloadSha := hashes.payload(payload));
    assert "note" in foreign.payload.others;
    RollbackParentIsIssued(hashes, foreign, bundle);
    RollbackParentIsIssued(hashes, issued.(issuedAt := None), bundle);
  }
}
