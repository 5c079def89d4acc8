/**
 Where the deploy controller promises less than it seems to: the exact condition on the answers of
 the outside world, and concrete runs in which the promise fails.
 */
module DeploymentLimits {
  import opened Text
  import opened Deployment
  import opened DeploymentRuns
  import opened DeploymentSafety

  // ---------------------------------------------------------------- the conflicting writer

  /** The predecessor neither runs nor will be started. */
  predicate Idle(p: Predecessor) {
    !p.active && !p.enabled && p.container != Some(true)
  }

  /** What came back to the three questions; `inspected` is about the inner inspect of the third. */
  datatype Answers = Answers(active: Outcome, enabled: Outcome, script: Outcome, inspected: bool)

  ghost predicate Gets(w: World, n: nat, a: Answers) {
    && w.script(n).outcome == a.active && w.script(n + 1).outcome == a.enabled
    && w.script(n + 2).outcome == a.script && w.script(n + 2).inspected == a.inspected
  }

  /** On every host, a conflict check that gets these answers and passes is right to pass. */
  ghost predicate RulesOut(a: Answers) {
    forall w: World, r: Run | w.profile.Named? && r.ok && Gets(w, |r.log|, a) ::
      Play(w, ConflictPlan(Named), r).ok ==> Idle(r.host.predecessor)
  }

  /** Some question raised or the script failed, so that nothing passes; or all were answered. */
  predicate Conclusive(a: Answers) {
    || a.active.Raised? || a.enabled.Raised? || !a.script.Done?
    || (a.active.Done? && a.enabled.Done? && a.inspected)
  }

  lemma ConflictRun(w: World, r: Run)
    requires r.ok
    ensures var n, p := |r.log|, r.host.predecessor;
      Play(w, ConflictPlan(Named), r).ok <==>
        && !w.script(n).outcome.Raised? && !w.script(n + 1).outcome.Raised?
        && w.script(n + 2).outcome.Done?
        && (w.script(n).outcome.Done? ==> !p.active)
        && (w.script(n + 1).outcome.Done? ==> !p.enabled)
        && (w.script(n + 2).inspected ==> p.container != Some(true))
  {
    var plan := ConflictPlan(Named);
    assert plan == plan[..3] + [Clear];
    PlaySplit(w, plan[..3], [Clear], r);
    PlayThree(w, plan[..3], r);
    PlayOne(w, Clear, Play(w, plan[..3], r));
  }

  /** A passing check rules out a live predecessor exactly if its answers are conclusive. */
  lemma ConflictCheckGuarantee(a: Answers)
    ensures RulesOut(a) <==> Conclusive(a)
  {
    if Conclusive(a) {
      forall w: World, r: Run | w.profile.Named? && r.ok && Gets(w, |r.log|, a)
        ensures Play(w, ConflictPlan(Named), r).ok ==> Idle(r.host.predecessor)
      {
        ConflictRun(w, r);
      }
    } else {
      LivePredecessorPasses(a);
      assert Gets(AnsweringWorld(a), 0, a);
    }
  }

  function AnsweringWorld(a: Answers): World {
    World(Hashes(_ => "", _ => "", _ => ""), Named,
      (n: nat) => Reply(if n == 0 then a.active else if n == 1 then a.enabled else a.script,
                        a.inspected, BusyHost()))
  }

  /** Whatever went unanswered is up: the service if it was not asked, the container likewise. */
  function LivePredecessor(a: Answers): Host {
    BusyHost().(predecessor := Predecessor(a.active.Refused?, a.enabled.Refused?,
                                           if a.inspected then None else Some(true)))
  }

  /** For all inconclusive answers, a live predecessor the check passes. */
  lemma LivePredecessorPasses(a: Answers)
    requires !Conclusive(a)
    ensures !Idle(LivePredecessor(a).predecessor)
    ensures Play(AnsweringWorld(a), ConflictPlan(Named), Run(LivePredecessor(a), [], true)).ok
  {
    ConflictRun(AnsweringWorld(a), Run(LivePredecessor(a), [], true));
  }

  // ---------------------------------------------------------------- a failure that stops nothing

  /** A host on which this release is staged, installed and running; `conforming` or drifted. */
  function Goal(bundle: Bundle, conforming: bool, pause: string): Host {
    Host(true, true, Some(bundle.unitBytes), Some(bundle.unitBytes), Some(bundle.unitBytes),
         bundle.archiveSha, Some(bundle.configSha), map[bundle.imageId := bundle.releaseSha],
         Some(Container(bundle.imageId, bundle.releaseSha, bundle.policySha, bundle.configSha,
                        bundle.capsule, conforming, true)),
         Some(bundle.configSha), pause, "boot", Predecessor(false, false, None))
  }

  function WorkingWorld(hashes: Hashes, goal: Host): World {
    World(hashes, NoConflict, (n: nat) => Fine(goal))
  }

  predicate WellFormed(hashes: Hashes, bundle: Bundle) {
    bundle.archiveSha.Some? && hashes.unit(bundle.unitBytes) == bundle.unitSha
  }

  lemma SteadyPlans(hashes: Hashes, bundle: Bundle, h: Host, goal: Host)
    requires WellFormed(hashes, bundle)
    requires h == goal.(active := h.active, enabled := h.enabled, container := h.container,
                        liveUnit := h.liveUnit)
    requires goal == Goal(bundle, true, goal.pause) || goal == Goal(bundle, false, goal.pause)
    ensures forall s | s in PREFLIGHT + [Clear, Consent] :: Steady(hashes, s, h, goal)
    ensures !h.active ==> Steady(hashes, Deny(ServiceActive), h, goal)
    ensures forall s | s in ImagePlan(bundle) + ConfigPlan(bundle) :: Steady(hashes, s, h, goal)
    ensures forall s | s in VolumePlan(bundle) :: Steady(hashes, s, h, goal)
    ensures forall s | s in SavedUnitPlan(bundle) + StagedUnitPlan(bundle) ::
      Steady(hashes, s, h, goal)
  {
    SteadyVolumes(hashes, bundle, h, goal);
    hide VolumePlan;
  }

  lemma SteadyVolumes(hashes: Hashes, bundle: Bundle, h: Host, goal: Host)
    requires h.configVolume == goal.configVolume == Some(bundle.configSha)
    requires h.pause == goal.pause
    ensures forall s | s in VolumePlan(bundle) :: Steady(hashes, s, h, goal)
  {
  }

  /** In a working world the preparation and the staging pass and find nothing left to change. */
  lemma SteadyBeforeActivation(
    hashes: Hashes, bundle: Bundle, callback: bool, h: Host, goal: Host)
    requires WellFormed(hashes, bundle)
    requires h == goal.(active := false, enabled := false, container := None)
    requires goal == Goal(bundle, true, goal.pause) || goal == Goal(bundle, false, goal.pause)
    ensures var b := BeforeActivation(WorkingWorld(hashes, goal), bundle, callback, Run(h, [], true));
      b.ok && b.host == h
  {
    hide Steady, Play, Perform, ImagePlan, ConfigPlan, VolumePlan, SavedUnitPlan, StagedUnitPlan;
    var w := WorkingWorld(hashes, goal);
    SteadyPlans(hashes, bundle, h, goal);
    var a := Run(h, [], true);
    SteadyRun(w, PREFLIGHT, a, goal);
    var b := Play(w, PREFLIGHT, a);
    SteadyRun(w, [Clear], b, goal);
    var c := Play(w, [Clear], b);
    SteadyRun(w, [Deny(ServiceActive)], c, goal);
    var d := Play(w, [Deny(ServiceActive)], c);
    AbsentContainer(w, bundle, d);
    var checks := Leftover(w, bundle, d);
    assert checks == FirstChecks(w, bundle, a);
    SteadyRun(w, [Consent], checks, goal);
    SteadyRun(w, [Clear], Play(w, [Consent], checks), goal);
    var prepared := Prepare(w, bundle, callback, a);
    assert prepared.ok && prepared.host == h;
    SteadyRun(w, ImagePlan(bundle), prepared, goal);
    var imaged := Play(w, ImagePlan(bundle), prepared);
    SteadyRun(w, ConfigPlan(bundle), imaged, goal);
    var configured := Play(w, ConfigPlan(bundle), imaged);
    SteadyRun(w, VolumePlan(bundle), configured, goal);
    var filled := Play(w, VolumePlan(bundle), configured);
    SteadyRun(w, SavedUnitPlan(bundle), filled, goal);
    SteadyRun(w, StagedUnitPlan(bundle), Play(w, SavedUnitPlan(bundle), filled), goal);
  }

  lemma AbsentContainer(w: World, bundle: Bundle, r: Run)
    requires r.ok && r.host.container.None? && w.script(|r.log|).outcome.Done?
    ensures Leftover(w, bundle, r).ok && Leftover(w, bundle, r).host == r.host
  {
  }

  /** Activation in a working world ends with the service as that world has it. */
  lemma GoalActivated(w: World, r: Run, goal: Host)
    requires r.ok
    requires forall n | |r.log| <= n < |r.log| + 3 :: w.script(n) == Fine(goal)
    ensures var a := Play(w, ACTIVATION, r);
      && a.ok && |a.log| == |r.log| + 3
      && a.host == r.host.(liveUnit := r.host.nextUnit, nextUnit := None, active := goal.active,
                           enabled := goal.enabled, container := goal.container,
                           pause := goal.pause)
      && Activate(w, r) == a
  {
    PlayThree(w, ACTIVATION, r);
  }

  /**
   A deployment in which every command works passes exactly if the container it started conforms.
   With a drifted one it fails and stops nothing: service and container stay up.
   */
  lemma DriftedContainerStaysUp(
    hashes: Hashes, bundle: Bundle, callback: bool, conforming: bool, pause: string)
    requires WellFormed(hashes, bundle)
    ensures var goal := Goal(bundle, conforming, pause);
      var w := WorkingWorld(hashes, goal);
      var start := Run(goal.(active := false, enabled := false, container := None), [], true);
      var end := Deployment.Deploy(w, bundle, callback, start);
      && Extends(start, end)
      && (end.ok <==> conforming)
      && end.host.active && end.host.enabled && end.host.container == goal.container
      && end.host.container.value.running
      && !Issued(Since(start, end), DisableService) && !Issued(Since(start, end), StopContainer)
      && !Issued(Since(start, end), RetireUnit)
  {
    hide BeforeActivation, Play, Activate;
    var goal := Goal(bundle, conforming, pause);
    var w := WorkingWorld(hashes, goal);
    var h := goal.(active := false, enabled := false, container := None);
    var before := BeforeActivation(w, bundle, callback, Run(h, [], true));
    SteadyBeforeActivation(hashes, bundle, callback, h, goal);
    GoalActivated(w, before, goal);
    ForcedStopExactly(w, bundle, callback, Run(h, [], true));
    var up := Activate(w, before);
    RunningMeans(w, bundle, up);
    if conforming { SteadyRun(w, RunningPlan(bundle), up, goal); }
  }

  // ---------------------------------------------------------------- a stop that is not sent

  /** Works, except that the runner raises at event k. */
  function RaisingWorld(hashes: Hashes, goal: Host, k: nat): World {
    World(hashes, NoConflict, (n: nat) => if n == k then Reply(Raised, true, goal) else Fine(goal))
  }

  /** A rolled-back release, about to be redeployed. */
  function RolledBack(bundle: Bundle, pause: string): Host {
    var h := Goal(bundle, true, pause);
    h.(active := false, enabled := false, liveUnit := None,
       container := Some(h.container.value.(running := false)))
  }

  /** Sixteen events later the service is up with the other pause digest, and nothing was stopped. */
  lemma RestartedOnOtherPause(hashes: Hashes, bundle: Bundle, pause: string, other: string)
    requires WellFormed(hashes, bundle)
    ensures var start := Run(RolledBack(bundle, pause), [], true);
      var w := RaisingWorld(hashes, Goal(bundle, true, other), 16);
      var up := Restarted(w, bundle, start);
      && up.ok && |up.log| == 16 && Running(up.host, bundle) && up.host.pause == other
      && Extends(start, up) && !Issued(Since(start, up), StopContainer)
  {
    hide Play, Activate, Steady;
    var goal := Goal(bundle, true, other);
    var w := RaisingWorld(hashes, goal, 16);
    var start := Run(RolledBack(bundle, pause), [], true);
    SteadyRestart(hashes, bundle, start.host, goal);
    var fit := Play(w, PREFLIGHT, start);
    SteadyRun(w, PREFLIGHT, start, goal);
    var ready := Play(w, RedeployPlan(bundle), fit);
    SteadyRun(w, RedeployPlan(bundle), fit, goal);
    var staged := Play(w, StagedUnitPlan(bundle), ready);
    SteadyRun(w, StagedUnitPlan(bundle), ready, goal);
    var activated := Play(w, ACTIVATION, staged);
    GoalActivated(w, staged, goal);
    var up := Play(w, RunningPlan(bundle), activated);
    SteadyRunning(hashes, bundle, activated.host, goal);
    SteadyRun(w, RunningPlan(bundle), activated, goal);
    RestartStopsNothing(w, bundle, start);
  }

  /** A restart that gets through has not stopped the container on the way. */
  lemma RestartStopsNothing(w: World, bundle: Bundle, r: Run)
    requires Restarted(w, bundle, r).ok
    ensures Extends(r, Restarted(w, bundle, r))
    ensures !Issued(Since(r, Restarted(w, bundle, r)), StopContainer)
  {
    hide Play, Perform, Issued, Extends;
    var fit := Play(w, PREFLIGHT, r);
    PlayAvoids(w, PREFLIGHT, StopContainer, r);
    var ready := Play(w, RedeployPlan(bundle), fit);
    PlayAvoids(w, RedeployPlan(bundle), StopContainer, fit);
    IssuedJoins(r, fit, ready, StopContainer);
    var staged := Play(w, StagedUnitPlan(bundle), ready);
    PlayAvoids(w, StagedUnitPlan(bundle), StopContainer, ready);
    IssuedJoins(r, ready, staged, StopContainer);
    var activated := Play(w, ACTIVATION, staged);
    PlayAvoids(w, ACTIVATION, StopContainer, staged);
    IssuedJoins(r, staged, activated, StopContainer);
    var up := Play(w, RunningPlan(bundle), activated);
    PlayAvoids(w, RunningPlan(bundle), StopContainer, activated);
    IssuedJoins(r, activated, up, StopContainer);
    PlayExtends(w, RunningPlan(bundle), Activate(w, staged));
    PlayExtends(w, StagedUnitPlan(bundle), ready);
    assert Activate(w, staged) == activated;
  }

  lemma SteadyRestart(hashes: Hashes, bundle: Bundle, h: Host, goal: Host)
    requires WellFormed(hashes, bundle)
    requires goal == Goal(bundle, true, goal.pause) && h == RolledBack(bundle, h.pause)
    ensures forall s | s in PREFLIGHT :: Steady(hashes, s, h, goal)
    ensures forall s | s in RedeployPlan(bundle) :: Steady(hashes, s, h, goal)
    ensures forall s | s in StagedUnitPlan(bundle) :: Steady(hashes, s, h, goal)
  {
  }

  lemma SteadyRunning(hashes: Hashes, bundle: Bundle, h: Host, goal: Host)
    requires Running(h, bundle)
    ensures forall s | s in RunningPlan(bundle) :: Steady(hashes, s, h, goal)
  {
  }

  /**
   A changed pause digest that is noticed although no stop reaches the container: the runner gives
   up on disabling the service, and the error leaves the forced stop.
   */
  lemma ChangedPauseStaysUp(hashes: Hashes, bundle: Bundle, pause: string, other: string)
    requires WellFormed(hashes, bundle) && hashes.pause(pause) != hashes.pause(other)
    ensures var start := Run(RolledBack(bundle, pause), [], true);
      var receipt := RollbackReceipt(hashes, bundle, start.host, 0);
      var w := RaisingWorld(hashes, Goal(bundle, true, other), 16);
      var end := Deployment.Redeploy(w, bundle, receipt, start);
      && ExpectedPause(hashes, receipt, bundle) == Some(hashes.pause(pause))
      && Restarted(w, bundle, start).ok && Restarted(w, bundle, start).host.pause == other
      && !end.ok
      && Running(end.host, bundle)
      && Extends(start, end) && !Issued(Since(start, end), StopContainer)
  {
    var goal := Goal(bundle, true, other);
    var w := RaisingWorld(hashes, goal, 16);
    var start := Run(RolledBack(bundle, pause), [], true);
    RestartedOnOtherPause(hashes, bundle, pause, other);
    var up := Restarted(w, bundle, start);
    var receipt := RollbackReceipt(hashes, bundle, start.host, 0);
    var end := Deployment.Redeploy(w, bundle, receipt, start);
    hide Restarted, Running;
    ForcedStopCommands(w, up);
    DisableRaised(w, up, bundle, goal);
    IssuedJoins(start, up, end, StopContainer);
  }

  lemma DisableRaised(w: World, r: Run, bundle: Bundle, goal: Host)
    requires r.ok && w.script(|r.log|) == Reply(Raised, true, goal)
    requires Running(goal, bundle)
    ensures Running(Play(w, FORCED_STOP, r).host, bundle)
  {
    PlayThree(w, FORCED_STOP, r);
  }
}
