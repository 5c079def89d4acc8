/**
 Exactly which answers let an action of the deploy controller go on, and exactly which commands it
 issues, in which order.
 */
module DeploymentOrder {
  import opened Text
  import opened Deployment
  import opened DeploymentRuns
  import opened DeploymentSafety
  import opened DeploymentLimits

  // ---------------------------------------------------------------- commands in order

  function Mutations(t: seq<Event>): seq<Mutation> {
    if t == [] then []
    else (if t[0].Mutated? then [t[0].mutation] else []) + Mutations(t[1..])
  }

  function Planned(steps: seq<Step>): seq<Mutation> {
    if steps == [] then []
    else (if Changes(steps[0]) then [steps[0].mutation] else []) + Planned(steps[1..])
  }

  lemma {:induction false} MutationsJoin(a: seq<Event>, b: seq<Event>)
    ensures Mutations(a + b) == Mutations(a) + Mutations(b)
  {
    if a == [] {
      assert a + b == b;
    } else {
      MutationsJoin(a[1..], b);
      assert (a + b)[1..] == a[1..] + b;
    }
  }

  /** Between two points of a run the commands issued are those of the plan, up to a failure. */
  ghost predicate Issues(a: Run, b: Run, planned: seq<Mutation>) {
    && Extends(a, b)
    && Mutations(Since(a, b)) <= planned
    && (b.ok ==> Mutations(Since(a, b)) == planned)
    && (!a.ok ==> b == a)
  }

  lemma {:induction false} PlayIssues(w: World, steps: seq<Step>, r: Run)
    ensures Issues(r, Play(w, steps, r), Planned(steps))
  {
    assert Mutations([]) == [];
    if r.ok && steps != [] {
      var next, end := Perform(w, steps[0], r), Play(w, steps, r);
      PlayIssues(w, steps[1..], next);
      SinceJoins(r, next, end);
      MutationsJoin(Since(r, next), Since(next, end));
      StepIssues(w, steps[0], r);
      if !next.ok { assert end == next && Since(next, end) == []; }
      assert Planned(steps) == (if Changes(steps[0]) then [steps[0].mutation] else []) + Planned(steps[1..]);
    }
  }

  lemma StepIssues(w: World, s: Step, r: Run)
    requires r.ok
    ensures Extends(r, Perform(w, s, r))
    ensures Mutations(Since(r, Perform(w, s, r))) == if Changes(s) then [s.mutation] else []
  {
    var t := Since(r, Perform(w, s, r));
    assert |t| <= 1;
    if |t| == 1 { assert t[1..] == []; }
  }

  lemma IssuesJoin(a: Run, b: Run, c: Run, p: seq<Mutation>, q: seq<Mutation>)
    requires Issues(a, b, p) && Issues(b, c, q)
    ensures Issues(a, c, p + q)
  {
    SinceJoins(a, b, c);
    MutationsJoin(Since(a, b), Since(b, c));
    assert Mutations([]) == [];
    if !b.ok { assert Since(b, c) == []; }
  }

  lemma QuietlyIssues(a: Run, b: Run)
    requires Quietly(a, b) && (!a.ok ==> b == a)
    ensures Issues(a, b, [])
  {
    NothingMutated(Since(a, b));
  }

  lemma {:induction false} NothingMutated(t: seq<Event>)
    requires NoMutation(t)
    ensures Mutations(t) == []
  {
    if t != [] {
      assert t[0] in t;
      NothingMutated(t[1..]);
    }
  }

  /** Every command that changes the host before the unit is live. */
  function StagingCommands(bundle: Bundle): seq<Mutation> {
    [MakeDirectories, TransferArchive, LoadImage, TransferConfig, ProtectConfig]
    + (if bundle.capsule.None? then
         [CreateRuntimeVolume, CreateConfigVolume, InitializeVolumes]
       else
         [MakeCapsuleDirectory, TransferCapsuleObject, TransferCapsuleObject, SealCapsule,
          CreateRuntimeVolume, CreateConfigVolume, InitializeFromCapsule(bundle.configSha),
          CleanCapsule])
    + [SaveUnit, ProtectUnit]
  }

  lemma StageIssues(w: World, bundle: Bundle, r: Run)
    requires bundle.archiveSha.Some?
    ensures Issues(r, Stage(w, bundle, r), StagingCommands(bundle))
  {
    hide Issues, Play;
    var imaged := Play(w, ImagePlan(bundle), r);
    var configured := Play(w, ConfigPlan(bundle), imaged);
    var filled := Play(w, VolumePlan(bundle), configured);
    PlayIssues(w, ImagePlan(bundle), r);
    PlayIssues(w, ConfigPlan(bundle), imaged);
    PlayIssues(w, VolumePlan(bundle), configured);
    PlayIssues(w, SavedUnitPlan(bundle), filled);
    StagingPlanned(bundle);
    hide Planned, ImagePlan, ConfigPlan, VolumePlan, SavedUnitPlan;
    var a, b := Planned(ImagePlan(bundle)), Planned(ConfigPlan(bundle));
    var c, d := Planned(VolumePlan(bundle)), Planned(SavedUnitPlan(bundle));
    IssuesJoin(r, imaged, configured, a, b);
    IssuesJoin(r, configured, filled, a + b, c);
    IssuesJoin(r, filled, Stage(w, bundle, r), a + b + c, d);
  }

  function PlannedAt(steps: seq<Step>, i: nat): seq<Mutation> {
    if i < |steps| && Changes(steps[i]) then [steps[i].mutation] else []
  }

  function Rest(steps: seq<Step>, i: nat): seq<Mutation> {
    if i <= |steps| then Planned(steps[i..]) else []
  }

  lemma PlannedFrom(steps: seq<Step>, i: nat)
    ensures Rest(steps, i) == PlannedAt(steps, i) + Rest(steps, i + 1)
  {
    if i < |steps| { assert steps[i..][1..] == steps[i + 1..]; }
  }

  lemma RestEnds(steps: seq<Step>)
    requires |steps| <= 8
    ensures Rest(steps, 0) == Planned(steps) && Rest(steps, 8) == []
  {
    assert steps[0..] == steps;
  }

  lemma PlannedFour(steps: seq<Step>, i: nat)
    ensures Rest(steps, i) == PlannedAt(steps, i) + (PlannedAt(steps, i + 1)
      + (PlannedAt(steps, i + 2) + (PlannedAt(steps, i + 3) + Rest(steps, i + 4))))
  {
    hide Rest, PlannedAt;
    PlannedFrom(steps, i);
    PlannedFrom(steps, i + 1);
    PlannedFrom(steps, i + 2);
    PlannedFrom(steps, i + 3);
  }

  /** No plan has more than eight steps. */
  lemma PlannedUpToEight(steps: seq<Step>)
    requires |steps| <= 8
    ensures Planned(steps)
      == PlannedAt(steps, 0) + (PlannedAt(steps, 1) + (PlannedAt(steps, 2) + (PlannedAt(steps, 3)
       + (PlannedAt(steps, 4) + (PlannedAt(steps, 5) + (PlannedAt(steps, 6) + (PlannedAt(steps, 7) + [])))))))
  {
    RestEnds(steps);
    hide Planned, PlannedAt, Rest;
    PlannedFour(steps, 0);
    PlannedFour(steps, 4);
  }

  lemma StagingPlanned(bundle: Bundle)
    requires bundle.archiveSha.Some?
    ensures Planned(ImagePlan(bundle)) + Planned(ConfigPlan(bundle)) + Planned(VolumePlan(bundle))
      + Planned(SavedUnitPlan(bundle)) == StagingCommands(bundle)
  {
    ImagePlanned(bundle);
    VolumesPlanned(bundle);
    SavedPlanned(bundle);
    hide Planned, ImagePlan, ConfigPlan, VolumePlan, SavedUnitPlan;
    assert [MakeDirectories, TransferArchive, LoadImage] + [TransferConfig, ProtectConfig]
      == [MakeDirectories, TransferArchive, LoadImage, TransferConfig, ProtectConfig];
  }

  lemma ImagePlanned(bundle: Bundle)
    requires bundle.archiveSha.Some?
    ensures Planned(ImagePlan(bundle)) == [MakeDirectories, TransferArchive, LoadImage]
    ensures Planned(ConfigPlan(bundle)) == [TransferConfig, ProtectConfig]
  {
    hide Planned;
    PlannedUpToEight(ImagePlan(bundle));
    PlannedUpToEight(ConfigPlan(bundle));
  }

  lemma VolumesPlanned(bundle: Bundle)
    ensures Planned(VolumePlan(bundle)) ==
      if bundle.capsule.None? then
        [CreateRuntimeVolume, CreateConfigVolume, InitializeVolumes]
      else
        [MakeCapsuleDirectory, TransferCapsuleObject, TransferCapsuleObject, SealCapsule,
         CreateRuntimeVolume, CreateConfigVolume, InitializeFromCapsule(bundle.configSha),
         CleanCapsule]
  {
    hide Planned;
    PlannedUpToEight(VolumePlan(bundle));
  }

  lemma SavedPlanned(bundle: Bundle)
    ensures Planned(SavedUnitPlan(bundle)) == [SaveUnit, ProtectUnit]
    ensures Planned(StagedUnitPlan(bundle)) == [StageUnit]
    ensures Planned(ACTIVATION) == [MoveUnit, ReloadDaemon, EnableService]
    ensures Planned(RunningPlan(bundle)) == []
  {
    hide Planned;
    PlannedUpToEight(SavedUnitPlan(bundle));
    PlannedUpToEight(StagedUnitPlan(bundle));
    PlannedUpToEight(ACTIVATION);
    PlannedUpToEight(RunningPlan(bundle));
  }

  lemma StopPlanned(bundle: Bundle)
    ensures Planned(RollbackPlan(bundle)) == [DisableService, StopContainer, RetireUnit]
    ensures Planned(PREFLIGHT) == [] && Planned(RedeployPlan(bundle)) == []
  {
    hide Planned;
    PlannedUpToEight(RollbackPlan(bundle));
    PlannedUpToEight(PREFLIGHT);
    PlannedUpToEight(RedeployPlan(bundle));
  }

  /** A deployment without a forced stop issues the staging and activation commands, in order. */
  lemma DeployIssuesInOrder(w: World, bundle: Bundle, callback: bool, r: Run)
    requires bundle.archiveSha.Some?
    requires var before := BeforeActivation(w, bundle, callback, r);
      before.ok ==> ActivationDone(w, |before.log|)
    ensures Issues(r, Deployment.Deploy(w, bundle, callback, r),
      StagingCommands(bundle) + [StageUnit, MoveUnit, ReloadDaemon, EnableService])
  {
    hide Issues, Play, Prepare, Stage, ActivationDone, StagingCommands;
    var prepared := Prepare(w, bundle, callback, r);
    var staged := Stage(w, bundle, prepared);
    var before := BeforeActivation(w, bundle, callback, r);
    var activated := Activate(w, before);
    PrepareIssues(w, bundle, callback, r);
    StageIssues(w, bundle, prepared);
    SavedPlanned(bundle);
    PlayIssues(w, StagedUnitPlan(bundle), staged);
    ActivateStops(w, before);
    PlayIssues(w, ACTIVATION, before);
    PlayIssues(w, RunningPlan(bundle), activated);
    assert activated == Play(w, ACTIVATION, before) by {
      if !before.ok { PlayFailed(w, ACTIVATION, before); }
    }
    hide Activate;
    var p := StagingCommands(bundle);
    IssuesJoin(r, prepared, staged, [], p);
    IssuesJoin(r, staged, before, [] + p, [StageUnit]);
    IssuesJoin(r, before, activated, [] + p + [StageUnit], [MoveUnit, ReloadDaemon, EnableService]);
    IssuesJoin(r, activated, Deployment.Deploy(w, bundle, callback, r),
      [] + p + [StageUnit] + [MoveUnit, ReloadDaemon, EnableService], []);
    InOrder(p);
  }

  lemma InOrder(p: seq<Mutation>)
    ensures [] + p + [StageUnit] + [MoveUnit, ReloadDaemon, EnableService] + []
      == p + [StageUnit, MoveUnit, ReloadDaemon, EnableService]
  {
  }

  lemma PlayFailed(w: World, steps: seq<Step>, r: Run)
    requires !r.ok
    ensures Play(w, steps, r) == r
  {
  }

  lemma PrepareIssues(w: World, bundle: Bundle, callback: bool, r: Run)
    ensures Issues(r, Prepare(w, bundle, callback, r), [])
  {
    hide Issues, Quietly;
    var checks := FirstChecks(w, bundle, r);
    FirstChecksAreQuiet(w, bundle, r);
    if !r.ok { ChecksFailed(w, bundle, r); }
    QuietlyIssues(r, checks);
    if callback {
      var asked := Play(w, [Consent], checks);
      PlayIssues(w, [Consent], checks);
      ConsentPlanned();
      var second := Play(w, ConflictPlan(w.profile), asked);
      ConflictCheckIsQuiet(w, asked);
      if !asked.ok { PlayFailed(w, ConflictPlan(w.profile), asked); }
      QuietlyIssues(asked, second);
      IssuesJoin(r, checks, asked, [], []);
      IssuesJoin(r, asked, second, [] + [], []);
    }
  }

  lemma ConsentPlanned()
    ensures Planned([Consent]) == []
  {
    assert [Consent][1..] == [];
  }

  lemma ChecksFailed(w: World, bundle: Bundle, r: Run)
    requires !r.ok
    ensures FirstChecks(w, bundle, r) == r
  {
  }

  /** A rollback issues disable, stop and retire, in order and up to a failure. */
  lemma RollbackIssuesInOrder(w: World, bundle: Bundle, r: Run)
    ensures Issues(r, Deployment.Rollback(w, bundle, r), [DisableService, StopContainer, RetireUnit])
  {
    hide Issues, Play;
    StopPlanned(bundle);
    SavedPlanned(bundle);
    var fit := Play(w, PREFLIGHT, r);
    var seen := Verified(w, bundle, r);
    PlayIssues(w, PREFLIGHT, r);
    PlayIssues(w, RunningPlan(bundle), fit);
    PlayIssues(w, RollbackPlan(bundle), seen);
    IssuesJoin(r, fit, seen, [], []);
    IssuesJoin(r, seen, Deployment.Rollback(w, bundle, r), [] + [],
      [DisableService, StopContainer, RetireUnit]);
    assert [] + [] + [DisableService, StopContainer, RetireUnit]
      == [DisableService, StopContainer, RetireUnit];
  }

  /** So does a passing redeployment with its own four commands; before them it changes nothing. */
  lemma RedeployIssuesInOrder(w: World, bundle: Bundle, parent: Receipt, r: Run)
    requires Deployment.Redeploy(w, bundle, parent, r).ok
    ensures Issues(r, Deployment.Redeploy(w, bundle, parent, r),
      [StageUnit, MoveUnit, ReloadDaemon, EnableService])
  {
    hide Issues, Play;
    StopPlanned(bundle);
    SavedPlanned(bundle);
    var fit := Play(w, PREFLIGHT, r);
    var ready := Play(w, RedeployPlan(bundle), fit);
    var staged := Play(w, StagedUnitPlan(bundle), ready);
    var activated := Activate(w, staged);
    var up := Restarted(w, bundle, r);
    PlayIssues(w, PREFLIGHT, r);
    PlayIssues(w, RedeployPlan(bundle), fit);
    PlayIssues(w, StagedUnitPlan(bundle), ready);
    PlayIssues(w, ACTIVATION, staged);
    PlayIssues(w, RunningPlan(bundle), activated);
    PlayExtends(w, RunningPlan(bundle), activated);
    IssuesJoin(r, fit, ready, [], []);
    IssuesJoin(r, ready, staged, [] + [], [StageUnit]);
    IssuesJoin(r, staged, activated, [] + [] + [StageUnit], [MoveUnit, ReloadDaemon, EnableService]);
    IssuesJoin(r, activated, up,
      [] + [] + [StageUnit] + [MoveUnit, ReloadDaemon, EnableService], []);
    assert [] + [] + [StageUnit] + [MoveUnit, ReloadDaemon, EnableService] + []
      == [StageUnit, MoveUnit, ReloadDaemon, EnableService];
  }

  // ---------------------------------------------------------------- what lets a deployment begin

  lemma {:induction false} PlayLength(w: World, steps: seq<Step>, r: Run)
    requires Play(w, steps, r).ok
    ensures |Play(w, steps, r).log| == |r.log| + |steps|
  {
    if steps != [] {
      PlayExtends(w, steps[1..], Perform(w, steps[0], r));
      PlayLength(w, steps[1..], Perform(w, steps[0], r));
    }
  }

  /** The three preflight questions, from event n on, are answered. */
  predicate Preflighted(w: World, n: nat) {
    && w.script(n).outcome.Done? && w.script(n + 1).outcome.Done?
    && w.script(n + 2).outcome.Done?
  }

  lemma PreflightExactly(w: World, r: Run)
    requires r.ok
    ensures Play(w, PREFLIGHT, r).ok <==> Preflighted(w, |r.log|)
    ensures Play(w, PREFLIGHT, r).host == r.host
    ensures Play(w, PREFLIGHT, r).ok ==> |Play(w, PREFLIGHT, r).log| == |r.log| + 3
  {
    PlayThree(w, PREFLIGHT, r);
  }

  /** The conflict check, from event n on, passes on this predecessor. */
  predicate ConflictsPass(w: World, n: nat, p: Predecessor) {
    match w.profile
    case NoConflict => true
    case Incomplete => false
    case Named =>
      && !w.script(n).outcome.Raised? && (w.script(n).outcome.Done? ==> !p.active)
      && !w.script(n + 1).outcome.Raised? && (w.script(n + 1).outcome.Done? ==> !p.enabled)
      && w.script(n + 2).outcome.Done?
      && (w.script(n + 2).inspected ==> p.container != Some(true))
  }

  function ConflictEvents(profile: Profile): nat {
    match profile case NoConflict => 1 case Named => 4 case Incomplete => 0
  }

  lemma ConflictExactly(w: World, r: Run)
    requires r.ok
    ensures var end := Play(w, ConflictPlan(w.profile), r);
      && (end.ok <==> ConflictsPass(w, |r.log|, r.host.predecessor))
      && end.host == r.host
      && (end.ok ==> |end.log| == |r.log| + ConflictEvents(w.profile))
  {
    ConflictCheckIsQuiet(w, r);
    if Play(w, ConflictPlan(w.profile), r).ok { PlayLength(w, ConflictPlan(w.profile), r); }
    match w.profile {
      case NoConflict => PlayOne(w, Clear, r);
      case Incomplete => PlayOne(w, Refuse, r);
      case Named => ConflictRun(w, r);
    }
  }

  /** A quiet question about the service, at event n, does not find it active. */
  predicate NotSeenActive(w: World, n: nat, h: Host) {
    w.script(n).outcome.Refused? || (w.script(n).outcome.Done? && !h.active)
  }

  /** The stopped container of exactly this release. */
  predicate OwnStopped(h: Host, bundle: Bundle) {
    && h.container.Some?
    && var c := h.container.value;
    && c.image == bundle.imageId && c.releaseSha == bundle.releaseSha
    && c.policySha == bundle.policySha && c.configSha == bundle.configSha
    && c.capsule == bundle.capsule && c.conforming && !c.running
  }

  /**
   The question about an existing container, at event n, lets the deployment go on: it is refused,
   or there is none, or it is this release's, stopped, and confirmed by a second inspection.
   */
  predicate LeftoverPasses(w: World, n: nat, h: Host, bundle: Bundle) {
    || w.script(n).outcome.Refused?
    || (w.script(n).outcome.Done? && h.container.None?)
    || (w.script(n).outcome.Done? && OwnStopped(h, bundle) && w.script(n + 1).outcome.Done?)
  }

  lemma LeftoverExactly(w: World, bundle: Bundle, r: Run)
    requires r.ok
    ensures Leftover(w, bundle, r).ok <==> LeftoverPasses(w, |r.log|, r.host, bundle)
    ensures Leftover(w, bundle, r).host == r.host
  {
  }

  /** The checks of `deploy` pass exactly if preflight, conflicts, service and container do. */
  lemma FirstChecksExactly(w: World, bundle: Bundle, r: Run)
    requires r.ok
    ensures FirstChecks(w, bundle, r).ok <==>
      var n, h := |r.log|, r.host;
      var k := n + 3 + ConflictEvents(w.profile);
      && Preflighted(w, n) && ConflictsPass(w, n + 3, h.predecessor)
      && NotSeenActive(w, k, h) && LeftoverPasses(w, k + 1, h, bundle)
    ensures FirstChecks(w, bundle, r).host == r.host
  {
    hide Play, Preflighted, ConflictsPass, LeftoverPasses, Leftover;
    var fit := Play(w, PREFLIGHT, r);
    PreflightExactly(w, r);
    var clear := Play(w, ConflictPlan(w.profile), fit);
    var quiet := Play(w, [Deny(ServiceActive)], clear);
    PlayOne(w, Deny(ServiceActive), clear);
    if fit.ok {
      ConflictExactly(w, fit);
      if clear.ok {
        if quiet.ok { LeftoverExactly(w, bundle, quiet); }
      }
    } else {
      PlayFailed(w, ConflictPlan(w.profile), fit);
    }
    LeftoverFailed(w, bundle, quiet);
  }

  lemma LeftoverFailed(w: World, bundle: Bundle, r: Run)
    ensures !r.ok ==> Leftover(w, bundle, r) == r
  {
  }

  /** With a callback, its acceptance and a second conflict check come on top. */
  lemma PreparationExactly(w: World, bundle: Bundle, callback: bool, r: Run)
    ensures var checks := FirstChecks(w, bundle, r);
      var n := |checks.log|;
      Prepare(w, bundle, callback, r).ok <==>
        checks.ok && (callback ==>
          w.script(n).outcome.Done? && ConflictsPass(w, n + 1, checks.host.predecessor))
  {
    hide Play, FirstChecks, ConflictsPass;
    var checks := FirstChecks(w, bundle, r);
    PlayOne(w, Consent, checks);
    var asked := Play(w, [Consent], checks);
    if asked.ok { ConflictExactly(w, asked); } else { PlayFailed(w, ConflictPlan(w.profile), asked); }
  }

  /**
   A deployment whose question about an existing container is answered, while the host holds a
   container of another release or a running one, fails without having changed anything.
   */
  lemma ForeignContainerStops(w: World, bundle: Bundle, callback: bool, r: Run)
    requires r.ok && r.host.container.Some? && !OwnStopped(r.host, bundle)
    requires w.script(|r.log| + 4 + ConflictEvents(w.profile)).outcome.Done?
    ensures var end := Deployment.Deploy(w, bundle, callback, r);
      !end.ok && end.host == r.host && Extends(r, end) && Silent(Since(r, end))
  {
    hide Silent, ConflictsPass, Preflighted, OwnStopped;
    FirstChecksExactly(w, bundle, r);
    var checks := FirstChecks(w, bundle, r);
    FirstChecksAreQuiet(w, bundle, r);
    hide FirstChecks;
    assert !checks.ok;
    WorkIsUnasked(w, bundle, checks);
    NotPrepared(w, bundle, callback, r);
  }

  lemma NotPrepared(w: World, bundle: Bundle, callback: bool, r: Run)
    requires !FirstChecks(w, bundle, r).ok
    ensures Prepare(w, bundle, callback, r) == FirstChecks(w, bundle, r)
  {
    hide FirstChecks;
  }

  // ---------------------------------------------------------------- what lets the others go on

  /** A redeployment goes on exactly on a stopped host that holds its unit, image and container. */
  lemma RedeployReadyExactly(w: World, bundle: Bundle, r: Run)
    requires r.ok
    ensures var n, h := |r.log|, r.host;
      Play(w, RedeployPlan(bundle), r).ok <==>
        && NotSeenActive(w, n, h)
        && w.script(n + 1).outcome.Done? && h.savedUnit.Some?
        && w.hashes.unit(h.savedUnit.value) == bundle.unitSha
        && w.script(n + 2).outcome.Done?
        && bundle.imageId in h.images && h.images[bundle.imageId] == bundle.releaseSha
        && w.script(n + 3).outcome.Done? && OwnStopped(h, bundle)
  {
    var plan := RedeployPlan(bundle);
    assert plan == plan[..3] + [plan[3]];
    PlaySplit(w, plan[..3], [plan[3]], r);
    PlayThree(w, plan[..3], r);
    hide Play, Perform;
    var a := Perform(w, plan[0], r);
    var b := Perform(w, plan[1], a);
    var c := Perform(w, plan[2], b);
    PlayOne(w, plan[3], c);
    DenyPasses(w, r);
    DemandPasses(w, SavedUnitIs(bundle.unitSha), a);
    DemandPasses(w, ImageIs(bundle.imageId, bundle.releaseSha), b);
    DemandPasses(w, ContainerIs(bundle, false), c);
  }

  lemma DenyPasses(w: World, r: Run)
    ensures var a := Perform(w, Deny(ServiceActive), r);
      && (a.ok <==> r.ok && NotSeenActive(w, |r.log|, r.host))
      && a.host == r.host && (a.ok ==> |a.log| == |r.log| + 1)
  {
  }

  lemma DemandPasses(w: World, f: Fact, r: Run)
    requires !f.PredecessorNotRunning?
    ensures var a := Perform(w, Demand(f), r);
      && (a.ok <==> r.ok && w.script(|r.log|).outcome.Done? && Holds(w.hashes, r.host, f))
      && a.host == r.host && (a.ok ==> |a.log| == |r.log| + 1)
  {
    hide Holds;
  }

  /** The service is verified exactly if it is up with this release and all questions are answered. */
  lemma RunningExactly(w: World, bundle: Bundle, r: Run)
    requires r.ok
    ensures var n := |r.log|;
      Play(w, RunningPlan(bundle), r).ok <==>
        && Running(r.host, bundle)
        && w.script(n).outcome.Done? && w.script(n + 1).outcome.Done?
        && w.script(n + 2).outcome.Done? && w.script(n + 3).outcome.Done?
  {
    var plan := RunningPlan(bundle);
    assert plan == plan[..3] + [plan[3]];
    PlaySplit(w, plan[..3], [plan[3]], r);
    PlayThree(w, plan[..3], r);
    hide Play, Perform;
    var a := Perform(w, plan[0], r);
    var b := Perform(w, plan[1], a);
    var c := Perform(w, plan[2], b);
    PlayOne(w, plan[3], c);
    DemandPasses(w, ServiceActive, r);
    DemandPasses(w, ServiceEnabled, a);
    DemandPasses(w, ContainerIs(bundle, true), b);
    DemandPasses(w, PauseState, c);
  }

  /** Rollback, boundary and redeployment ask the preflight questions first and need the answers. */
  lemma WithoutPreflightNothingPasses(w: World, bundle: Bundle, receipt: Receipt, r: Run)
    requires r.ok && !Preflighted(w, |r.log|)
    ensures !Deployment.Rollback(w, bundle, r).ok && Deployment.Rollback(w, bundle, r).host == r.host
    ensures !Deployment.RebootBoundary(w, bundle, r).ok
    ensures !Deployment.VerifyReboot(w, bundle, receipt, r).ok
    ensures !Deployment.Redeploy(w, bundle, receipt, r).ok
    ensures Deployment.Redeploy(w, bundle, receipt, r).host == r.host
  {
    hide Play, Preflighted;
    PreflightExactly(w, r);
    var fit := Play(w, PREFLIGHT, r);
    PlaySplit(w, PREFLIGHT, [Demand(BootIdentity)], r);
    PlayFailed(w, RunningPlan(bundle), fit);
    PlayFailed(w, RollbackPlan(bundle), fit);
    PlayFailed(w, [Demand(BootIdentity)], fit);
    PlayFailed(w, RedeployPlan(bundle), fit);
    PlayFailed(w, StagedUnitPlan(bundle), fit);
    PlayFailed(w, ACTIVATION, fit);
  }
}
