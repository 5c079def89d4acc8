/** What the actions of the deploy controller guarantee, for every host and every answer. */
module DeploymentSafety {
  import opened Text
  import opened Deployment
  import opened DeploymentRuns

  /** The service runs exactly this release: what a passing verification has seen. */
  predicate Running(h: Host, bundle: Bundle) {
    && h.active && h.enabled
    && h.container.Some? && Matches(h.container.value, bundle) && h.container.value.running
  }

  /** The live unit is the one of this release. */
  predicate Installed(hashes: Hashes, h: Host, bundle: Bundle) {
    UnitIs(hashes, h.liveUnit, bundle.unitSha)
  }

  /** What deployment verified and rollback and redeploy rely on. */
  predicate Kept(hashes: Hashes, h: Host, bundle: Bundle) {
    && h.configVolume == Some(bundle.configSha)
    && UnitIs(hashes, h.savedUnit, bundle.unitSha)
    && bundle.imageId in h.images && h.images[bundle.imageId] == bundle.releaseSha
  }

  predicate Stopped(h: Host) {
    !h.active && !h.enabled && (h.container.Some? ==> !h.container.value.running)
  }

  /** Flags, live unit, container, image, config volume, saved unit and pause digest agree. */
  ghost predicate SameDeployment(hashes: Hashes, a: Host, b: Host, bundle: Bundle) {
    && Same(a, b, Service) && Same(a, b, TheContainer) && Same(a, b, Images)
    && Same(a, b, ConfigVolume) && Same(a, b, SavedUnit)
    && hashes.pause(a.pause) == hashes.pause(b.pause)
    && Installed(hashes, a, bundle) && Installed(hashes, b, bundle)
  }

  // ---------------------------------------------------------------- safe traces

  ghost predicate ClearedBetween(t: seq<Event>, low: int, high: int) {
    exists c :: low < c < high && 0 <= c < |t| && t[c] == ConflictsCleared
  }

  /** An accepted authorization before position i, with a passing conflict check on either side. */
  ghost predicate AuthorizedBefore(t: seq<Event>, i: int) {
    exists a :: 0 <= a < i && a < |t| && t[a] == Authorized(true)
      && ClearedBetween(t, -1, a) && ClearedBetween(t, a, i)
  }

  /**
   The callback runs at most once; with a callback every mutation comes after its accepted result,
   with one passing conflict check before that result and one between it and the mutation.
   */
  ghost predicate SafeTrace(t: seq<Event>, callback: bool) {
    && (forall i, j | 0 <= i < |t| && 0 <= j < |t| && t[i].Authorized? && t[j].Authorized? :: i == j)
    && (!callback ==> NoAuthorization(t))
    && (forall i | 0 <= i < |t| && t[i].Mutated? :: ClearedBetween(t, -1, i))
    && (callback ==> forall i | 0 <= i < |t| && t[i].Mutated? :: AuthorizedBefore(t, i))
  }

  lemma SilentTraceIsSafe(t: seq<Event>, callback: bool)
    requires Silent(t)
    ensures SafeTrace(t, callback)
  {
    assert forall i | 0 <= i < |t| :: t[i] in t;
  }

  /** One authorization between two quiet stretches. */
  lemma AuthorizedOnceIsSafe(checks: seq<Event>, accepted: bool, second: seq<Event>)
    requires Silent(checks) && Silent(second)
    ensures SafeTrace(checks + [Authorized(accepted)] + second, true)
  {
    var t := checks + [Authorized(accepted)] + second;
    assert forall i | 0 <= i < |checks| :: t[i] in checks;
    assert forall i | |checks| < i < |t| :: t[i] in second;
  }

  /** Conflict check, then mutations, without a callback. */
  lemma WorkAfterCheckIsSafe(checks: seq<Event>, work: seq<Event>)
    requires Silent(checks) && ConflictsCleared in checks
    requires NoAuthorization(work)
    ensures SafeTrace(checks + work, false)
  {
    var t := checks + work;
    var c :| 0 <= c < |checks| && checks[c] == ConflictsCleared;
    assert t[c] == ConflictsCleared;
    assert forall i | 0 <= i < |checks| :: t[i] in checks;
  }

  /** Conflict check, accepted callback, second conflict check, then mutations. */
  lemma WorkAfterAuthorizationIsSafe(checks: seq<Event>, second: seq<Event>, work: seq<Event>)
    requires Silent(checks) && ConflictsCleared in checks
    requires Silent(second) && ConflictsCleared in second
    requires NoAuthorization(work)
    ensures SafeTrace(checks + [Authorized(true)] + second + work, true)
  {
    var t := checks + [Authorized(true)] + second + work;
    var a := |checks|;
    var b := a + 1 + |second|;
    var c :| 0 <= c < |checks| && checks[c] == ConflictsCleared;
    var d :| 0 <= d < |second| && second[d] == ConflictsCleared;
    assert t[c] == ConflictsCleared && t[a] == Authorized(true);
    assert t[a + 1 + d] == ConflictsCleared;
    assert forall i | 0 <= i < a :: t[i] in checks;
    assert forall i | a < i < b :: t[i] in second;
    assert forall i | b <= i < |t| :: t[i] in work;
    forall i | 0 <= i < |t| && t[i].Mutated?
      ensures ClearedBetween(t, -1, i) && AuthorizedBefore(t, i)
    {
      assert i >= b;
      assert ClearedBetween(t, -1, a) && ClearedBetween(t, a, i);
    }
  }

  // ---------------------------------------------------------------- the parts of a deployment

  lemma ConflictCheckIsQuiet(w: World, r: Run)
    ensures Quietly(r, Play(w, ConflictPlan(w.profile), r))
    ensures Play(w, ConflictPlan(w.profile), r).ok ==>
      ConflictsCleared in Since(r, Play(w, ConflictPlan(w.profile), r))
  {
    var plan := ConflictPlan(w.profile);
    PlayReads(w, plan, r);
    match w.profile {
      case NoConflict => assert plan[0] == Clear;
      case Named => assert plan[3] == Clear;
      case Incomplete => assert plan[0] == Refuse && plan[1..] == [];
    }
  }

  lemma FirstChecksAreQuiet(w: World, bundle: Bundle, r: Run)
    ensures Quietly(r, FirstChecks(w, bundle, r))
    ensures FirstChecks(w, bundle, r).ok ==> ConflictsCleared in Since(r, FirstChecks(w, bundle, r))
  {
    hide Quietly;
    var a := Play(w, PREFLIGHT, r);
    PlayReads(w, PREFLIGHT, r);
    var b := Play(w, ConflictPlan(w.profile), a);
    ConflictCheckIsQuiet(w, a);
    QuietlyJoins(r, a, b);
    var c := Play(w, [Deny(ServiceActive)], b);
    PlayReads(w, [Deny(ServiceActive)], b);
    PlayExtends(w, [Deny(ServiceActive)], b);
    QuietlyJoins(r, b, c);
    LeftoverIsQuiet(w, bundle, c);
    QuietlyJoins(r, c, FirstChecks(w, bundle, r));
  }

  lemma LeftoverIsQuiet(w: World, bundle: Bundle, r: Run)
    ensures Quietly(r, Leftover(w, bundle, r))
    ensures Leftover(w, bundle, r).ok ==> r.ok
  {
    var asked := Perform(w, Tolerate(ContainerIs(bundle, false)), r);
    assert Quietly(r, asked);
    var again := Perform(w, Demand(ContainerIs(bundle, false)), asked);
    assert Quietly(asked, again);
    QuietlyJoins(r, asked, again);
  }

  lemma StageIsUnasked(w: World, bundle: Bundle, r: Run)
    ensures Unasked(r, Stage(w, bundle, r)) && OnlyStages(r, Stage(w, bundle, r))
  {
    hide Unasked, OnlyStages, OnlyStaging, Play, ImagePlan, ConfigPlan, VolumePlan, SavedUnitPlan;
    PlansStage(bundle);
    var a := Play(w, ImagePlan(bundle), r);
    PlayStages(w, ImagePlan(bundle), r);
    var b := Play(w, ConfigPlan(bundle), a);
    PlayStages(w, ConfigPlan(bundle), a);
    StagesJoin(r, a, b);
    var c := Play(w, VolumePlan(bundle), b);
    PlayStages(w, VolumePlan(bundle), b);
    StagesJoin(r, b, c);
    PlayStages(w, SavedUnitPlan(bundle), c);
    StagesJoin(r, c, Stage(w, bundle, r));
  }

  predicate OnlyStaging(steps: seq<Step>) {
    forall s | s in steps :: Preparatory(s)
  }

  predicate Preparatory(s: Step) {
    s != Consent && (Changes(s) ==> Staging(s.mutation))
  }

  lemma PlansStage(bundle: Bundle)
    ensures OnlyStaging(ImagePlan(bundle)) && OnlyStaging(ConfigPlan(bundle))
    ensures OnlyStaging(VolumePlan(bundle)) && OnlyStaging(SavedUnitPlan(bundle))
    ensures OnlyStaging(StagedUnitPlan(bundle))
  {
    assert OnlyStaging(ImagePlan(bundle));
    assert OnlyStaging(ConfigPlan(bundle));
    assert OnlyStaging(VolumePlan(bundle));
    assert OnlyStaging(SavedUnitPlan(bundle));
  }

  lemma PlayStages(w: World, steps: seq<Step>, r: Run)
    requires OnlyStaging(steps)
    ensures Unasked(r, Play(w, steps, r)) && OnlyStages(r, Play(w, steps, r))
  {
    assert Consent !in steps;
    PlayIsUnasked(w, steps, r);
    forall m | Issued(Since(r, Play(w, steps, r)), m) ensures Staging(m) {
      if !Staging(m) {
        assert !Preparatory(Checked(m)) && !Preparatory(Unchecked(m));
        PlayAvoids(w, steps, m, r);
      }
    }
  }

  ghost predicate OnlyStages(a: Run, b: Run) {
    Extends(a, b) && forall m | Issued(Since(a, b), m) :: Staging(m)
  }

  lemma StagesJoin(a: Run, b: Run, c: Run)
    requires OnlyStages(a, b) && OnlyStages(b, c)
    ensures OnlyStages(a, c)
    ensures Unasked(a, b) && Unasked(b, c) ==> Unasked(a, c)
  {
    SinceJoins(a, b, c);
    forall m | Issued(Since(a, c), m) ensures Staging(m) { IssuedJoins(a, b, c, m); }
  }

  /** Commands that neither start nor stop anything nor change the live unit. */
  predicate Staging(m: Mutation) {
    && !m.MoveUnit? && !m.ReloadDaemon? && !m.EnableService?
    && !m.DisableService? && !m.StopContainer? && !m.RetireUnit?
  }

  lemma ActivateIsUnasked(w: World, r: Run)
    ensures Unasked(r, Activate(w, r))
  {
    var a := Play(w, ACTIVATION, r);
    PlayIsUnasked(w, ACTIVATION, r);
    if r.ok && !a.ok {
      PlayIsUnasked(w, FORCED_STOP, a.(ok := true));
      UnaskedJoins(r, a, Activate(w, r));
    }
  }

  /** What follows the preparation asks for no authorization, and does nothing after a failure. */
  lemma WorkIsUnasked(w: World, bundle: Bundle, p: Run)
    ensures Unasked(p, Finish(w, bundle, p))
    ensures !p.ok ==> Finish(w, bundle, p) == p
  {
    var staged := Stage(w, bundle, p);
    StageIsUnasked(w, bundle, p);
    var checked := Play(w, StagedUnitPlan(bundle), staged);
    PlayIsUnasked(w, StagedUnitPlan(bundle), staged);
    UnaskedJoins(p, staged, checked);
    var activated := Activate(w, checked);
    ActivateIsUnasked(w, checked);
    UnaskedJoins(p, checked, activated);
    PlayIsUnasked(w, RunningPlan(bundle), activated);
    UnaskedJoins(p, activated, Finish(w, bundle, p));
  }

  function Finish(w: World, bundle: Bundle, p: Run): Run {
    Play(w, RunningPlan(bundle), Activate(w,
      Play(w, StagedUnitPlan(bundle), Stage(w, bundle, p))))
  }

  /** Every run of `deploy`, failing ones included, has a safe trace. */
  lemma DeployTraceIsSafe(w: World, bundle: Bundle, callback: bool, r: Run)
    ensures Extends(r, Deployment.Deploy(w, bundle, callback, r))
    ensures SafeTrace(Since(r, Deployment.Deploy(w, bundle, callback, r)), callback)
  {
    hide SafeTrace, Silent, NoAuthorization, FirstChecks, Stage, Activate;
    var end := Deployment.Deploy(w, bundle, callback, r);
    var prepared := Prepare(w, bundle, callback, r);
    assert end == Finish(w, bundle, prepared);
    WorkIsUnasked(w, bundle, prepared);
    var checks := FirstChecks(w, bundle, r);
    FirstChecksAreQuiet(w, bundle, r);
    if !checks.ok {
      assert prepared == checks;
      SilentTraceIsSafe(Since(r, checks), callback);
    } else if !callback {
      SinceJoins(r, checks, end);
      WorkAfterCheckIsSafe(Since(r, checks), Since(checks, end));
    } else {
      var asked := Play(w, [Consent], checks);
      var accepted := w.script(|checks.log|).outcome.Done?;
      PlayOne(w, Consent, checks);
      assert asked == Run(checks.host, checks.log + [Authorized(accepted)], accepted);
      assert Since(checks, asked) == [Authorized(accepted)];
      var second := Play(w, ConflictPlan(w.profile), asked);
      ConflictCheckIsQuiet(w, asked);
      PlayExtends(w, ConflictPlan(w.profile), asked);
      SinceJoins(r, checks, asked);
      SinceJoins(r, asked, second);
      SinceJoins(r, second, end);
      if second.ok {
        WorkAfterAuthorizationIsSafe(
          Since(r, checks), Since(asked, second), Since(second, end));
      } else {
        AuthorizedOnceIsSafe(Since(r, checks), accepted, Since(asked, second));
      }
    }
  }

  // ---------------------------------------------------------------- what a pass means

  lemma RunningMeans(w: World, bundle: Bundle, r: Run)
    ensures Quietly(r, Play(w, RunningPlan(bundle), r))
    ensures Play(w, RunningPlan(bundle), r).ok ==> r.ok && Running(r.host, bundle)
  {
    var plan := RunningPlan(bundle);
    PlayReads(w, plan, r);
    PlayExtends(w, plan, r);
    Established(w, plan, 0, ServiceActive, r);
    Established(w, plan, 1, ServiceEnabled, r);
    Established(w, plan, 2, ContainerIs(bundle, true), r);
  }

  lemma VerifiedMeans(w: World, bundle: Bundle, r: Run)
    ensures Quietly(r, Verified(w, bundle, r))
    ensures Verified(w, bundle, r).ok ==> r.ok && Running(r.host, bundle)
  {
    PlayReads(w, PREFLIGHT, r);
    PlayExtends(w, PREFLIGHT, r);
    RunningMeans(w, bundle, Play(w, PREFLIGHT, r));
    QuietlyJoins(r, Play(w, PREFLIGHT, r), Verified(w, bundle, r));
  }

  /** Staging leaves the service, its live unit and its container alone and verifies the rest. */
  lemma StageMeans(w: World, bundle: Bundle, r: Run)
    ensures forall p | p in {Service, LiveUnit, TheContainer} ::
      Same(r.host, Stage(w, bundle, r).host, p)
    ensures Stage(w, bundle, r).ok ==>
      var h := Stage(w, bundle, r).host;
      && r.ok && Kept(w.hashes, h, bundle)
      && bundle.archiveSha.Some? && h.archive == bundle.archiveSha
      && h.configFile == Some(bundle.configSha)
  {
    hide Same, Spares, Perform;
    var imaged := Play(w, ImagePlan(bundle), r);
    var configured := Play(w, ConfigPlan(bundle), imaged);
    var filled := Play(w, VolumePlan(bundle), configured);
    var staged := Stage(w, bundle, r);
    forall p | p in {Service, LiveUnit, TheContainer} ensures Same(r.host, staged.host, p) {
      StagePlansSpare(w, bundle, p, r);
    }
    PlayExtends(w, ImagePlan(bundle), r);
    PlayExtends(w, ConfigPlan(bundle), imaged);
    PlayExtends(w, VolumePlan(bundle), configured);
    PlayExtends(w, SavedUnitPlan(bundle), filled);
    if staged.ok {
      ImageMeans(w, bundle, r);
      ConfigMeans(w, bundle, imaged);
      VolumeMeans(w, bundle, configured);
      SavedUnitMeans(w, bundle, filled);
      SameFields(imaged.host, configured.host);
      SameFields(configured.host, filled.host);
      SameFields(filled.host, staged.host);
    }
  }

  lemma SameFields(a: Host, b: Host)
    ensures Same(a, b, Archive) <==> a.archive == b.archive
    ensures Same(a, b, Images) <==> a.images == b.images
    ensures Same(a, b, ConfigFile) <==> a.configFile == b.configFile
    ensures Same(a, b, ConfigVolume) <==> a.configVolume == b.configVolume
  {
  }

  lemma StagePlansSpare(w: World, bundle: Bundle, p: Part, r: Run)
    requires p == Service || p == LiveUnit || p == TheContainer
    ensures Same(r.host, Stage(w, bundle, r).host, p)
  {
    hide Same, Perform;
    var imaged := Play(w, ImagePlan(bundle), r);
    var configured := Play(w, ConfigPlan(bundle), imaged);
    var filled := Play(w, VolumePlan(bundle), configured);
    PlaySpares(w, ImagePlan(bundle), p, r);
    PlaySpares(w, ConfigPlan(bundle), p, imaged);
    PlaySpares(w, VolumePlan(bundle), p, configured);
    PlaySpares(w, SavedUnitPlan(bundle), p, filled);
    SameJoins(r.host, imaged.host, configured.host, p);
    SameJoins(r.host, configured.host, filled.host, p);
    SameJoins(r.host, filled.host, Stage(w, bundle, r).host, p);
  }

  lemma ImageMeans(w: World, bundle: Bundle, r: Run)
    requires r.ok && Play(w, ImagePlan(bundle), r).ok
    ensures var h := Play(w, ImagePlan(bundle), r).host;
      && bundle.archiveSha.Some? && h.archive == bundle.archiveSha
      && bundle.imageId in h.images && h.images[bundle.imageId] == bundle.releaseSha
  {
    var plan := ImagePlan(bundle);
    PlayOne(w, Refuse, r);
    assert plan != [Refuse];
    Established(w, plan, 2, ArchiveIs(bundle.archiveSha.value), r);
    Established(w, plan, 4, ImageIs(bundle.imageId, bundle.releaseSha), r);
  }

  lemma ConfigMeans(w: World, bundle: Bundle, r: Run)
    requires Play(w, ConfigPlan(bundle), r).ok && r.ok
    ensures var h := Play(w, ConfigPlan(bundle), r).host;
      && h.configFile == Some(bundle.configSha)
      && Same(r.host, h, Archive) && Same(r.host, h, Images)
  {
    Established(w, ConfigPlan(bundle), 1, ConfigIs(bundle.configSha), r);
    PlaySpares(w, ConfigPlan(bundle), Archive, r);
    PlaySpares(w, ConfigPlan(bundle), Images, r);
  }

  lemma VolumeMeans(w: World, bundle: Bundle, r: Run)
    requires Play(w, VolumePlan(bundle), r).ok && r.ok
    ensures var h := Play(w, VolumePlan(bundle), r).host;
      && h.configVolume == Some(bundle.configSha)
      && Same(r.host, h, Archive) && Same(r.host, h, Images) && Same(r.host, h, ConfigFile)
  {
    hide Same, Play;
    VolumesFilled(w, bundle, r);
    PlaySpares(w, VolumePlan(bundle), Archive, r);
    PlaySpares(w, VolumePlan(bundle), Images, r);
    PlaySpares(w, VolumePlan(bundle), ConfigFile, r);
  }

  lemma VolumesFilled(w: World, bundle: Bundle, r: Run)
    requires Play(w, VolumePlan(bundle), r).ok && r.ok
    ensures Play(w, VolumePlan(bundle), r).host.configVolume == Some(bundle.configSha)
  {
    hide Play;
    var at := if bundle.capsule.None? then 3 else 6;
    Established(w, VolumePlan(bundle), at, VolumeIs(bundle.configSha), r);
  }

  lemma SavedUnitMeans(w: World, bundle: Bundle, r: Run)
    requires Play(w, SavedUnitPlan(bundle), r).ok && r.ok
    ensures var h := Play(w, SavedUnitPlan(bundle), r).host;
      && UnitIs(w.hashes, h.savedUnit, bundle.unitSha)
      && Same(r.host, h, Archive) && Same(r.host, h, Images) && Same(r.host, h, ConfigFile)
      && Same(r.host, h, ConfigVolume)
  {
    Established(w, SavedUnitPlan(bundle), 2, SavedUnitIs(bundle.unitSha), r);
    PlaySpares(w, SavedUnitPlan(bundle), Archive, r);
    PlaySpares(w, SavedUnitPlan(bundle), Images, r);
    PlaySpares(w, SavedUnitPlan(bundle), ConfigFile, r);
    PlaySpares(w, SavedUnitPlan(bundle), ConfigVolume, r);
  }

  /** The three activation commands: all are done, or the first that is not ends the plan. */
  lemma ActivationRun(w: World, r: Run)
    requires r.ok
    ensures var n, a := |r.log|, Play(w, ACTIVATION, r);
      && (a.ok <==> w.script(n).outcome.Done? && w.script(n + 1).outcome.Done?
                    && w.script(n + 2).outcome.Done?)
      && (a.ok ==> a.host.liveUnit == r.host.nextUnit && |a.log| == n + 3)
  {
    var a := Perform(w, Checked(MoveUnit), r);
    var b := Perform(w, Checked(ReloadDaemon), a);
    var c := Perform(w, Checked(EnableService), b);
    PlayThree(w, ACTIVATION, r);
  }

  /** Every part of the host an activation, forced stop included, leaves alone. */
  lemma ActivateSpares(w: World, p: Part, r: Run)
    requires p in {SavedUnit, Archive, ConfigFile, Images, ConfigVolume}
    ensures Same(r.host, Activate(w, r).host, p)
  {
    hide Same;
    var a := Play(w, ACTIVATION, r);
    PlaySpares(w, ACTIVATION, p, r);
    PlaySpares(w, FORCED_STOP, p, a.(ok := true));
    SameJoins(r.host, a.host, Play(w, FORCED_STOP, a.(ok := true)).host, p);
  }

  lemma InstallMeans(w: World, bundle: Bundle, r: Run)
    ensures Install(w, bundle, r).ok ==>
      r.ok && Installed(w.hashes, Install(w, bundle, r).host, bundle)
    ensures forall p | p in {SavedUnit, Archive, ConfigFile, Images, ConfigVolume} ::
      Same(r.host, Install(w, bundle, r).host, p)
  {
    var plan := StagedUnitPlan(bundle);
    var checked := Play(w, plan, r);
    PlayExtends(w, plan, r);
    forall p | p in {SavedUnit, Archive, ConfigFile, Images, ConfigVolume}
      ensures Same(r.host, Install(w, bundle, r).host, p)
    {
      PlaySpares(w, plan, p, r);
      ActivateSpares(w, p, checked);
      SameJoins(r.host, checked.host, Install(w, bundle, r).host, p);
    }
    if checked.ok {
      Established(w, plan, 1, NextUnitIs(bundle.unitSha), r);
      ActivationRun(w, checked);
    }
  }

  /** A pass of `deploy`: the release is installed and running, and everything it needs is staged. */
  lemma DeployPasses(w: World, bundle: Bundle, callback: bool, r: Run)
    ensures var end := Deployment.Deploy(w, bundle, callback, r);
      end.ok ==>
        && Running(end.host, bundle) && Installed(w.hashes, end.host, bundle)
        && Kept(w.hashes, end.host, bundle)
        && bundle.archiveSha.Some? && end.host.archive == bundle.archiveSha
        && end.host.configFile == Some(bundle.configSha)
  {
    hide Play, Running, Installed;
    var prepared := Prepare(w, bundle, callback, r);
    var staged := Stage(w, bundle, prepared);
    var installed := Install(w, bundle, staged);
    StageMeans(w, bundle, prepared);
    InstallMeans(w, bundle, staged);
    RunningMeans(w, bundle, installed);
    var end := Deployment.Deploy(w, bundle, callback, r);
    assert end == Play(w, RunningPlan(bundle), installed);
    assert forall p | p in {SavedUnit, Archive, ConfigFile, Images, ConfigVolume} ::
      Same(staged.host, installed.host, p);
    assert Same(staged.host, installed.host, SavedUnit) && Same(staged.host, installed.host, Archive);
    assert Same(staged.host, installed.host, ConfigFile) && Same(staged.host, installed.host, Images);
    assert Same(staged.host, installed.host, ConfigVolume);
  }

  /** A pass of `rollback`: it found the release running and left it stopped, with its data kept. */
  lemma RollbackPasses(w: World, bundle: Bundle, r: Run)
    ensures var end := Deployment.Rollback(w, bundle, r);
      end.ok ==>
        && Running(r.host, bundle) && Stopped(end.host) && end.host.liveUnit == None
        && end.host.container.Some? && Matches(end.host.container.value, bundle)
    ensures forall p | p in {SavedUnit, Archive, ConfigFile, Images, ConfigVolume} ::
      Same(r.host, Deployment.Rollback(w, bundle, r).host, p)
  {
    var seen := Verified(w, bundle, r);
    VerifiedMeans(w, bundle, r);
    var plan := RollbackPlan(bundle);
    var end := Play(w, plan, seen);
    PlayExtends(w, plan, seen);
    forall p | p in {SavedUnit, Archive, ConfigFile, Images, ConfigVolume}
      ensures Same(r.host, end.host, p)
    {
      PlaySpares(w, plan, p, seen);
    }
    if end.ok {
      StopSeen(w, bundle, seen);
      StopSticks(w, plan, seen);
    }
  }

  lemma RollbackKeeps(w: World, bundle: Bundle, r: Run)
    ensures var h := Deployment.Rollback(w, bundle, r).host;
      && h.savedUnit == r.host.savedUnit && h.images == r.host.images
      && h.configVolume == r.host.configVolume
  {
    hide Deployment.Rollback, Running;
    RollbackPasses(w, bundle, r);
    var h := Deployment.Rollback(w, bundle, r).host;
    assert Same(r.host, h, SavedUnit) && Same(r.host, h, Images) && Same(r.host, h, ConfigVolume);
  }

  lemma StopSeen(w: World, bundle: Bundle, r: Run)
    requires r.ok && Play(w, RollbackPlan(bundle), r).ok
    ensures Holds(w.hashes, Play(w, RollbackPlan(bundle), r).host, ContainerIs(bundle, false))
  {
    hide Play, Perform;
    var plan := RollbackPlan(bundle);
    assert plan[6..] == [];
    Established(w, plan, 5, ContainerIs(bundle, false), r);
  }

  lemma StopSticks(w: World, plan: seq<Step>, r: Run)
    requires |plan| == 6 && r.ok && Play(w, plan, r).ok
    requires plan[0] == Checked(DisableService) && plan[1] == Unchecked(StopContainer)
    requires plan[2] == Checked(RetireUnit)
    requires forall s | s in plan[3..] :: !Changes(s) && s != Consent
    ensures var h := Play(w, plan, r).host; !h.active && !h.enabled && h.liveUnit == None
  {
    var first := plan[..3];
    assert plan == first + plan[3..];
    PlaySplit(w, first, plan[3..], r);
    PlayReads(w, plan[3..], Play(w, first, r));
    PlayExtends(w, plan[3..], Play(w, first, r));
    PlayThree(w, first, r);
    hide Play, Perform;
    var a := Perform(w, Checked(DisableService), r);
    var b := Perform(w, Unchecked(StopContainer), a);
    CheckedDisable(w, r);
    RetireRun(w, b);
    StopKeepsService(w, a);
  }

  lemma CheckedDisable(w: World, r: Run)
    ensures var a := Perform(w, Checked(DisableService), r);
      a.ok ==> !a.host.active && !a.host.enabled
    ensures Perform(w, Checked(RetireUnit), Perform(w, Unchecked(StopContainer),
              Perform(w, Checked(DisableService), r))).ok ==>
      Perform(w, Checked(DisableService), r).ok
  {
  }

  lemma StopKeepsService(w: World, r: Run)
    ensures Same(r.host, Perform(w, Unchecked(StopContainer), r).host, Service)
  {
  }

  /** `redeploy` verified a running, installed release; what it relies on is as it was. */
  lemma RestartMeans(w: World, bundle: Bundle, r: Run)
    ensures var s := Restarted(w, bundle, r);
      s.ok ==> Running(s.host, bundle) && Installed(w.hashes, s.host, bundle)
    ensures forall p | p in {SavedUnit, Archive, ConfigFile, Images, ConfigVolume} ::
      Same(r.host, Restarted(w, bundle, r).host, p)
  {
    hide Running, Same, Installed;
    var fit := Play(w, PREFLIGHT, r);
    PlayReads(w, PREFLIGHT, r);
    var ready := Play(w, RedeployPlan(bundle), fit);
    PlayReads(w, RedeployPlan(bundle), fit);
    InstallMeans(w, bundle, ready);
    RunningMeans(w, bundle, Install(w, bundle, ready));
  }

  /** A pass of `redeploy` runs the release again, with the pause digest of the rollback receipt. */
  lemma RedeployPasses(w: World, bundle: Bundle, parent: Receipt, r: Run)
    ensures var end := Deployment.Redeploy(w, bundle, parent, r);
      end.ok ==>
        && Running(end.host, bundle) && Installed(w.hashes, end.host, bundle)
        && ExpectedPause(w.hashes, parent, bundle) == Some(w.hashes.pause(end.host.pause))
        && forall p | p in {SavedUnit, Archive, ConfigFile, Images, ConfigVolume} ::
             Same(r.host, end.host, p)
  {
    hide Same, Running, Installed, Play;
    RestartMeans(w, bundle, r);
  }

  /**
   Deploy, roll back, redeploy, each with whatever answers it gets and nobody else acting between
   them: if all three pass, the deployed state is back. Unless their digests collide, the live units
   are the same bytes and the pause states the same values.
   */
  lemma RestoredByRedeploy(
    first: World, second: World, third: World, bundle: Bundle, callback: bool, start: Host,
    at: int)
    requires first.hashes == second.hashes == third.hashes
    ensures var deployed := Deployment.Deploy(first, bundle, callback, Run(start, [], true));
      var stopped := Deployment.Rollback(second, bundle, Run(deployed.host, [], true));
      var receipt := RollbackReceipt(second.hashes, bundle, deployed.host, at);
      var back := Deployment.Redeploy(third, bundle, receipt, Run(stopped.host, [], true));
      deployed.ok && stopped.ok && back.ok ==>
        && Running(back.host, bundle)
        && SameDeployment(first.hashes, deployed.host, back.host, bundle)
        && (Apart(first.hashes.unit, deployed.host.liveUnit.value, back.host.liveUnit.value) ==>
              back.host.liveUnit == deployed.host.liveUnit)
        && (Apart(first.hashes.pause, deployed.host.pause, back.host.pause) ==>
              back.host.pause == deployed.host.pause)
  {
    hide Deployment.Deploy, Deployment.Rollback, Deployment.Redeploy;
    var deployed := Deployment.Deploy(first, bundle, callback, Run(start, [], true));
    DeployPasses(first, bundle, callback, Run(start, [], true));
    var stopped := Deployment.Rollback(second, bundle, Run(deployed.host, [], true));
    RollbackPasses(second, bundle, Run(deployed.host, [], true));
    var receipt := RollbackReceipt(second.hashes, bundle, deployed.host, at);
    var back := Deployment.Redeploy(third, bundle, receipt, Run(stopped.host, [], true));
    RedeployPasses(third, bundle, receipt, Run(stopped.host, [], true));
    if deployed.ok && stopped.ok && back.ok {
      forall p | p in {SavedUnit, Images, ConfigVolume} ensures Same(deployed.host, back.host, p) {
        SameJoins(deployed.host, stopped.host, back.host, p);
      }
      assert Same(deployed.host, back.host, SavedUnit) && Same(deployed.host, back.host, Images);
      assert Same(deployed.host, back.host, ConfigVolume);
    }
  }

  /** A boundary changes nothing, and its pass has seen the release running. */
  lemma BoundaryPasses(w: World, bundle: Bundle, r: Run)
    ensures var end := Deployment.RebootBoundary(w, bundle, r);
      end.host == r.host && (end.ok ==> Running(r.host, bundle))
  {
    hide Running;
    var seen := Verified(w, bundle, r);
    VerifiedMeans(w, bundle, r);
    PlayReads(w, [Demand(BootIdentity)], seen);
    PlayExtends(w, [Demand(BootIdentity)], seen);
  }

  /** Nor does a verification, which passes only across a new boot identity and the same digest. */
  lemma RebootPasses(w: World, bundle: Bundle, boundary: Receipt, r: Run)
    ensures var end, e := Deployment.VerifyReboot(w, bundle, boundary, r), boundary.payload.evidence;
      && end.host == r.host
      && (end.ok ==>
            && Running(r.host, bundle)
            && e.beforeBootSha.Some? && r.host.bootSha != e.beforeBootSha.value
            && e.pauseSha == Some(w.hashes.pause(r.host.pause)))
  {
    hide Running;
    var booted := Play(w, PREFLIGHT + [Demand(BootIdentity)], r);
    PlayReads(w, PREFLIGHT + [Demand(BootIdentity)], r);
    RunningMeans(w, bundle, booted);
  }

  /**
   A reboot that is verified really happened: the boot identity changed, the pause digest did not,
   and the release ran on both sides. Neither action changes the host.
   */
  lemma VerifiedRebootHappened(
    first: World, second: World, bundle: Bundle, a: Run, b: Run, at: int)
    requires first.hashes == second.hashes
    ensures var boundary := Deployment.RebootBoundary(first, bundle, a);
      var receipt := BoundaryReceipt(first.hashes, bundle, boundary.host, at);
      var verified := Deployment.VerifyReboot(second, bundle, receipt, b);
      && boundary.host == a.host && verified.host == b.host
      && (boundary.ok && verified.ok ==>
            && Running(a.host, bundle) && Running(b.host, bundle)
            && b.host.bootSha != a.host.bootSha
            && second.hashes.pause(b.host.pause) == first.hashes.pause(a.host.pause))
  {
    hide Running, Deployment.RebootBoundary, Deployment.VerifyReboot;
    BoundaryPasses(first, bundle, a);
    var boundary := Deployment.RebootBoundary(first, bundle, a);
    RebootPasses(second, bundle, BoundaryReceipt(first.hashes, bundle, boundary.host, at), b);
  }

  // ---------------------------------------------------------------- the forced stop

  /**
   The forced stop always tries to disable the service. It goes on to the container exactly if that
   did not raise, and retires the unit exactly if neither did.
   */
  lemma ForcedStopCommands(w: World, r: Run)
    requires r.ok
    ensures Extends(r, Play(w, FORCED_STOP, r))
    ensures var n, end := |r.log|, Play(w, FORCED_STOP, r);
      var t := Since(r, end);
      && Issued(t, DisableService)
      && (Issued(t, StopContainer) <==> !w.script(n).outcome.Raised?)
      && (Issued(t, RetireUnit) <==>
            !w.script(n).outcome.Raised? && !w.script(n + 1).outcome.Raised?)
      && (end.ok ==> end.host.liveUnit == None)
      && (w.script(n).outcome.Done? && w.script(n + 1).outcome.Done? ==> Stopped(end.host))
  {
    hide Perform, Play, After, Stopped;
    ForcedStopLog(w, r);
    ForcedStopHost(w, r);
    var n := |r.log|;
    var o, p, q := w.script(n).outcome, w.script(n + 1).outcome, w.script(n + 2).outcome;
    var t := StopLog(o, p, q);
    assert Mutated(DisableService, o) == t[0];
    if !o.Raised? { assert Mutated(StopContainer, p) == t[1]; }
    if !o.Raised? && !p.Raised? { assert Mutated(RetireUnit, q) == t[2]; }
  }

  lemma ForcedStopHost(w: World, r: Run)
    requires r.ok
    ensures var n, end := |r.log|, Play(w, FORCED_STOP, r);
      && (end.ok ==> end.host.liveUnit == None)
      && (w.script(n).outcome.Done? && w.script(n + 1).outcome.Done? ==> Stopped(end.host))
  {
    PlayThree(w, FORCED_STOP, r);
    hide Play, Perform;
    var a := Perform(w, Unchecked(DisableService), r);
    var b := Perform(w, Unchecked(StopContainer), a);
    DisableRun(w, r);
    if a.ok { StopRun(w, a); }
    RetireRun(w, b);
  }

  lemma DisableRun(w: World, r: Run)
    requires r.ok
    ensures var o, a := w.script(|r.log|).outcome, Perform(w, Unchecked(DisableService), r);
      && a.ok == !o.Raised? && |a.log| == |r.log| + 1
      && (o.Done? ==> !a.host.active && !a.host.enabled)
  {
  }

  lemma StopRun(w: World, r: Run)
    requires r.ok
    ensures var o, b := w.script(|r.log|).outcome, Perform(w, Unchecked(StopContainer), r);
      && Same(r.host, b.host, Service)
      && (o.Done? && b.host.container.Some? ==> !b.host.container.value.running)
  {
  }

  lemma RetireRun(w: World, r: Run)
    ensures var c := Perform(w, Checked(RetireUnit), r);
      && Same(r.host, c.host, Service) && Same(r.host, c.host, TheContainer)
      && (c.ok ==> c.host.liveUnit == None)
  {
  }

  function StopLog(disable: Outcome, stop: Outcome, retire: Outcome): seq<Event> {
    [Mutated(DisableService, disable)]
    + if disable.Raised? then []
      else [Mutated(StopContainer, stop)]
           + if stop.Raised? then [] else [Mutated(RetireUnit, retire)]
  }

  lemma ForcedStopLog(w: World, r: Run)
    requires r.ok
    ensures var n, end := |r.log|, Play(w, FORCED_STOP, r);
      Extends(r, end) && Since(r, end) ==
        StopLog(w.script(n).outcome, w.script(n + 1).outcome, w.script(n + 2).outcome)
  {
    hide After;
    PlayThree(w, FORCED_STOP, r);
  }

  /** Every forced stop whose first two commands get these outcomes leaves the service stopped. */
  ghost predicate StopsFor(disable: Outcome, stop: Outcome) {
    forall w: World, r: Run |
      r.ok && w.script(|r.log|).outcome == disable && w.script(|r.log| + 1).outcome == stop ::
      Stopped(Play(w, FORCED_STOP, r).host)
  }

  /** That is so exactly if both are done. */
  lemma ForcedStopGuarantee(disable: Outcome, stop: Outcome)
    ensures StopsFor(disable, stop) <==> disable.Done? && stop.Done?
  {
    if disable.Done? && stop.Done? {
      forall w: World, r: Run |
        r.ok && w.script(|r.log|).outcome == disable && w.script(|r.log| + 1).outcome == stop
        ensures Stopped(Play(w, FORCED_STOP, r).host)
      {
        ForcedStopCommands(w, r);
      }
    } else {
      var busy := BusyHost();
      var answers := (n: nat) =>
        Reply(if n == 0 then disable else if n == 1 then stop else Done, true, busy);
      var w := World(Hashes(_ => "", _ => "", _ => ""), NoConflict, answers);
      var r := Run(busy, [], true);
      StaysBusy(w, r);
      assert w.script(|r.log|).outcome == disable && w.script(|r.log| + 1).outcome == stop;
    }
  }

  /** Unless both commands are done, a world that leaves everything busy does so here too. */
  lemma StaysBusy(w: World, r: Run)
    requires r == Run(BusyHost(), [], true) && forall n :: w.script(n).wild == BusyHost()
    requires !w.script(0).outcome.Done? || !w.script(1).outcome.Done?
    ensures !Stopped(Play(w, FORCED_STOP, r).host)
  {
    PlayThree(w, FORCED_STOP, r);
    hide Play, Stopped;
    var a := Perform(w, Unchecked(DisableService), r);
    var b := Perform(w, Unchecked(StopContainer), a);
    assert !w.script(0).outcome.Done? ==> a.host == BusyHost();
    assert b.host.active == a.host.active;
    assert !w.script(1).outcome.Done? ==> b.host.container == BusyHost().container;
    RetireRun(w, b);
    BusyIsNotStopped(Perform(w, Checked(RetireUnit), b).host);
  }

  lemma BusyIsNotStopped(h: Host)
    requires h.active || h.container == BusyHost().container
    ensures !Stopped(h)
  {
  }

  function BusyHost(): Host {
    Host(true, true, None, None, None, None, None, map[],
         Some(Container("", "", "", "", None, true, true)), None, "", "",
         Predecessor(false, false, None))
  }

  /** Up to the checked unit file a deployment touches neither the service nor the live unit. */
  lemma NothingActivated(w: World, bundle: Bundle, callback: bool, r: Run)
    ensures var b := BeforeActivation(w, bundle, callback, r);
      && OnlyStages(r, b)
      && Same(r.host, b.host, Service) && Same(r.host, b.host, LiveUnit)
      && Same(r.host, b.host, TheContainer)
  {
    hide Same, Staging, OnlyStages, Unasked, Prepare, Stage;
    var prepared := Prepare(w, bundle, callback, r);
    PrepareChangesNothing(w, bundle, callback, r);
    var staged := Stage(w, bundle, prepared);
    StageIsUnasked(w, bundle, prepared);
    StagesJoin(r, prepared, staged);
    UnitIsStaged(w, bundle, staged);
    var b := Play(w, StagedUnitPlan(bundle), staged);
    StagesJoin(r, staged, b);
    forall p | p == Service || p == LiveUnit || p == TheContainer ensures Same(r.host, b.host, p) {
      StagePlansSpare(w, bundle, p, prepared);
      PlaySpares(w, StagedUnitPlan(bundle), p, staged);
      SameJoins(prepared.host, staged.host, b.host, p);
    }
  }

  lemma UnitIsStaged(w: World, bundle: Bundle, r: Run)
    ensures OnlyStages(r, Play(w, StagedUnitPlan(bundle), r))
  {
    PlayStages(w, StagedUnitPlan(bundle), r);
  }

  lemma PrepareChangesNothing(w: World, bundle: Bundle, callback: bool, r: Run)
    ensures var p := Prepare(w, bundle, callback, r);
      OnlyStages(r, p) && p.host == r.host
  {
    hide Silent, OnlyStages;
    var checks := FirstChecks(w, bundle, r);
    FirstChecksAreQuiet(w, bundle, r);
    QuietStages(r, checks);
    if callback {
      var asked := Play(w, [Consent], checks);
      PlayExtends(w, [Consent], checks);
      PlayOne(w, Consent, checks);
      AskingStages(w, checks);
      var second := Play(w, ConflictPlan(w.profile), asked);
      ConflictCheckIsQuiet(w, asked);
      QuietStages(asked, second);
      StagesJoin(r, checks, asked);
      StagesJoin(r, asked, second);
    }
  }

  lemma QuietStages(a: Run, b: Run)
    requires Quietly(a, b)
    ensures OnlyStages(a, b)
  {
  }

  lemma AskingStages(w: World, r: Run)
    ensures OnlyStages(r, Perform(w, Consent, r)) && Perform(w, Consent, r).host == r.host
  {
    var asked := Perform(w, Consent, r);
    assert forall e | e in Since(r, asked) :: !e.Mutated?;
  }

  /** Whether move, reload and enable, from the n-th event on, were all done. */
  predicate ActivationDone(w: World, n: nat) {
    && w.script(n).outcome.Done? && w.script(n + 1).outcome.Done?
    && w.script(n + 2).outcome.Done?
  }

  /**
   A deployment forces the service to stop exactly if it got as far as the staged unit file with
   the frozen digest and one of move, reload and enable was then not done. Otherwise it issues no
   stopping command at all.
   */
  lemma ForcedStopExactly(w: World, bundle: Bundle, callback: bool, r: Run)
    ensures Extends(r, Deployment.Deploy(w, bundle, callback, r))
    ensures var before := BeforeActivation(w, bundle, callback, r);
      Issued(Since(r, Deployment.Deploy(w, bundle, callback, r)), DisableService) <==>
        before.ok && !ActivationDone(w, |before.log|)
    ensures var t := Since(r, Deployment.Deploy(w, bundle, callback, r));
      !Issued(t, DisableService) ==> !Issued(t, StopContainer) && !Issued(t, RetireUnit)
  {
    hide BeforeActivation, ActivationDone;
    var before := BeforeActivation(w, bundle, callback, r);
    NothingActivated(w, bundle, callback, r);
    var activated := Activate(w, before);
    ActivateStops(w, before);
    var end := Deployment.Deploy(w, bundle, callback, r);
    RunningMeans(w, bundle, activated);
    forall m | m in {DisableService, StopContainer, RetireUnit}
      ensures Issued(Since(r, end), m) <==> Issued(Since(before, activated), m)
    {
      IssuedJoins(r, before, activated, m);
      IssuedJoins(r, activated, end, m);
    }
  }

  lemma ActivateStops(w: World, r: Run)
    ensures Extends(r, Activate(w, r))
    ensures Issued(Since(r, Activate(w, r)), DisableService) <==>
      r.ok && !ActivationDone(w, |r.log|)
    ensures !Issued(Since(r, Activate(w, r)), DisableService) ==>
      !Issued(Since(r, Activate(w, r)), StopContainer) && !Issued(Since(r, Activate(w, r)), RetireUnit)
    ensures r.ok && ActivationDone(w, |r.log|) ==> Activate(w, r) == Play(w, ACTIVATION, r)
  {
    var a := Play(w, ACTIVATION, r);
    PlayAvoids(w, ACTIVATION, DisableService, r);
    PlayAvoids(w, ACTIVATION, StopContainer, r);
    PlayAvoids(w, ACTIVATION, RetireUnit, r);
    if r.ok {
      ActivationRun(w, r);
      if !a.ok {
        ForcedStopCommands(w, a.(ok := true));
        var end := Activate(w, r);
        IssuedJoins(r, a, end, DisableService);
      }
    }
  }

  /**
   The two ways a failed deployment leaves the service alone: it never reached activation, and
   the service, its live unit and its container are as they were; or activation worked, and the
   host is as `enable --now` left it.
   */
  lemma UnforcedFailure(w: World, bundle: Bundle, callback: bool, r: Run)
    ensures var before := BeforeActivation(w, bundle, callback, r);
      var end := Deployment.Deploy(w, bundle, callback, r);
      && (!before.ok ==> Same(r.host, end.host, Service) && Same(r.host, end.host, LiveUnit)
                         && Same(r.host, end.host, TheContainer))
      && (before.ok && ActivationDone(w, |before.log|) ==>
            end.host == Play(w, ACTIVATION, before).host)
  {
    hide BeforeActivation, ActivationDone, Same;
    var before := BeforeActivation(w, bundle, callback, r);
    NothingActivated(w, bundle, callback, r);
    ActivateStops(w, before);
    RunningMeans(w, bundle, Activate(w, before));
  }

  /**
   A running release with another pause digest never passes. The service is told to stop; whether
   the container is, and whether the unit is retired, depends on the answers to that.
   */
  lemma ChangedPauseNeverPasses(w: World, bundle: Bundle, parent: Receipt, r: Run)
    requires ExpectedPause(w.hashes, parent, bundle).Some?
    requires Restarted(w, bundle, r).ok
    requires w.hashes.pause(Restarted(w, bundle, r).host.pause)
      != ExpectedPause(w.hashes, parent, bundle).value
    ensures Extends(Restarted(w, bundle, r), Deployment.Redeploy(w, bundle, parent, r))
    ensures var s, end := Restarted(w, bundle, r), Deployment.Redeploy(w, bundle, parent, r);
      var t, n := Since(s, end), |s.log|;
      && !end.ok
      && Issued(t, DisableService)
      && (Issued(t, StopContainer) <==> !w.script(n).outcome.Raised?)
      && (Issued(t, RetireUnit) <==>
            !w.script(n).outcome.Raised? && !w.script(n + 1).outcome.Raised?)
      && (w.script(n).outcome.Done? && w.script(n + 1).outcome.Done? ==> Stopped(end.host))
  {
    hide Stopped, Restarted;
    ForcedStopCommands(w, Restarted(w, bundle, r));
  }
}
