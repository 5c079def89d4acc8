/** What holds of every plan of steps, whatever its commands and whatever the outside world answers. */
module DeploymentRuns {
  import opened Deployment

  // ---------------------------------------------------------------- order and growth

  lemma {:induction false} PlaySplit(w: World, a: seq<Step>, b: seq<Step>, r: Run)
    ensures Play(w, a + b, r) == Play(w, b, Play(w, a, r))
  {
    if a == [] {
      assert a + b == b;
    } else {
      assert (a + b)[1..] == a[1..] + b;
      if r.ok { PlaySplit(w, a[1..], b, Perform(w, a[0], r)); }
    }
  }

  lemma PlayOne(w: World, s: Step, r: Run)
    ensures Play(w, [s], r) == Perform(w, s, r)
  {
    assert [s][1..] == [];
    if r.ok { assert Play(w, [s][1..], Perform(w, s, r)) == Perform(w, s, r); }
  }

  lemma PlayThree(w: World, steps: seq<Step>, r: Run)
    requires |steps| == 3
    ensures Play(w, steps, r)
      == Perform(w, steps[2], Perform(w, steps[1], Perform(w, steps[0], r)))
  {
    assert steps[1..][1..][0] == steps[2] && steps[1..][0] == steps[1];
    assert steps[1..][1..][1..] == [];
    var a := Perform(w, steps[0], r);
    var b := Perform(w, steps[1], a);
    assert Play(w, steps[1..][1..], b) == Perform(w, steps[2], b);
  }

  /** b is a later point of the run a is a point of. */
  ghost predicate Extends(a: Run, b: Run) {
    |a.log| <= |b.log| && b.log[..|a.log|] == a.log
  }

  ghost function Since(a: Run, b: Run): seq<Event>
    requires Extends(a, b)
  {
    b.log[|a.log|..]
  }

  lemma SinceJoins(a: Run, b: Run, c: Run)
    requires Extends(a, b) && Extends(b, c)
    ensures Extends(a, c) && Since(a, c) == Since(a, b) + Since(b, c)
  {
    assert c.log[..|a.log|] == c.log[..|b.log|][..|a.log|];
    assert c.log[|a.log|..] == c.log[..|b.log|][|a.log|..] + c.log[|b.log|..];
  }

  lemma {:induction false} PlayExtends(w: World, steps: seq<Step>, r: Run)
    ensures Extends(r, Play(w, steps, r))
    ensures Play(w, steps, r).ok ==> r.ok
  {
    if r.ok && steps != [] {
      var next := Perform(w, steps[0], r);
      PlayExtends(w, steps[1..], next);
      SinceJoins(r, next, Play(w, steps, r));
    }
  }

  // ---------------------------------------------------------------- what a run leaves alone

  ghost predicate NoMutation(t: seq<Event>) {
    forall e | e in t :: !e.Mutated?
  }

  ghost predicate NoAuthorization(t: seq<Event>) {
    forall e | e in t :: !e.Authorized?
  }

  /** A stretch that neither changes anything nor asks for authorization. */
  ghost predicate Silent(t: seq<Event>) {
    NoMutation(t) && NoAuthorization(t)
  }

  ghost predicate Issued(t: seq<Event>, m: Mutation) {
    exists o :: Mutated(m, o) in t
  }

  predicate Changes(s: Step) {
    s.Checked? || s.Unchecked?
  }

  ghost predicate Quietly(a: Run, b: Run) {
    Extends(a, b) && Silent(Since(a, b)) && b.host == a.host
  }

  ghost predicate Unasked(a: Run, b: Run) {
    Extends(a, b) && NoAuthorization(Since(a, b))
  }

  lemma IssuedJoins(a: Run, b: Run, c: Run, m: Mutation)
    requires Extends(a, b) && Extends(b, c)
    ensures Extends(a, c)
    ensures Issued(Since(a, c), m) <==> Issued(Since(a, b), m) || Issued(Since(b, c), m)
  {
    SinceJoins(a, b, c);
    if Issued(Since(a, b), m) {
      var o :| Mutated(m, o) in Since(a, b);
      assert Mutated(m, o) in Since(a, c);
    } else if Issued(Since(b, c), m) {
      var o :| Mutated(m, o) in Since(b, c);
      assert Mutated(m, o) in Since(a, c);
    }
  }

  lemma QuietlyJoins(a: Run, b: Run, c: Run)
    requires Quietly(a, b) && Quietly(b, c)
    ensures Quietly(a, c) && forall e | e in Since(a, b) || e in Since(b, c) :: e in Since(a, c)
  {
    SinceJoins(a, b, c);
  }

  lemma UnaskedJoins(a: Run, b: Run, c: Run)
    requires Unasked(a, b) && Unasked(b, c)
    ensures Unasked(a, c)
  {
    SinceJoins(a, b, c);
  }

  /** Reading steps are silent, and a run that got past the conflict check says so. */
  lemma {:induction false} PlayReads(w: World, steps: seq<Step>, r: Run)
    requires forall s | s in steps :: !Changes(s) && s != Consent
    ensures Quietly(r, Play(w, steps, r))
    ensures Play(w, steps, r).ok && Clear in steps ==>
      ConflictsCleared in Since(r, Play(w, steps, r))
  {
    if r.ok && steps != [] {
      var next := Perform(w, steps[0], r);
      assert steps[0] in steps;
      assert Quietly(r, next);
      PlayReads(w, steps[1..], next);
      QuietlyJoins(r, next, Play(w, steps, r));
      PlayExtends(w, steps[1..], next);
      if steps[0] == Clear { assert ConflictsCleared in Since(r, next); }
    }
  }

  /** Without the callback's step nothing asks for authorization. */
  lemma {:induction false} PlayIsUnasked(w: World, steps: seq<Step>, r: Run)
    requires Consent !in steps
    ensures Unasked(r, Play(w, steps, r))
  {
    hide NoAuthorization;
    if r.ok && steps != [] {
      var next := Perform(w, steps[0], r);
      StepIsUnasked(w, steps[0], r);
      PlayIsUnasked(w, steps[1..], next);
      UnaskedJoins(r, next, Play(w, steps, r));
    } else {
      NothingIsUnasked(r);
    }
  }

  lemma StepIsUnasked(w: World, s: Step, r: Run)
    requires s != Consent
    ensures Unasked(r, Perform(w, s, r))
  {
  }

  lemma NothingIsUnasked(r: Run)
    ensures Unasked(r, r)
  {
  }

  /** Only the listed commands are issued. */
  lemma {:induction false} PlayAvoids(w: World, steps: seq<Step>, m: Mutation, r: Run)
    requires Checked(m) !in steps && Unchecked(m) !in steps
    ensures Extends(r, Play(w, steps, r)) && !Issued(Since(r, Play(w, steps, r)), m)
  {
    if r.ok && steps != [] {
      var next := Perform(w, steps[0], r);
      PlayAvoids(w, steps[1..], m, next);
      IssuedJoins(r, next, Play(w, steps, r), m);
    }
  }

  // ---------------------------------------------------------------- what a command may touch

  datatype Part =
    | Service | LiveUnit | NextUnit | SavedUnit | Archive | ConfigFile | Images | TheContainer
    | ConfigVolume | Pause

  predicate Same(a: Host, b: Host, p: Part) {
    match p
    case Service => a.active == b.active && a.enabled == b.enabled
    case LiveUnit => a.liveUnit == b.liveUnit
    case NextUnit => a.nextUnit == b.nextUnit
    case SavedUnit => a.savedUnit == b.savedUnit
    case Archive => a.archive == b.archive
    case ConfigFile => a.configFile == b.configFile
    case Images => a.images == b.images
    case TheContainer => a.container == b.container
    case ConfigVolume => a.configVolume == b.configVolume
    case Pause => a.pause == b.pause
  }

  function Touches(m: Mutation): set<Part> {
    match m
    case TransferArchive => {Archive}
    case LoadImage => {Images}
    case TransferConfig => {ConfigFile}
    case InitializeVolumes => {ConfigVolume, Pause}
    case InitializeFromCapsule(_) => {ConfigVolume, Pause}
    case SaveUnit => {SavedUnit}
    case StageUnit => {NextUnit}
    case MoveUnit => {LiveUnit, NextUnit}
    case EnableService => {Service, TheContainer, Pause}
    case DisableService => {Service, TheContainer, Pause}
    case StopContainer => {TheContainer, Pause}
    case RetireUnit => {LiveUnit}
    case _ => {}
  }

  predicate Spares(s: Step, p: Part) {
    Changes(s) ==> p !in Touches(s.mutation)
  }

  lemma StepSpares(w: World, s: Step, p: Part, r: Run)
    requires Spares(s, p)
    ensures Same(r.host, Perform(w, s, r).host, p)
  {
    if r.ok && Changes(s) { AfterSpares(r.host, s.mutation, w.script(|r.log|), p); }
  }

  lemma AfterSpares(h: Host, m: Mutation, reply: Reply, p: Part)
    requires p !in Touches(m)
    ensures Same(h, After(h, m, reply), p)
  {
  }

  lemma SameSelf(h: Host, p: Part)
    ensures Same(h, h, p)
  {
  }

  lemma SameJoins(a: Host, b: Host, c: Host, p: Part)
    requires Same(a, b, p) && Same(b, c, p)
    ensures Same(a, c, p)
  {
  }

  /** A plan leaves every part alone that none of its commands touches. */
  lemma {:induction false} PlaySpares(w: World, steps: seq<Step>, p: Part, r: Run)
    requires forall s | s in steps :: Spares(s, p)
    ensures Same(r.host, Play(w, steps, r).host, p)
  {
    hide Same, Perform, Spares;
    SameSelf(r.host, p);
    if r.ok && steps != [] {
      var next := Perform(w, steps[0], r);
      StepSpares(w, steps[0], p, r);
      PlaySpares(w, steps[1..], p, next);
      SameJoins(r.host, next.host, Play(w, steps, r).host, p);
    }
  }

  // ---------------------------------------------------------------- what a completed run has seen

  function DependsOn(f: Fact): set<Part> {
    match f
    case ServiceActive => {Service}
    case ServiceEnabled => {Service}
    case ArchiveIs(_) => {Archive}
    case ConfigIs(_) => {ConfigFile}
    case VolumeIs(_) => {ConfigVolume}
    case SavedUnitIs(_) => {SavedUnit}
    case NextUnitIs(_) => {NextUnit}
    case ImageIs(_, _) => {Images}
    case ContainerIs(_, _) => {TheContainer}
    case _ => {}
  }

  /** The step, once passed, leaves f true: it asked for f, or it checks f itself. */
  predicate Establishes(s: Step, f: Fact) {
    && !f.PredecessorActive? && !f.PredecessorEnabled? && !f.PredecessorNotRunning?
    && (s == Demand(f) || (f.VolumeIs? && s == Checked(InitializeFromCapsule(f.sha))))
  }

  /** What a step established still holds at the end if no later step can touch it. */
  lemma {:induction false} Established(w: World, steps: seq<Step>, i: nat, f: Fact, r: Run)
    requires i < |steps| && Establishes(steps[i], f)
    requires forall s, p | s in steps[i + 1..] && p in DependsOn(f) :: Spares(s, p)
    ensures Play(w, steps, r).ok ==> Holds(w.hashes, Play(w, steps, r).host, f)
  {
    if r.ok {
      var next := Perform(w, steps[0], r);
      var end := Play(w, steps, r);
      PlayExtends(w, steps[1..], next);
      if i > 0 {
        assert steps[1..][i - 1 + 1..] == steps[i + 1..];
        Established(w, steps[1..], i - 1, f, next);
      } else if end.ok {
        forall p | p in DependsOn(f) ensures Same(next.host, end.host, p) {
          PlaySpares(w, steps[1..], p, next);
        }
        SameFact(w.hashes, next.host, end.host, f);
      }
    }
  }

  lemma SameFact(hashes: Hashes, a: Host, b: Host, f: Fact)
    requires !f.PredecessorActive? && !f.PredecessorEnabled? && !f.PredecessorNotRunning?
    requires forall p | p in DependsOn(f) :: Same(a, b, p)
    ensures Holds(hashes, a, f) <==> Holds(hashes, b, f)
  {
    forall p | p in DependsOn(f) ensures Same(a, b, p) {}
    match f
    case ServiceActive => assert Same(a, b, Service);
    case ServiceEnabled => assert Same(a, b, Service);
    case ArchiveIs(_) => assert Same(a, b, Archive);
    case ConfigIs(_) => assert Same(a, b, ConfigFile);
    case VolumeIs(_) => assert Same(a, b, ConfigVolume);
    case SavedUnitIs(_) => assert Same(a, b, SavedUnit);
    case NextUnitIs(_) => assert Same(a, b, NextUnit);
    case ImageIs(_, _) => assert Same(a, b, Images);
    case ContainerIs(_, _) => assert Same(a, b, TheContainer);
    case _ =>
  }

  // ---------------------------------------------------------------- concrete runs

  /** The answer of a world in which everything works and leads to `goal`. */
  function Fine(goal: Host): Reply {
    Reply(Done, true, goal)
  }

  /** A step that passes on h and, going towards `goal`, finds nothing left to change. */
  predicate Steady(hashes: Hashes, s: Step, h: Host, goal: Host) {
    match s
    case Checked(m) => After(h, m, Fine(goal)) == h
    case Unchecked(m) => After(h, m, Fine(goal)) == h
    case Demand(f) => Holds(hashes, h, f)
    case Deny(f) => !Holds(hashes, h, f) && !f.PredecessorNotRunning?
    case Refuse => false
    case _ => true
  }

  lemma {:induction false} SteadyRun(w: World, steps: seq<Step>, r: Run, goal: Host)
    requires r.ok
    requires forall n: nat | |r.log| <= n < |r.log| + |steps| :: w.script(n) == Fine(goal)
    requires forall s | s in steps :: Steady(w.hashes, s, r.host, goal)
    ensures Play(w, steps, r).ok && Play(w, steps, r).host == r.host
    ensures |Play(w, steps, r).log| == |r.log| + |steps|
  {
    if steps != [] {
      assert Steady(w.hashes, steps[0], r.host, goal);
      SteadyRun(w, steps[1..], Perform(w, steps[0], r), goal);
    }
  }
}
