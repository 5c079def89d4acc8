/**
 `_write_receipt_last` of tools/release_backup_restore.py as a protocol on one directory: any number
 of writers interleave, any of them may fail at any step, and the host may lose power at any moment.
 A file name is a link to an inode; data not yet synced, and names not yet synced, may be lost.
 */
module ReceiptPublication {
  type Name = string
  type Bytes = seq<bv8>

  const TEMPORARY_PREFIX := ".incomplete-receipt-"

  /** The characters the temporary-file factory draws from. */
  predicate Drawn(c: char) {
    'a' <= c <= 'z' || '0' <= c <= '9' || c == '_'
  }

  /** Names the temporary-file factory can pick: the prefix and eight random characters. */
  predicate IsTemporary(name: Name) {
    && |name| == |TEMPORARY_PREFIX| + 8
    && TEMPORARY_PREFIX <= name
    && forall i | |TEMPORARY_PREFIX| <= i < |name| :: Drawn(name[i])
  }

  datatype File = File(data: Bytes, durable: bool)

  datatype Phase =
    | Idle
    | Checked
    | Writing(temporary: Name, inode: nat)
    | Synced(temporary: Name, inode: nat)
    | Linked(temporary: Name, inode: nat)
    | Cleaning(temporary: Name, inode: nat, succeeded: bool)
    | Done(succeeded: bool)

  /** `content` is the complete canonical receipt the writer publishes at `target`. */
  datatype Writer = Writer(target: Name, content: Bytes, phase: Phase)

  /**
   `names` is the directory as processes see it, `stable` the part known to survive a power loss,
   and `ever` every link that was ever made and may therefore show up again after one.
   */
  datatype State = State(
    names: map<Name, nat>, stable: map<Name, nat>, ever: set<(Name, nat)>, files: map<nat, File>,
    writers: seq<Writer>)

  datatype Action =
    | Check(w: nat)
    | CreateTemporary(w: nat, name: Name, inode: nat)
    | Write(w: nat, count: nat)
    | SyncFile(w: nat)
    | Link(w: nat)
    | SyncDirectory(w: nat)
    | Fail(w: nat)
    | Unlink(w: nat)

  predicate Active(phase: Phase) {
    phase.Writing? || phase.Synced? || phase.Linked? || phase.Cleaning?
  }

  predicate Enabled(s: State, a: Action) {
    && a.w < |s.writers|
    && var writer := s.writers[a.w];
    var phase := writer.phase;
    match a
    case Check(_) => phase.Idle?
    case CreateTemporary(_, name, inode) =>
      phase.Checked? && IsTemporary(name) && name !in s.names && inode !in s.files
    case Write(_, count) =>
      && phase.Writing? && phase.inode in s.files && count > 0
      && |s.files[phase.inode].data| + count <= |writer.content|
    case SyncFile(_) =>
      && phase.Writing? && phase.inode in s.files
      && |s.files[phase.inode].data| == |writer.content|
    case Link(_) => phase.Synced? && phase.temporary in s.names
    case SyncDirectory(_) => phase.Linked?
    case Fail(_) => phase.Checked? || phase.Writing? || phase.Synced? || phase.Linked?
    case Unlink(_) => phase.Cleaning?
  }

  function Move(s: State, w: nat, phase: Phase): State
    requires w < |s.writers|
  {
    s.(writers := s.writers[w := s.writers[w].(phase := phase)])
  }

  function Bind(s: State, name: Name, inode: nat): State {
    s.(names := s.names[name := inode], ever := s.ever + {(name, inode)})
  }

  function Apply(s: State, a: Action): State
    requires Enabled(s, a)
  {
    var writer := s.writers[a.w];
    var phase := writer.phase;
    match a
    case Check(w) => Move(s, w, if writer.target in s.names then Done(false) else Checked)
    case CreateTemporary(w, name, inode) =>
      Move(Bind(s, name, inode).(files := s.files[inode := File([], false)]), w,
           Writing(name, inode))
    case Write(w, count) =>
      var written := |s.files[phase.inode].data| + count;
      s.(files := s.files[phase.inode := File(writer.content[..written], false)])
    case SyncFile(w) =>
      Move(s.(files := s.files[phase.inode := s.files[phase.inode].(durable := true)]), w,
           Synced(phase.temporary, phase.inode))
    case Link(w) =>
      if writer.target in s.names then
        Move(s, w, Cleaning(phase.temporary, phase.inode, false))
      else
        Move(Bind(s, writer.target, s.names[phase.temporary]), w,
             Linked(phase.temporary, phase.inode))
    case SyncDirectory(w) =>
      Move(s.(stable := s.names), w, Cleaning(phase.temporary, phase.inode, true))
    case Fail(w) =>
      Move(s, w, if phase.Checked? then Done(false)
                 else Cleaning(phase.temporary, phase.inode, false))
    case Unlink(w) =>
      Move(s.(names := s.names - {phase.temporary}, stable := s.stable - {phase.temporary}), w,
           Done(phase.succeeded))
  }

  /** A directory at rest, with writers that have not begun. */
  ghost predicate Initial(s: State) {
    && (forall n | n in s.names :: s.names[n] in s.files)
    && (forall i | i in s.files :: s.files[i].durable)
    && s.stable == s.names
    && s.ever == (set n | n in s.names :: (n, s.names[n]))
    && forall w | 0 <= w < |s.writers| :: s.writers[w].phase.Idle?
  }

  /** The states of a run: `trace[k+1]` results from an enabled action in `trace[k]`. */
  ghost predicate Run(trace: seq<State>) {
    && trace != [] && Initial(trace[0])
    && forall k | 0 <= k < |trace| - 1 :: Next(trace[k], trace[k + 1])
  }

  ghost predicate Next(s: State, t: State) {
    exists a :: Enabled(s, a) && t == Apply(s, a)
  }

  // ---------------------------------------------------------------- what must hold

  /** The inode holds one complete receipt for this name, safely on disk. */
  ghost predicate Complete(s: State, name: Name, inode: nat) {
    && inode in s.files && s.files[inode].durable
    && exists w :: 0 <= w < |s.writers| && s.writers[w].target == name
         && s.writers[w].content == s.files[inode].data
  }

  ghost predicate Untouched(init: State, s: State, name: Name, inode: nat) {
    && name in init.names && init.names[name] == inode
    && inode in init.files && inode in s.files && s.files[inode] == init.files[inode]
  }

  /** `name` is as it was at the start, or still absent, or one complete receipt. */
  ghost predicate Sound(init: State, s: State, name: Name) {
    && (name in init.names ==> name in s.names && Untouched(init, s, name, s.names[name]))
    && (name in s.names && name !in init.names ==> Complete(s, name, s.names[name]))
  }

  /** What a power loss may leave: synced data and names survive, the rest may or may not. */
  ghost predicate CrashImage(s: State, c: State) {
    && (forall n | n in s.stable :: n in c.names && c.names[n] == s.stable[n])
    && (forall n | n in c.names :: (n, c.names[n]) in s.ever && c.names[n] in c.files)
    && (forall i | i in s.files && s.files[i].durable && i in c.files :: c.files[i] == s.files[i])
    && c.writers == s.writers
  }

  // ---------------------------------------------------------------- invariant

  ghost predicate LinksExist(s: State) {
    && (forall n | n in s.names :: (n, s.names[n]) in s.ever)
    && (forall n, i | (n, i) in s.ever :: i in s.files)
    && (forall n | n in s.stable :: n in s.names && s.names[n] == s.stable[n])
  }

  ghost predicate OwnsTemporary(init: State, s: State, w: nat)
    requires w < |s.writers|
  {
    var p := s.writers[w].phase;
    Active(p) ==>
      && IsTemporary(p.temporary) && p.temporary in s.names && s.names[p.temporary] == p.inode
      && p.inode in s.files && p.inode !in init.files
      && (p.Writing? ==> s.files[p.inode].data <= s.writers[w].content && !s.files[p.inode].durable)
      && (p.Synced? ==> s.files[p.inode] == File(s.writers[w].content, true))
  }

  ghost predicate Settled(init: State, s: State, name: Name, inode: nat) {
    && inode in s.files && s.files[inode].durable
    && (forall w | 0 <= w < |s.writers| && s.writers[w].phase.Writing? ::
          s.writers[w].phase.inode != inode)
    && (if name in init.names then Untouched(init, s, name, inode) else Complete(s, name, inode))
  }

  ghost predicate Invariant(init: State, s: State) {
    && LinksExist(s)
    && (forall w: nat | w < |s.writers| :: OwnsTemporary(init, s, w))
    && (forall v, w | 0 <= v < w < |s.writers|
          && Active(s.writers[v].phase) && Active(s.writers[w].phase) ::
          s.writers[v].phase.inode != s.writers[w].phase.inode)
    && (forall n, i | (n, i) in s.ever && !IsTemporary(n) :: Settled(init, s, n, i))
    && (forall n | n in init.names && !IsTemporary(n) ::
          n in s.names && s.names[n] == init.names[n] && n in s.stable)
    && (forall i | i in init.files :: i in s.files)
  }

  lemma InitialIsInvariant(init: State)
    requires Initial(init)
    ensures Invariant(init, init)
  {
  }

  /** No action changes, removes or rewrites anything a settled name shows. */
  lemma StepKeepsSettled(init: State, s: State, a: Action, name: Name)
    requires Invariant(init, s) && Enabled(s, a)
    requires !IsTemporary(name) && name in s.names
    ensures var t := Apply(s, a);
      && name in t.names && t.names[name] == s.names[name]
      && t.names[name] in t.files && t.files[t.names[name]] == s.files[s.names[name]]
  {
    assert (name, s.names[name]) in s.ever;
    assert Settled(init, s, name, s.names[name]);
    assert OwnsTemporary(init, s, a.w);
  }

  lemma StepKeepsWriters(s: State, a: Action)
    requires Enabled(s, a)
    ensures var t := Apply(s, a);
      && |t.writers| == |s.writers|
      && forall w | 0 <= w < |s.writers| ::
           t.writers[w].target == s.writers[w].target && t.writers[w].content == s.writers[w].content
  {
  }

  lemma StepKeepsComplete(s: State, a: Action, name: Name, inode: nat)
    requires Enabled(s, a) && Complete(s, name, inode)
    requires inode in Apply(s, a).files && Apply(s, a).files[inode] == s.files[inode]
    ensures Complete(Apply(s, a), name, inode)
  {
    hide Apply, Enabled;
    StepKeepsWriters(s, a);
    var t := Apply(s, a);
    var w :| 0 <= w < |s.writers| && s.writers[w].target == name
      && s.writers[w].content == s.files[inode].data;
    assert t.writers[w].target == name && t.writers[w].content == t.files[inode].data;
  }

  /** A file no writer writes to any more is left alone, and no writer starts writing to it. */
  lemma StepLeavesFile(init: State, s: State, a: Action, name: Name, inode: nat)
    requires Invariant(init, s) && Enabled(s, a)
    requires Settled(init, s, name, inode)
    ensures var t := Apply(s, a);
      && inode in t.files && t.files[inode] == s.files[inode]
      && forall w | 0 <= w < |t.writers| && t.writers[w].phase.Writing? ::
           t.writers[w].phase.inode != inode
  {
    hide IsTemporary, Untouched, Complete;
    assert OwnsTemporary(init, s, a.w);
  }

  lemma StepSettles(init: State, s: State, a: Action, name: Name, inode: nat)
    requires Invariant(init, s) && Enabled(s, a)
    requires !IsTemporary(name) && (name, inode) in Apply(s, a).ever
    ensures Settled(init, Apply(s, a), name, inode)
  {
    hide IsTemporary;
    if (name, inode) in s.ever {
      hide Apply, Enabled;
      StepLeavesFile(init, s, a, name, inode);
      if name !in init.names { StepKeepsComplete(s, a, name, inode); }
    } else {
      LinkSettles(init, s, a, name, inode);
    }
  }

  lemma LinkSettles(init: State, s: State, a: Action, name: Name, inode: nat)
    requires Invariant(init, s) && Enabled(s, a)
    requires !IsTemporary(name) && (name, inode) in Apply(s, a).ever && (name, inode) !in s.ever
    ensures Settled(init, Apply(s, a), name, inode)
  {
    hide IsTemporary;
    var t := Apply(s, a);
    assert OwnsTemporary(init, s, a.w);
    assert a.Link?;
    assert t.writers[a.w].target == name && t.writers[a.w].content == t.files[inode].data;
  }

  lemma StepKeepsOwnership(init: State, s: State, a: Action, w: nat)
    requires Invariant(init, s) && Enabled(s, a) && w < |s.writers|
    ensures |Apply(s, a).writers| == |s.writers|
    ensures OwnsTemporary(init, Apply(s, a), w)
  {
    hide IsTemporary;
    assert OwnsTemporary(init, s, a.w);
    assert OwnsTemporary(init, s, w);
  }

  lemma StepKeepsApart(init: State, s: State, a: Action, v: nat, w: nat)
    requires Invariant(init, s) && Enabled(s, a) && v < w < |s.writers|
    requires Active(Apply(s, a).writers[v].phase) && Active(Apply(s, a).writers[w].phase)
    ensures Apply(s, a).writers[v].phase.inode != Apply(s, a).writers[w].phase.inode
  {
    hide IsTemporary, Settled, LinksExist;
    assert OwnsTemporary(init, s, v) && OwnsTemporary(init, s, w);
  }

  lemma StepKeepsLinks(init: State, s: State, a: Action)
    requires Invariant(init, s) && Enabled(s, a)
    ensures LinksExist(Apply(s, a))
    ensures forall i | i in init.files :: i in Apply(s, a).files
  {
    hide IsTemporary, Settled;
    assert OwnsTemporary(init, s, a.w);
  }

  /** A name that would survive a power loss would still survive one after any action. */
  lemma StepKeepsStable(init: State, s: State, a: Action, name: Name)
    requires Invariant(init, s) && Enabled(s, a)
    requires !IsTemporary(name) && name in s.stable
    ensures name in Apply(s, a).stable
  {
    hide IsTemporary, Settled;
    assert OwnsTemporary(init, s, a.w);
    assert name in s.names;
  }

  lemma StepIsInvariant(init: State, s: State, a: Action)
    requires Invariant(init, s) && Enabled(s, a)
    ensures Invariant(init, Apply(s, a))
  {
    hide IsTemporary, Settled, OwnsTemporary, LinksExist, Apply, Enabled;
    var t := Apply(s, a);
    StepKeepsWriters(s, a);
    StepKeepsLinks(init, s, a);
    forall w: nat | w < |t.writers| ensures OwnsTemporary(init, t, w) {
      StepKeepsOwnership(init, s, a, w);
    }
    forall n, i | (n, i) in t.ever && !IsTemporary(n) ensures Settled(init, t, n, i) {
      StepSettles(init, s, a, n, i);
    }
    forall n | n in init.names && !IsTemporary(n)
      ensures n in t.names && t.names[n] == init.names[n] && n in t.stable
    {
      StepKeepsSettled(init, s, a, n);
      StepKeepsStable(init, s, a, n);
    }
    forall v, w | 0 <= v < w < |t.writers|
      && Active(t.writers[v].phase) && Active(t.writers[w].phase)
      ensures t.writers[v].phase.inode != t.writers[w].phase.inode
    {
      StepKeepsApart(init, s, a, v, w);
    }
  }

  lemma {:induction false} RunIsInvariant(trace: seq<State>, k: nat)
    requires Run(trace) && k < |trace|
    ensures Invariant(trace[0], trace[k])
  {
    hide Invariant, Initial, IsTemporary;
    if k == 0 {
      InitialIsInvariant(trace[0]);
    } else {
      RunIsInvariant(trace, k - 1);
      assert Next(trace[k - 1], trace[k]);
      var a :| Enabled(trace[k - 1], a) && trace[k] == Apply(trace[k - 1], a);
      StepIsInvariant(trace[0], trace[k - 1], a);
    }
  }

  // ---------------------------------------------------------------- theorems

  lemma NameHasFile(init: State, s: State, name: Name)
    requires Invariant(init, s) && name in s.names
    ensures s.names[name] in s.files
  {
    assert (name, s.names[name]) in s.ever;
  }

  lemma InvariantIsSound(init: State, s: State, name: Name)
    requires Invariant(init, s) && !IsTemporary(name)
    ensures Sound(init, s, name)
  {
    hide IsTemporary;
    if name in s.names {
      assert (name, s.names[name]) in s.ever;
      assert Settled(init, s, name, s.names[name]);
    }
  }

  /** Once a receipt path shows something, it shows the same bytes for the rest of the run. */
  lemma {:induction false} NeverOverwritten(trace: seq<State>, j: nat, k: nat, name: Name)
    requires Run(trace) && j <= k < |trace|
    requires !IsTemporary(name) && name in trace[j].names
    ensures name in trace[k].names && trace[k].names[name] == trace[j].names[name]
    ensures trace[j].names[name] in trace[j].files && trace[j].names[name] in trace[k].files
    ensures trace[k].files[trace[j].names[name]] == trace[j].files[trace[j].names[name]]
    decreases k
  {
    hide Initial, IsTemporary, Invariant, Enabled, Apply;
    if j == k {
      RunIsInvariant(trace, j);
      NameHasFile(trace[0], trace[j], name);
    } else {
      NeverOverwritten(trace, j, k - 1, name);
      RunIsInvariant(trace, k - 1);
      assert Next(trace[k - 1], trace[k]);
      var a :| Enabled(trace[k - 1], a) && trace[k] == Apply(trace[k - 1], a);
      StepKeepsSettled(trace[0], trace[k - 1], a, name);
    }
  }

  /**
   After a power loss at any point a receipt that was there before is still there, unchanged, and
   any other path is absent or shows one whole receipt.
   */
  lemma CrashIsSound(trace: seq<State>, k: nat, image: State, name: Name)
    requires Run(trace) && k < |trace| && CrashImage(trace[k], image) && !IsTemporary(name)
    ensures Sound(trace[0], image, name)
  {
    hide IsTemporary, Initial;
    RunIsInvariant(trace, k);
    if name in image.names {
      var i := image.names[name];
      assert Settled(trace[0], trace[k], name, i);
      if name !in trace[0].names {
        var w :| 0 <= w < |trace[k].writers| && trace[k].writers[w].target == name
          && trace[k].writers[w].content == trace[k].files[i].data;
        assert image.writers[w].target == name && image.writers[w].content == image.files[i].data;
      }
    }
  }

  /** Everything a run can show at a path, at every one of its states and after a crash there. */
  ghost predicate Guaranteed(name: Name) {
    forall trace: seq<State> | Run(trace) :: AlwaysSound(trace, name)
  }

  ghost predicate AlwaysSound(trace: seq<State>, name: Name)
    requires Run(trace)
  {
    && Sound(trace[0], trace[|trace| - 1], name)
    && forall image | CrashImage(trace[|trace| - 1], image) :: Sound(trace[0], image, name)
  }

  /**
   The guarantee holds for a receipt path exactly when no writer could draw that name for its
   temporary file.
   */
  lemma PublicationGuarantee(name: Name)
    ensures Guaranteed(name) <==> !IsTemporary(name)
  {
    if IsTemporary(name) {
      var s0 := State(map[], map[], {}, map[], [Writer("receipt", [1], Idle)]);
      var s1 := Apply(s0, Check(0));
      var s2 := Apply(s1, CreateTemporary(0, name, 0));
      var trace := [s0, s1, s2];
      assert Next(trace[0], trace[1]) && Next(trace[1], trace[2]);
      assert Run(trace);
      assert !Complete(s2, name, 0);
      assert !Sound(trace[0], trace[|trace| - 1], name);
      assert !AlwaysSound(trace, name);
    } else {
      forall trace: seq<State> | Run(trace) ensures AlwaysSound(trace, name) {
        hide IsTemporary, Invariant, Initial, CrashImage, Sound;
        var end := trace[|trace| - 1];
        RunIsInvariant(trace, |trace| - 1);
        InvariantIsSound(trace[0], end, name);
        forall image | CrashImage(end, image) ensures Sound(trace[0], image, name) {
          CrashIsSound(trace, |trace| - 1, image, name);
        }
      }
    }
  }

  // ---------------------------------------------------------------- success is durable

  /** A writer past its link shows its own bytes; past the directory sync they are on disk. */
  ghost predicate Published(s: State, w: nat)
    requires w < |s.writers|
  {
    var writer := s.writers[w];
    var p := writer.phase;
    var synced := (p.Cleaning? || p.Done?) && p.succeeded;
    (p.Linked? || synced) && !IsTemporary(writer.target) ==>
      && writer.target in s.names && s.names[writer.target] in s.files
      && s.files[s.names[writer.target]] == File(writer.content, true)
      && (synced ==> writer.target in s.stable && s.stable[writer.target] == s.names[writer.target])
  }

  lemma StepPublishes(init: State, s: State, a: Action, w: nat)
    requires Invariant(init, s) && Enabled(s, a) && w < |s.writers| && Published(s, w)
    ensures |Apply(s, a).writers| == |s.writers| && Published(Apply(s, a), w)
  {
    hide IsTemporary;
    StepKeepsWriters(s, a);
    assert OwnsTemporary(init, s, a.w);
    var target := s.writers[w].target;
    if !IsTemporary(target) && target in s.names {
      StepKeepsSettled(init, s, a, target);
    }
  }

  /** A writer that reports success has its complete receipt on disk, whatever happens next. */
  lemma {:induction false} SuccessIsDurable(trace: seq<State>, k: nat, w: nat)
    requires Run(trace) && k < |trace| && w < |trace[0].writers|
    ensures |trace[k].writers| == |trace[0].writers| && Published(trace[k], w)
    decreases k
  {
    hide Invariant, Apply, Enabled, IsTemporary;
    if k > 0 {
      SuccessIsDurable(trace, k - 1, w);
      RunIsInvariant(trace, k - 1);
      assert Next(trace[k - 1], trace[k]);
      var a :| Enabled(trace[k - 1], a) && trace[k] == Apply(trace[k - 1], a);
      StepPublishes(trace[0], trace[k - 1], a, w);
    }
  }

  lemma StepKeepsDone(s: State, a: Action, w: nat)
    requires Enabled(s, a) && w < |s.writers| && s.writers[w].phase.Done?
    ensures w < |Apply(s, a).writers| && Apply(s, a).writers[w] == s.writers[w]
  {
  }

  /** A writer that is done stays done. */
  lemma {:induction false} DoneStays(trace: seq<State>, j: nat, k: nat, w: nat)
    requires Run(trace) && j <= k < |trace| && w < |trace[j].writers|
    requires trace[j].writers[w].phase.Done?
    ensures w < |trace[k].writers| && trace[k].writers[w] == trace[j].writers[w]
    decreases k
  {
    hide Apply, Enabled;
    if j < k {
      DoneStays(trace, j, k - 1, w);
      assert Next(trace[k - 1], trace[k]);
      var a :| Enabled(trace[k - 1], a) && trace[k] == Apply(trace[k - 1], a);
      StepKeepsDone(trace[k - 1], a, w);
    }
  }

  /**
   Once a writer has reported success, every later power loss leaves its own complete receipt at
   its path.
   */
  lemma SuccessSurvivesCrash(trace: seq<State>, j: nat, k: nat, w: nat, image: State)
    requires Run(trace) && j <= k < |trace| && w < |trace[j].writers|
    requires trace[j].writers[w].phase == Done(true) && !IsTemporary(trace[j].writers[w].target)
    requires CrashImage(trace[k], image)
    ensures var writer := trace[j].writers[w];
      && writer.target in image.names && image.names[writer.target] in image.files
      && image.files[image.names[writer.target]] == File(writer.content, true)
  {
    hide IsTemporary, Next, Initial;
    DoneStays(trace, j, k, w);
    WritersStay(trace, k);
    SuccessIsDurable(trace, k, w);
  }

  lemma {:induction false} WritersStay(trace: seq<State>, k: nat)
    requires Run(trace) && k < |trace|
    ensures |trace[k].writers| == |trace[0].writers|
  {
    if k > 0 {
      WritersStay(trace, k - 1);
      assert Next(trace[k - 1], trace[k]);
    }
  }

  // ---------------------------------------------------------------- publication can succeed

  /** The actions of one writer that never fails and is never disturbed. */
  function Undisturbed(w: nat, name: Name, inode: nat, content: Bytes): seq<Action> {
    [Check(w), CreateTemporary(w, name, inode)]
    + (if content == [] then [] else [Write(w, |content|)])
    + [SyncFile(w), Link(w), SyncDirectory(w), Unlink(w)]
  }

  /** The actions are enabled one after the other, and lead from s to t. */
  ghost predicate Leads(s: State, actions: seq<Action>, t: State)
    decreases |actions|
  {
    if actions == [] then s == t
    else Enabled(s, actions[0]) && Leads(Apply(s, actions[0]), actions[1..], t)
  }

  lemma {:induction false} LeadsFurther(s: State, actions: seq<Action>, t: State, a: Action)
    requires Leads(s, actions, t) && Enabled(t, a)
    ensures Leads(s, actions + [a], Apply(t, a))
    decreases |actions|
  {
    hide Apply, Enabled;
    if actions == [] {
      assert [a][1..] == [];
      assert Leads(Apply(t, a), [], Apply(t, a));
    } else {
      LeadsFurther(Apply(s, actions[0]), actions[1..], t, a);
      assert (actions + [a])[1..] == actions[1..] + [a];
    }
  }

  /** A writer that has its temporary file complete and synced, and otherwise the state s. */
  function Prepared(s: State, w: nat, name: Name, inode: nat): State
    requires w < |s.writers|
  {
    Move(Bind(s, name, inode).(files := s.files[inode := File(s.writers[w].content, true)]), w,
         Synced(name, inode))
  }

  /** Its receipt is at its target and on disk, and nothing else has changed. */
  function PublishedBy(s: State, w: nat, name: Name, inode: nat): State
    requires w < |s.writers|
  {
    var names := s.names[s.writers[w].target := inode] - {name};
    State(names, names, s.ever + {(name, inode), (s.writers[w].target, inode)},
          s.files[inode := File(s.writers[w].content, true)],
          s.writers[w := s.writers[w].(phase := Done(true))])
  }

  /**
   From any state, a writer that has not begun, finds its target free and is left alone publishes
   its receipt; every other name, file and writer stays as it was.
   */
  lemma LoneWriterSucceeds(s: State, w: nat, name: Name, inode: nat)
    requires w < |s.writers| && s.writers[w].phase.Idle? && s.writers[w].target !in s.names
    requires IsTemporary(name) && name !in s.names && name != s.writers[w].target
    requires inode !in s.files
    ensures Leads(s, Undisturbed(w, name, inode, s.writers[w].content),
                  PublishedBy(s, w, name, inode))
    ensures var t := PublishedBy(s, w, name, inode);
      var writer := s.writers[w];
      && t.writers[w].phase == Done(true)
      && writer.target in t.stable && t.stable == t.names
      && t.files[t.names[writer.target]] == File(writer.content, true)
      && (forall n | n in s.names :: n in t.names && t.names[n] == s.names[n])
      && (forall i | i in s.files :: t.files[i] == s.files[i])
  {
    hide IsTemporary, Leads, Prepared, PublishedBy;
    var done := Begins(s, w, name, inode);
    Finishes(s, w, name, inode, done);
    assert done + [Link(w), SyncDirectory(w), Unlink(w)]
      == Undisturbed(w, name, inode, s.writers[w].content);
    PublishedMeans(s, w, name, inode);
  }

  lemma PublishedMeans(s: State, w: nat, name: Name, inode: nat)
    requires w < |s.writers| && s.writers[w].target !in s.names
    requires name !in s.names && name != s.writers[w].target && inode !in s.files
    ensures var t := PublishedBy(s, w, name, inode);
      var writer := s.writers[w];
      && t.writers[w].phase == Done(true)
      && writer.target in t.stable && t.stable == t.names
      && t.files[t.names[writer.target]] == File(writer.content, true)
      && (forall n | n in s.names :: n in t.names && t.names[n] == s.names[n])
      && (forall i | i in s.files :: t.files[i] == s.files[i])
  {
  }

  lemma Begins(s: State, w: nat, name: Name, inode: nat) returns (done: seq<Action>)
    requires w < |s.writers| && s.writers[w].phase.Idle? && s.writers[w].target !in s.names
    requires IsTemporary(name) && name !in s.names && inode !in s.files
    ensures var content := s.writers[w].content;
      done == [Check(w), CreateTemporary(w, name, inode)]
        + (if content == [] then [] else [Write(w, |content|)]) + [SyncFile(w)]
    ensures Leads(s, done, Prepared(s, w, name, inode))
  {
    hide IsTemporary, Leads;
    var content := s.writers[w].content;
    LeadsNowhere(s);
    var s1 := Apply(s, Check(w));
    LeadsFurther(s, [], s, Check(w));
    var s2 := Apply(s1, CreateTemporary(w, name, inode));
    LeadsFurther(s, [] + [Check(w)], s1, CreateTemporary(w, name, inode));
    done := [Check(w), CreateTemporary(w, name, inode)];
    assert [] + [Check(w)] + [CreateTemporary(w, name, inode)] == done;
    Fills(s, w, name, inode, s2);
    if content == [] {
      LeadsFurther(s, done, s2, SyncFile(w));
      done := done + [SyncFile(w)];
    } else {
      LeadsFurther(s, done, s2, Write(w, |content|));
      LeadsFurther(s, done + [Write(w, |content|)], Apply(s2, Write(w, |content|)), SyncFile(w));
      done := done + [Write(w, |content|)] + [SyncFile(w)];
    }
  }

  lemma Fills(s: State, w: nat, name: Name, inode: nat, s2: State)
    requires w < |s.writers| && s.writers[w].phase.Idle? && s.writers[w].target !in s.names
    requires IsTemporary(name) && name !in s.names && inode !in s.files
    requires s2 == Apply(Apply(s, Check(w)), CreateTemporary(w, name, inode))
    ensures var content := s.writers[w].content;
      if content == [] then
        Enabled(s2, SyncFile(w)) && Apply(s2, SyncFile(w)) == Prepared(s, w, name, inode)
      else
        && Enabled(s2, Write(w, |content|))
        && Enabled(Apply(s2, Write(w, |content|)), SyncFile(w))
        && Apply(Apply(s2, Write(w, |content|)), SyncFile(w)) == Prepared(s, w, name, inode)
  {
    hide IsTemporary;
    var content := s.writers[w].content;
    assert content[..|content|] == content;
  }

  lemma LeadsNowhere(s: State)
    ensures Leads(s, [], s)
  {
  }

  lemma Finishes(s: State, w: nat, name: Name, inode: nat, done: seq<Action>)
    requires w < |s.writers| && s.writers[w].phase.Idle? && s.writers[w].target !in s.names
    requires name !in s.names && name != s.writers[w].target && inode !in s.files
    requires Leads(s, done, Prepared(s, w, name, inode))
    ensures Leads(s, done + [Link(w), SyncDirectory(w), Unlink(w)], PublishedBy(s, w, name, inode))
  {
    hide Leads;
    var s4 := Prepared(s, w, name, inode);
    var s5 := Apply(s4, Link(w));
    LeadsFurther(s, done, s4, Link(w));
    var s6 := Apply(s5, SyncDirectory(w));
    LeadsFurther(s, done + [Link(w)], s5, SyncDirectory(w));
    LeadsFurther(s, done + [Link(w)] + [SyncDirectory(w)], s6, Unlink(w));
    assert done + [Link(w)] + [SyncDirectory(w)] + [Unlink(w)]
      == done + [Link(w), SyncDirectory(w), Unlink(w)];
    var end, goal := Apply(s6, Unlink(w)), PublishedBy(s, w, name, inode);
    assert end.names == goal.names && end.stable == goal.stable && end.ever == goal.ever;
    assert end.files == goal.files && end.writers == goal.writers;
  }

  // ---------------------------------------------------------------- what the guarantees rest on

  ghost predicate DrawnAfterPrefix(name: Name, drawn: string) {
    && name == ".incomplete-receipt-" + drawn && |drawn| == 8
    && forall c | c in drawn :: 'a' <= c <= 'z' || '0' <= c <= '9' || c == '_'
  }

  /** The names the factory draws: the prefix and eight of its characters. */
  lemma TemporaryNames(name: Name)
    ensures IsTemporary(name) <==> exists drawn :: DrawnAfterPrefix(name, drawn)
  {
    if IsTemporary(name) {
      var drawn := name[|TEMPORARY_PREFIX|..];
      assert name == ".incomplete-receipt-" + drawn;
      forall c | c in drawn ensures Drawn(c) {
        var i :| 0 <= i < |drawn| && drawn[i] == c;
        assert drawn[i] == name[|TEMPORARY_PREFIX| + i];
      }
      assert DrawnAfterPrefix(name, drawn);
    }
    if drawn :| DrawnAfterPrefix(name, drawn) {
      forall i | |TEMPORARY_PREFIX| <= i < |name| ensures Drawn(name[i]) {
        assert name[i] == drawn[i - |TEMPORARY_PREFIX|];
        assert name[i] in drawn;
      }
    }
  }

  /**
   Until its file is synced, a power loss may leave anything in it: what a writer has written so far
   is not on disk in any state of any run.
   */
  lemma UnsyncedMayBeLost(trace: seq<State>, k: nat, w: nat, garbage: Bytes)
    requires Run(trace) && k < |trace| && w < |trace[k].writers| && trace[k].writers[w].phase.Writing?
    ensures var s := trace[k];
      var inode := s.writers[w].phase.inode;
      && inode in s.files
      && CrashImage(s, s.(files := s.files[inode := File(garbage, true)]))
  {
    hide IsTemporary, Settled;
    RunIsInvariant(trace, k);
    assert OwnsTemporary(trace[0], trace[k], w);
  }
}
