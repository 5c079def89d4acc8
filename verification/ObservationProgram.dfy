/** The sequential program: runs of accepted windows, each bound to the closeout before it. */
module ObservationProgram {
  import opened Text
  import opened ObservationDocuments
  import opened ObservationHistory

  datatype Window = Window(start: Start, checkpoints: seq<Checkpoint>, closeout: Closeout)

  function CloseoutBefore(run: seq<Window>, k: nat): Option<Closeout>
    requires k <= |run|
  {
    if k == 0 then None else Some(run[k - 1].closeout)
  }

  /** Every window is fully accepted against the closeout of the window before it. */
  ghost predicate AcceptedRun(gate: Gate, policy: Policy, run: seq<Window>) {
    forall k: nat | k < |run| ::
      CloseoutOk(gate, policy, run[k].start, run[k].checkpoints, run[k].closeout,
                 CloseoutBefore(run, k))
  }

  /** What validates in full also validates structurally, as a predecessor must. */
  lemma FullIsStructural(
    gate: Gate, policy: Policy, start: Start, checkpoints: seq<Checkpoint>, document: Closeout,
    previousCloseout: Option<Closeout>)
    requires CloseoutOk(gate, policy, start, checkpoints, document, previousCloseout)
    ensures StructuralCloseoutOk(gate, policy, document)
  {
    hide DocumentOk, ChainOk, BucketsOk, ProofsOk, RepeatsLast, MinimaOk;
    hide RuleOk, PolicyOk, CountersOk, Integer, FingerprintOk, PredecessorOk, Refs;
  }

  /** The facts about one accepted window that relate it to its neighbour. */
  lemma WindowFacts(
    gate: Gate, policy: Policy, start: Start, checkpoints: seq<Checkpoint>, document: Closeout,
    previousCloseout: Option<Closeout>) returns (position: nat)
    requires CloseoutOk(gate, policy, start, checkpoints, document, previousCloseout)
    ensures position < |SEQUENCE| && SEQUENCE[position] == document.payload.windowId
    ensures position == 0 <==> previousCloseout.None?
    ensures position > 0 ==>
      && previousCloseout.value.payload.windowId == SEQUENCE[position - 1]
      && previousCloseout.value.payload.fingerprintSha == document.payload.fingerprintSha
      && previousCloseout.value.payload.endedAt.at <= document.payload.startedAt.at
      && start.payload.previousCloseoutRef == Some(previousCloseout.value.objectId)
    ensures document.payload.fingerprintSha
         == gate.sha(FingerprintMaterial(start.payload.fingerprint))
    ensures document.payload.startedAt.at < document.payload.endedAt.at
    ensures document.objectId == ObjectId(gate, CloseoutMaterial(document.payload))
    ensures start.objectId == ObjectId(gate, StartMaterial(start.payload))
    ensures document.payload.startRef == start.objectId
  {
    hide ChainOk, BucketsOk, ProofsOk, RepeatsLast, MinimaOk;
    hide RuleOk, PolicyOk, CountersOk, FingerprintOk, Refs;
    position := AcceptedRule(policy, document.payload.windowId);
  }

  /** Positions in a run are positions in the frozen sequence. */
  lemma {:induction false} RunFollowsSequence(gate: Gate, policy: Policy, run: seq<Window>, k: nat)
    requires AcceptedRun(gate, policy, run) && k < |run|
    ensures k < |SEQUENCE| && run[k].closeout.payload.windowId == SEQUENCE[k]
    ensures run[k].closeout.payload.startedAt.at < run[k].closeout.payload.endedAt.at
  {
    hide CloseoutOk;
    var w := run[k];
    assert CloseoutOk(gate, policy, w.start, w.checkpoints, w.closeout, CloseoutBefore(run, k));
    hide AcceptedRun, ObjectId;
    var position := WindowFacts(gate, policy, w.start, w.checkpoints, w.closeout, CloseoutBefore(run, k));
    if k > 0 {
      RunFollowsSequence(gate, policy, run, k - 1);
      SequenceDistinct(position - 1, k - 1);
    }
  }

  lemma SequenceDistinct(i: nat, j: nat)
    requires i < |SEQUENCE| && j < |SEQUENCE| && SEQUENCE[i] == SEQUENCE[j]
    ensures i == j
  {
    assert |SEQUENCE[0]| == 13 && |SEQUENCE[1]| == 12 && |SEQUENCE[2]| == 13 && |SEQUENCE[3]| == 9;
    assert SEQUENCE[0][0] == 'S' && SEQUENCE[2][0] == 'I';
  }

  /** A later window starts after every earlier one ended, on the same release fingerprint. */
  lemma {:induction false} RunIsSequential(
    gate: Gate, policy: Policy, run: seq<Window>, j: nat, k: nat)
    requires AcceptedRun(gate, policy, run) && j < k < |run|
    ensures run[j].closeout.payload.endedAt.at <= run[k].closeout.payload.startedAt.at
    ensures run[j].closeout.payload.fingerprintSha == run[k].closeout.payload.fingerprintSha
    decreases k
  {
    hide CloseoutOk;
    var w := run[k];
    assert CloseoutOk(gate, policy, w.start, w.checkpoints, w.closeout, CloseoutBefore(run, k));
    var _ := WindowFacts(gate, policy, w.start, w.checkpoints, w.closeout, CloseoutBefore(run, k));
    if j < k - 1 {
      RunIsSequential(gate, policy, run, j, k - 1);
      RunFollowsSequence(gate, policy, run, k - 1);
    }
  }

  /** What the documents of a window are identified by. */
  ghost predicate Hashed(w: Window, m: Material) {
    || m == StartMaterial(w.start.payload)
    || m == FingerprintMaterial(w.start.payload.fingerprint)
    || m == CloseoutMaterial(w.closeout.payload)
    || exists i :: 0 <= i < |w.checkpoints| && m == CheckpointMaterial(w.checkpoints[i].payload)
  }

  ghost predicate NoCollisionBetween(gate: Gate, a: Window, b: Window) {
    forall x, y | Hashed(a, x) && Hashed(b, y) :: Apart(gate.sha, x, y)
  }

  /** The digest confuses no two things hashed in these two runs. */
  ghost predicate NoCollision(gate: Gate, a: seq<Window>, b: seq<Window>) {
    forall i, j | 0 <= i < |a| && 0 <= j < |b| :: NoCollisionBetween(gate, a[i], b[j])
  }

  /** Fixed order, pairwise disjoint intervals and one release throughout. */
  lemma ProgramIsSequential(gate: Gate, policy: Policy, run: seq<Window>)
    requires AcceptedRun(gate, policy, run)
    ensures |run| <= |SEQUENCE|
    ensures forall k: nat | k < |run| :: run[k].closeout.payload.windowId == SEQUENCE[k]
    ensures forall j: nat, k: nat | j < k < |run| ::
      && run[j].closeout.payload.startedAt.at < run[j].closeout.payload.endedAt.at
      && run[j].closeout.payload.endedAt.at <= run[k].closeout.payload.startedAt.at
      && run[j].closeout.payload.fingerprintSha == run[k].closeout.payload.fingerprintSha
    ensures NoCollision(gate, run, run) ==>
      forall j: nat, k: nat | j < k < |run| ::
        run[j].start.payload.fingerprint == run[k].start.payload.fingerprint
  {
    hide CloseoutOk, AcceptedRun;
    if run != [] { RunFollowsSequence(gate, policy, run, |run| - 1); }
    forall k: nat | k < |run|
      ensures run[k].closeout.payload.windowId == SEQUENCE[k]
      ensures run[k].closeout.payload.startedAt.at < run[k].closeout.payload.endedAt.at
      ensures run[k].closeout.payload.fingerprintSha
           == gate.sha(FingerprintMaterial(run[k].start.payload.fingerprint))
    {
      RunFollowsSequence(gate, policy, run, k);
      RunFingerprint(gate, policy, run, k);
    }
    forall j: nat, k: nat | j < k < |run|
      ensures run[j].closeout.payload.endedAt.at <= run[k].closeout.payload.startedAt.at
      ensures run[j].closeout.payload.fingerprintSha == run[k].closeout.payload.fingerprintSha
    {
      RunIsSequential(gate, policy, run, j, k);
    }
    if NoCollision(gate, run, run) {
      forall j: nat, k: nat | j < k < |run|
        ensures run[j].start.payload.fingerprint == run[k].start.payload.fingerprint
      {
        var x := FingerprintMaterial(run[j].start.payload.fingerprint);
        var y := FingerprintMaterial(run[k].start.payload.fingerprint);
        assert NoCollisionBetween(gate, run[j], run[k]);
        assert Hashed(run[j], x) && Hashed(run[k], y);
        assert Apart(gate.sha, x, y);
      }
    }
  }

  lemma RunFingerprint(gate: Gate, policy: Policy, run: seq<Window>, k: nat)
    requires AcceptedRun(gate, policy, run) && k < |run|
    ensures run[k].closeout.payload.fingerprintSha
         == gate.sha(FingerprintMaterial(run[k].start.payload.fingerprint))
  {
    hide CloseoutOk;
    var w := run[k];
    assert CloseoutOk(gate, policy, w.start, w.checkpoints, w.closeout, CloseoutBefore(run, k));
    var _ := WindowFacts(gate, policy, w.start, w.checkpoints, w.closeout, CloseoutBefore(run, k));
  }

  // ---------------------------------------------------------------- tamper evidence

  /** Two windows record the same history: all payloads agree. */
  ghost predicate SameHistory(a: Window, b: Window) {
    && a.start.payload == b.start.payload
    && a.closeout.payload == b.closeout.payload
    && |a.checkpoints| == |b.checkpoints|
    && forall i | 0 <= i < |a.checkpoints| :: a.checkpoints[i].payload == b.checkpoints[i].payload
  }

  lemma SameReferenceSameMaterial(gate: Gate, a: Material, b: Material)
    requires Apart(gate.sha, a, b)
    requires Prefix(a) == Prefix(b) && ObjectId(gate, a) == ObjectId(gate, b)
    ensures a == b
  {
    var n := |Prefix(a)| + 1;
    assert ObjectId(gate, a)[n..] == gate.sha(a);
    assert ObjectId(gate, b)[n..] == gate.sha(b);
  }

  lemma CheckpointIdentity(
    gate: Gate, policy: Policy, start: Start, checkpoints: seq<Checkpoint>, document: Closeout,
    previousCloseout: Option<Closeout>, i: nat)
    requires CloseoutOk(gate, policy, start, checkpoints, document, previousCloseout)
    requires i < |checkpoints|
    ensures |document.payload.checkpointRefs| == |checkpoints|
    ensures document.payload.checkpointRefs[i]
         == ObjectId(gate, CheckpointMaterial(checkpoints[i].payload))
  {
    hide CloseoutOk, ChainOk, StartOk, BucketsOk, MinimaOk, RuleOk, PolicyOk, CountersOk;
    CloseoutParts(gate, policy, start, checkpoints, document, previousCloseout);
    StepDocument(gate, policy, start, checkpoints, previousCloseout, i);
  }

  lemma StepDocument(
    gate: Gate, policy: Policy, start: Start, checkpoints: seq<Checkpoint>,
    previousCloseout: Option<Closeout>, i: nat)
    requires ChainOk(gate, policy, start, checkpoints, previousCloseout) && i < |checkpoints|
    ensures checkpoints[i].objectId
         == ObjectId(gate, CheckpointMaterial(checkpoints[i].payload))
  {
    hide StartOk, CountersOk, PriorState, Refs, Integer;
    assert CheckpointOk(gate, policy, start, Before(checkpoints, i), previousCloseout, checkpoints[i]);
  }

  /** Equal closeout payloads of two accepted windows pin the start and every checkpoint. */
  lemma CloseoutPinsWindow(
    gate: Gate, policy: Policy, a: Window, b: Window,
    beforeA: Option<Closeout>, beforeB: Option<Closeout>)
    requires NoCollisionBetween(gate, a, b)
    requires CloseoutOk(gate, policy, a.start, a.checkpoints, a.closeout, beforeA)
    requires CloseoutOk(gate, policy, b.start, b.checkpoints, b.closeout, beforeB)
    requires a.closeout.payload == b.closeout.payload
    ensures SameHistory(a, b)
  {
    hide CloseoutOk, ObjectId;
    var _ := WindowFacts(gate, policy, a.start, a.checkpoints, a.closeout, beforeA);
    var _ := WindowFacts(gate, policy, b.start, b.checkpoints, b.closeout, beforeB);
    var x, y := StartMaterial(a.start.payload), StartMaterial(b.start.payload);
    assert Hashed(a, x) && Hashed(b, y);
    SameReferenceSameMaterial(gate, x, y);
    RefCount(gate, policy, a.start, a.checkpoints, a.closeout, beforeA);
    RefCount(gate, policy, b.start, b.checkpoints, b.closeout, beforeB);
    forall i: nat | i < |a.checkpoints|
      ensures a.checkpoints[i].payload == b.checkpoints[i].payload
    {
      CheckpointIdentity(gate, policy, a.start, a.checkpoints, a.closeout, beforeA, i);
      CheckpointIdentity(gate, policy, b.start, b.checkpoints, b.closeout, beforeB, i);
      var x := CheckpointMaterial(a.checkpoints[i].payload);
      var y := CheckpointMaterial(b.checkpoints[i].payload);
      assert Hashed(a, x) && Hashed(b, y);
      SameReferenceSameMaterial(gate, x, y);
    }
  }

  lemma RefCount(
    gate: Gate, policy: Policy, start: Start, checkpoints: seq<Checkpoint>, document: Closeout,
    previousCloseout: Option<Closeout>)
    requires CloseoutOk(gate, policy, start, checkpoints, document, previousCloseout)
    ensures |document.payload.checkpointRefs| == |checkpoints|
  {
    hide CloseoutOk, ChainOk, StartOk, BucketsOk, MinimaOk, RuleOk, PolicyOk, CountersOk;
    CloseoutParts(gate, policy, start, checkpoints, document, previousCloseout);
  }

  /**
   One closeout identity pins the entire program: two accepted runs whose last closeouts carry the
   same object id have the same length and the same history in every window.
   */
  lemma {:induction false} CloseoutPinsProgram(
    gate: Gate, policy: Policy, a: seq<Window>, b: seq<Window>)
    requires NoCollision(gate, a, b)
    requires AcceptedRun(gate, policy, a) && AcceptedRun(gate, policy, b)
    requires a != [] && b != []
    requires a[|a| - 1].closeout.objectId == b[|b| - 1].closeout.objectId
    ensures |a| == |b|
    ensures forall k: nat | k < |a| :: SameHistory(a[k], b[k])
    decreases |a|
  {
    hide CloseoutOk, ObjectId, SameHistory;
    var m, n := |a| - 1, |b| - 1;
    var wa, wb := a[m], b[n];
    assert CloseoutOk(gate, policy, wa.start, wa.checkpoints, wa.closeout, CloseoutBefore(a, m));
    assert CloseoutOk(gate, policy, wb.start, wb.checkpoints, wb.closeout, CloseoutBefore(b, n));
    var _ := WindowFacts(gate, policy, wa.start, wa.checkpoints, wa.closeout, CloseoutBefore(a, m));
    var _ := WindowFacts(gate, policy, wb.start, wb.checkpoints, wb.closeout, CloseoutBefore(b, n));
    var x, y := CloseoutMaterial(wa.closeout.payload), CloseoutMaterial(wb.closeout.payload);
    assert NoCollisionBetween(gate, a[m], b[n]);
    assert Hashed(wa, x) && Hashed(wb, y);
    SameReferenceSameMaterial(gate, x, y);
    CloseoutPinsWindow(gate, policy, wa, wb, CloseoutBefore(a, m), CloseoutBefore(b, n));
    RunFollowsSequence(gate, policy, a, m);
    RunFollowsSequence(gate, policy, b, n);
    SequenceDistinct(m, n);
    if m > 0 {
      SameStart(wa, wb);
      PrefixAccepted(gate, policy, a);
      PrefixAccepted(gate, policy, b);
      assert NoCollision(gate, a[..m], b[..m]);
      CloseoutPinsProgram(gate, policy, a[..m], b[..m]);
      forall k: nat | k < |a| ensures SameHistory(a[k], b[k]) {
        if k < m { assert SameHistory(a[..m][k], b[..m][k]); }
      }
    }
  }

  lemma SameStart(a: Window, b: Window)
    requires SameHistory(a, b)
    ensures a.start.payload == b.start.payload
  {
  }

  lemma PrefixAccepted(gate: Gate, policy: Policy, run: seq<Window>)
    requires AcceptedRun(gate, policy, run) && run != []
    ensures AcceptedRun(gate, policy, run[..|run| - 1])
  {
    hide CloseoutOk;
    var shorter := run[..|run| - 1];
    forall k: nat | k < |shorter|
      ensures CloseoutOk(gate, policy, shorter[k].start, shorter[k].checkpoints,
                         shorter[k].closeout, CloseoutBefore(shorter, k))
    {
      assert CloseoutBefore(shorter, k) == CloseoutBefore(run, k);
    }
  }
}
