/** What local acceptance of each checkpoint implies about the whole window. */
module ObservationHistory {
  import opened Text
  import opened ObservationDocuments

  /** The state a checkpoint leaves for its successor. */
  function StateOf(document: Checkpoint): Prior {
    var p := document.payload;
    Prior(p.counters, Elements(p.openedRefs), Elements(p.closedRefs), Elements(p.resetRefs),
          p.index, p.observedAt.at, Some(document.objectId))
  }

  /** Invariant of a predecessor state within a window. */
  ghost predicate Anchored(start: Start, prior: Prior)
    requires CountersOk(start.payload.baseline)
  {
    && CountersOk(prior.counters)
    && (forall c: Counter :: start.payload.baseline[c] <= prior.counters[c])
    && prior.counters[RuntimeResets] - start.payload.baseline[RuntimeResets] == |prior.resetRefs|
    && start.payload.plannedStart.at <= prior.at
    && prior.closedRefs <= prior.openedRefs
    && 0 <= prior.index
  }

  /** Facts of one accepted step, free of the gate's syntax checks. */
  ghost predicate Advances(start: Start, prior: Prior, p: CheckpointPayload) {
    && CountersOk(p.counters) && CountersOk(prior.counters)
    && p.index == prior.index + 1
    && prior.at < p.observedAt.at <= start.payload.plannedEnd.at
    && (forall c: Counter :: prior.counters[c] <= p.counters[c])
    && (forall c | c in ZERO_FIELDS :: p.counters[c] == 0)
    && prior.openedRefs <= Elements(p.openedRefs) && prior.closedRefs <= Elements(p.closedRefs)
    && prior.resetRefs <= Elements(p.resetRefs)
    && Elements(p.closedRefs) <= Elements(p.openedRefs)
    && Elements(p.activeRefs) == Elements(p.openedRefs) - Elements(p.closedRefs)
    && p.counters[RuntimeResets] - prior.counters[RuntimeResets]
         == |Elements(p.resetRefs) - prior.resetRefs|
  }

  lemma StepAdvances(gate: Gate, start: Start, prior: Prior, document: Checkpoint)
    requires StepOk(gate, start, prior, document)
    ensures Advances(start, prior, document.payload)
  {
    hide DocumentOk, Refs, Integer;
  }

  /** An anchored predecessor hands an anchored state on: reset growth telescopes. */
  lemma AdvanceAnchors(start: Start, prior: Prior, document: Checkpoint)
    requires CountersOk(start.payload.baseline)
    requires Anchored(start, prior) && Advances(start, prior, document.payload)
    ensures Anchored(start, StateOf(document))
  {
    var resets := Elements(document.payload.resetRefs);
    assert resets == prior.resetRefs + (resets - prior.resetRefs);
  }

  /** The independent re-check of an accepted checkpoint succeeds and recovers its state. */
  lemma AcceptedIsExtendable(gate: Gate, start: Start, prior: Prior, document: Checkpoint)
    requires CountersOk(start.payload.baseline)
    requires Anchored(start, prior) && StepOk(gate, start, prior, document)
    ensures PriorState(gate, start, Some(document)) == Some(StateOf(document))
  {
    hide DocumentOk, Refs;
    StepAdvances(gate, start, prior, document);
    AdvanceAnchors(start, prior, document);
  }

  /** A re-check that succeeds yields nothing but the document's own state. */
  lemma PriorStateIsStateOf(gate: Gate, start: Start, document: Checkpoint)
    requires CountersOk(start.payload.baseline)
    requires PriorState(gate, start, Some(document)).Some?
    ensures PriorState(gate, start, Some(document)).value == StateOf(document)
  {
    hide DocumentOk, Refs, Integer, CountersOk;
  }

  lemma StartBaseline(
    gate: Gate, policy: Policy, start: Start, previousCloseout: Option<Closeout>)
    requires StartOk(gate, policy, start, previousCloseout)
    ensures CountersOk(start.payload.baseline)
    ensures forall c | c in ZERO_FIELDS :: start.payload.baseline[c] == 0
  {
    hide DocumentOk, FingerprintOk, ProofsOk, PredecessorOk, PolicyOk, Integer;
  }

  function InitialState(start: Start): Prior {
    Prior(start.payload.baseline, {}, {}, {}, 0, start.payload.plannedStart.at, None)
  }

  function StateBefore(start: Start, checkpoints: seq<Checkpoint>, i: nat): Prior
    requires i <= |checkpoints|
  {
    if i == 0 then InitialState(start) else StateOf(checkpoints[i - 1])
  }

  /** Checkpoint i of an accepted chain advances an anchored state and leaves an anchored one. */
  lemma {:induction false} ChainAt(
    gate: Gate, policy: Policy, start: Start, checkpoints: seq<Checkpoint>,
    previousCloseout: Option<Closeout>, i: nat)
    requires CountersOk(start.payload.baseline)
    requires ChainOk(gate, policy, start, checkpoints, previousCloseout) && i < |checkpoints|
    ensures Anchored(start, StateBefore(start, checkpoints, i))
    ensures StepOk(gate, start, StateBefore(start, checkpoints, i), checkpoints[i])
    ensures Advances(start, StateBefore(start, checkpoints, i), checkpoints[i].payload)
    ensures Anchored(start, StateOf(checkpoints[i]))
    ensures checkpoints[i].payload.index == i + 1
  {
    hide StepOk, StartOk, CountersOk, PriorState, Advances, Anchored;
    var prior := StateBefore(start, checkpoints, i);
    assert CheckpointOk(gate, policy, start, Before(checkpoints, i), previousCloseout, checkpoints[i]);
    if i == 0 {
      InitialAnchored(start);
      FirstPrior(gate, start);
    } else {
      ChainAt(gate, policy, start, checkpoints, previousCloseout, i - 1);
      PriorStateIsStateOf(gate, start, checkpoints[i - 1]);
    }
    StepAdvances(gate, start, prior, checkpoints[i]);
    AdvanceAnchors(start, prior, checkpoints[i]);
    AdvanceIndex(start, prior, checkpoints[i].payload);
  }

  lemma AdvanceIndex(start: Start, prior: Prior, p: CheckpointPayload)
    requires Advances(start, prior, p)
    ensures p.index == prior.index + 1
  {
  }

  lemma InitialAnchored(start: Start)
    requires CountersOk(start.payload.baseline)
    ensures Anchored(start, InitialState(start))
  {
  }

  /** Later state keeps every counter, incident and reset of an earlier one. */
  ghost predicate Extends(a: CheckpointPayload, b: CheckpointPayload) {
    && CountersOk(a.counters) && CountersOk(b.counters)
    && a.observedAt.at < b.observedAt.at
    && (forall c: Counter :: a.counters[c] <= b.counters[c])
    && Elements(a.openedRefs) <= Elements(b.openedRefs)
    && Elements(a.closedRefs) <= Elements(b.closedRefs)
    && Elements(a.resetRefs) <= Elements(b.resetRefs)
  }

  lemma {:induction false} ChainExtends(
    gate: Gate, policy: Policy, start: Start, checkpoints: seq<Checkpoint>,
    previousCloseout: Option<Closeout>, i: nat, j: nat)
    requires CountersOk(start.payload.baseline)
    requires ChainOk(gate, policy, start, checkpoints, previousCloseout)
    requires i < j < |checkpoints|
    ensures Extends(checkpoints[i].payload, checkpoints[j].payload)
    decreases j
  {
    hide ChainOk, StepOk, Anchored;
    ChainAt(gate, policy, start, checkpoints, previousCloseout, j);
    if i < j - 1 {
      ChainExtends(gate, policy, start, checkpoints, previousCloseout, i, j - 1);
    }
  }

  /** Every point of the run, as a closed statement about the document payloads. */
  ghost predicate SafeRun(start: Start, checkpoints: seq<Checkpoint>)
    requires CountersOk(start.payload.baseline)
  {
    && (forall i | 0 <= i < |checkpoints| :: SafePoint(start, checkpoints[i].payload, i + 1))
    && (forall i, j | 0 <= i < j < |checkpoints| ::
          Extends(checkpoints[i].payload, checkpoints[j].payload))
  }

  ghost predicate SafePoint(start: Start, p: CheckpointPayload, index: int)
    requires CountersOk(start.payload.baseline)
  {
    && CountersOk(p.counters)
    && p.index == index
    && start.payload.plannedStart.at < p.observedAt.at <= start.payload.plannedEnd.at
    && (forall c: Counter :: start.payload.baseline[c] <= p.counters[c])
    && (forall c | c in ZERO_FIELDS :: p.counters[c] == 0)
    && p.counters[RuntimeResets] - start.payload.baseline[RuntimeResets] == |Elements(p.resetRefs)|
    && Elements(p.closedRefs) <= Elements(p.openedRefs)
    && Elements(p.activeRefs) == Elements(p.openedRefs) - Elements(p.closedRefs)
  }

  /** Step checks against the direct predecessor alone make the whole run safe. */
  lemma ChainIsSafe(
    gate: Gate, policy: Policy, start: Start, checkpoints: seq<Checkpoint>,
    previousCloseout: Option<Closeout>)
    requires CountersOk(start.payload.baseline)
    requires ChainOk(gate, policy, start, checkpoints, previousCloseout)
    ensures SafeRun(start, checkpoints)
  {
    hide ChainOk, StepOk, CountersOk;
    forall i | 0 <= i < |checkpoints|
      ensures SafePoint(start, checkpoints[i].payload, i + 1)
    {
      ChainAt(gate, policy, start, checkpoints, previousCloseout, i);
    }
    forall i, j | 0 <= i < j < |checkpoints|
      ensures Extends(checkpoints[i].payload, checkpoints[j].payload)
    {
      ChainExtends(gate, policy, start, checkpoints, previousCloseout, i, j);
    }
  }

  /** An accepted chain can always be continued: its last document is a usable predecessor. */
  lemma ChainIsExtendable(
    gate: Gate, policy: Policy, start: Start, checkpoints: seq<Checkpoint>,
    previousCloseout: Option<Closeout>)
    requires CountersOk(start.payload.baseline)
    requires ChainOk(gate, policy, start, checkpoints, previousCloseout)
    ensures PriorState(gate, start, Before(checkpoints, |checkpoints|))
         == Some(StateBefore(start, checkpoints, |checkpoints|))
  {
    hide ChainOk, StepOk, PriorState, CountersOk;
    if checkpoints != [] {
      var i := |checkpoints| - 1;
      ChainAt(gate, policy, start, checkpoints, previousCloseout, i);
      AcceptedIsExtendable(gate, start, StateBefore(start, checkpoints, i), checkpoints[i]);
    } else {
      FirstPrior(gate, start);
    }
  }

  lemma FirstPrior(gate: Gate, start: Start)
    requires CountersOk(start.payload.baseline)
    ensures PriorState(gate, start, None) == Some(InitialState(start))
  {
  }

  // ---------------------------------------------------------------- closeout

  /** The parts of an accepted closeout the theorems below use. */
  lemma CloseoutParts(
    gate: Gate, policy: Policy, start: Start, checkpoints: seq<Checkpoint>, document: Closeout,
    previousCloseout: Option<Closeout>)
    requires CloseoutOk(gate, policy, start, checkpoints, document, previousCloseout)
    ensures CountersOk(start.payload.baseline) && CountersOk(document.payload.counters)
    ensures forall c | c in ZERO_FIELDS :: start.payload.baseline[c] == 0
    ensures PolicyOk(policy) && document.payload.windowId in policy.windows
    ensures RuleOk(policy.windows[document.payload.windowId])
    ensures StartOk(gate, policy, start, previousCloseout)
    ensures BindsStart(document.payload, start)
    ensures ChainOk(gate, policy, start, checkpoints, previousCloseout)
    ensures checkpoints != [] && document.payload.checkpointRefs == ObjectIds(checkpoints)
    ensures RepeatsLast(document.payload, checkpoints[|checkpoints| - 1].payload)
    ensures Distinct(document.payload.resetRefs)
    ensures MinimaOk(policy.windows[document.payload.windowId], document.payload.counters,
                     start.payload.baseline)
    ensures BucketsOk(document.payload, policy.windows[document.payload.windowId],
                      start.payload.baseline)
    ensures document.payload.durationSeconds
         == policy.windows[document.payload.windowId].durationSeconds
    ensures document.payload.endedAt.at - document.payload.startedAt.at
         == document.payload.durationSeconds * MICROS
  {
    hide DocumentOk, StartOk, ChainOk, BucketsOk, ProofsOk, RepeatsLast, MinimaOk, BindsStart;
    hide RuleOk, PolicyOk, CountersOk, Integer;
    StartBaseline(gate, policy, start, previousCloseout);
  }

  /** Whole-run safety of an accepted closeout. */
  lemma CloseoutHistory(
    gate: Gate, policy: Policy, start: Start, checkpoints: seq<Checkpoint>, document: Closeout,
    previousCloseout: Option<Closeout>)
    requires CloseoutOk(gate, policy, start, checkpoints, document, previousCloseout)
    ensures CountersOk(start.payload.baseline) && SafeRun(start, checkpoints)
    ensures checkpoints != []
    ensures checkpoints[|checkpoints| - 1].payload.observedAt == start.payload.plannedEnd
    ensures forall i | 0 <= i < |checkpoints| - 1 ::
      checkpoints[i].payload.observedAt.at < start.payload.plannedEnd.at
    ensures CountersOk(document.payload.counters)
    ensures document.payload.counters[RuntimeResets] - start.payload.baseline[RuntimeResets]
         == |document.payload.resetRefs|
    ensures forall c | c in ZERO_FIELDS ::
      start.payload.baseline[c] == 0 && document.payload.counters[c] == 0
  {
    hide CloseoutOk, ChainOk, StartOk, BucketsOk, MinimaOk, RuleOk, PolicyOk;
    CloseoutParts(gate, policy, start, checkpoints, document, previousCloseout);
    ChainIsSafe(gate, policy, start, checkpoints, previousCloseout);
    DistinctCardinality(document.payload.resetRefs);
    var last := |checkpoints| - 1;
    assert SafePoint(start, checkpoints[last].payload, last + 1);
    forall i | 0 <= i < last
      ensures checkpoints[i].payload.observedAt.at < start.payload.plannedEnd.at
    {
      assert Extends(checkpoints[i].payload, checkpoints[last].payload);
    }
  }

  lemma ClosedStaysClosed(
    start: Start, checkpoints: seq<Checkpoint>, i: nat, j: nat, incident: string)
    requires CountersOk(start.payload.baseline) && SafeRun(start, checkpoints)
    requires i <= j < |checkpoints| && incident in checkpoints[i].payload.closedRefs
    ensures incident in checkpoints[j].payload.openedRefs
    ensures incident !in checkpoints[j].payload.activeRefs
  {
    hide CountersOk;
    var p := checkpoints[j].payload;
    assert SafePoint(start, p, j + 1);
    assert incident in Elements(checkpoints[i].payload.closedRefs);
    if i < j { assert Extends(checkpoints[i].payload, p); }
    assert incident in Elements(p.closedRefs);
    assert incident in Elements(p.openedRefs);
    assert incident !in Elements(p.activeRefs);
  }

  lemma ActiveEndsClosed(
    start: Start, checkpoints: seq<Checkpoint>, p: CloseoutPayload, i: nat, incident: string)
    requires CountersOk(start.payload.baseline) && SafeRun(start, checkpoints)
    requires i < |checkpoints| && incident in checkpoints[i].payload.activeRefs
    requires RepeatsLast(p, checkpoints[|checkpoints| - 1].payload)
    ensures incident in p.openedRefs && incident in p.closedRefs
  {
    hide CountersOk;
    var last := |checkpoints| - 1;
    assert SafePoint(start, checkpoints[i].payload, i + 1);
    assert incident in Elements(checkpoints[i].payload.activeRefs);
    if i < last { assert Extends(checkpoints[i].payload, checkpoints[last].payload); }
    assert incident in Elements(p.openedRefs);
    assert incident in Elements(p.closedRefs);
  }

  /** Closed incidents never reopen, and whatever was ever active is closed at closeout. */
  lemma IncidentsSettle(
    gate: Gate, policy: Policy, start: Start, checkpoints: seq<Checkpoint>, document: Closeout,
    previousCloseout: Option<Closeout>)
    requires CloseoutOk(gate, policy, start, checkpoints, document, previousCloseout)
    ensures forall i, j, x | 0 <= i <= j < |checkpoints| && x in checkpoints[i].payload.closedRefs ::
      x in checkpoints[j].payload.openedRefs && x !in checkpoints[j].payload.activeRefs
    ensures forall i, x | 0 <= i < |checkpoints| && x in checkpoints[i].payload.activeRefs ::
      x in document.payload.openedRefs && x in document.payload.closedRefs
  {
    hide CloseoutOk, ChainOk, StartOk, BucketsOk, MinimaOk, RuleOk, PolicyOk, CountersOk;
    hide SafeRun, RepeatsLast, BindsStart;
    CloseoutParts(gate, policy, start, checkpoints, document, previousCloseout);
    ChainIsSafe(gate, policy, start, checkpoints, previousCloseout);
    forall i, j, x | 0 <= i <= j < |checkpoints| && x in checkpoints[i].payload.closedRefs
      ensures x in checkpoints[j].payload.openedRefs && x !in checkpoints[j].payload.activeRefs
    {
      ClosedStaysClosed(start, checkpoints, i, j, x);
    }
    forall i, x | 0 <= i < |checkpoints| && x in checkpoints[i].payload.activeRefs
      ensures x in document.payload.openedRefs && x in document.payload.closedRefs
    {
      ActiveEndsClosed(start, checkpoints, document.payload, i, x);
    }
  }
}
