/** The looping validators of tools/observation_window_gate.py, proved against their predicates. */
module ObservationGate {
  import opened Text
  import opened ObservationDocuments

  method ValidatePolicy(policy: Policy) returns (ok: bool)
    ensures ok <==> PolicyOk(policy)
  {
    if !PolicyHeaderOk(policy) {
      return false;
    }
    var previous: Option<string> := None;
    for k := 0 to |SEQUENCE|
      invariant previous == if k == 0 then None else Some(SEQUENCE[k - 1])
      invariant forall j | 0 <= j < k ::
        && RuleOk(policy.windows[SEQUENCE[j]])
        && policy.windows[SEQUENCE[j]].previousWindow == Predecessor(j)
    {
      var rule := policy.windows[SEQUENCE[k]];
      if !RuleOk(rule) || rule.previousWindow != previous {
        return false;
      }
      previous := Some(SEQUENCE[k]);
    }
    return true;
  }

  method CheckProofs(
    gate: Gate, proofs: seq<Proof>, fingerprintSha: string, requiredUntil: int)
    returns (ok: bool)
    ensures ok <==> ProofsOk(gate, proofs, fingerprintSha, requiredUntil)
  {
    if proofs == [] {
      return false;
    }
    var refs: set<string> := {};
    for index := 0 to |proofs|
      invariant refs == set i | 0 <= i < index :: proofs[i].ref
      invariant ProofsOk(gate, proofs[..index], fingerprintSha, requiredUntil) || index == 0
    {
      var proof := proofs[index];
      if !gate.isRef(proof.ref) || proof.ref in refs || proof.subjectSha != fingerprintSha
         || proof.validUntil.at < requiredUntil {
        return false;
      }
      refs := refs + {proof.ref};
    }
    assert proofs[..|proofs|] == proofs;
    return true;
  }

  /** The checkpoint loop: each document is checked against the one before it only. */
  method ValidateChain(
    gate: Gate, policy: Policy, start: Start, checkpoints: seq<Checkpoint>,
    previousCloseout: Option<Closeout>)
    returns (ok: bool)
    ensures ok <==> ChainOk(gate, policy, start, checkpoints, previousCloseout)
  {
    hide CheckpointOk;
    var prior: Option<Checkpoint> := None;
    for i := 0 to |checkpoints|
      invariant prior == Before(checkpoints, i)
      invariant forall j | 0 <= j < i ::
        CheckpointOk(gate, policy, start, Before(checkpoints, j), previousCloseout, checkpoints[j])
    {
      if !CheckpointOk(gate, policy, start, prior, previousCloseout, checkpoints[i]) {
        return false;
      }
      prior := Some(checkpoints[i]);
    }
    return true;
  }

  /** The workload loop. */
  method ValidateBuckets(p: CloseoutPayload, rule: Rule, baseline: Counters) returns (ok: bool)
    requires RuleOk(rule) && CountersOk(p.counters) && CountersOk(baseline)
    ensures ok <==> BucketsOk(p, rule, baseline)
  {
    if |p.buckets| != rule.durationSeconds / rule.bucketSeconds {
      return false;
    }
    var jobTotal, cycleTotal, providerTotal := 0, 0, 0;
    var nonzeroJobs: nat, nonzeroCycles: nat, nonzeroProvider: nat := 0, 0, 0;
    for i := 0 to |p.buckets|
      invariant TallyOf(p.buckets[..i])
        == Tally(jobTotal, cycleTotal, providerTotal, nonzeroJobs, nonzeroCycles, nonzeroProvider)
      invariant forall j | 0 <= j < i ::
        BucketOk(p.buckets[j], j, p.startedAt.at, rule.bucketSeconds)
    {
      var bucket := p.buckets[i];
      if !BucketOk(bucket, i, p.startedAt.at, rule.bucketSeconds) {
        return false;
      }
      assert p.buckets[..i + 1][..i] == p.buckets[..i];
      jobTotal := jobTotal + bucket.jobs;
      cycleTotal := cycleTotal + bucket.cycles;
      providerTotal := providerTotal + bucket.calls;
      nonzeroJobs := nonzeroJobs + One(bucket.jobs > 0);
      nonzeroCycles := nonzeroCycles + One(bucket.cycles > 0);
      nonzeroProvider := nonzeroProvider + One(bucket.calls > 0);
    }
    assert p.buckets[..|p.buckets|] == p.buckets;
    ok := && jobTotal == p.counters[BoundedJobs] - baseline[BoundedJobs]
          && cycleTotal == p.counters[ResearchCycles] - baseline[ResearchCycles]
          && providerTotal == p.counters[ProviderCalls] - baseline[ProviderCalls]
          && rule.minimumNonzeroJobBuckets <= nonzeroJobs
          && rule.minimumNonzeroCycleBuckets <= nonzeroCycles
          && rule.minimumNonzeroProviderBuckets <= nonzeroProvider;
  }

  /** `validate_closeout` with the start and checkpoints supplied. */
  method ValidateCloseout(
    gate: Gate, policy: Policy, start: Start, checkpoints: seq<Checkpoint>, document: Closeout,
    previousCloseout: Option<Closeout>)
    returns (ok: bool)
    ensures ok <==> CloseoutOk(gate, policy, start, checkpoints, document, previousCloseout)
  {
    hide DocumentOk, ChainOk, BucketsOk, ProofsOk, RepeatsLast, MinimaOk, RuleOk;
    hide FingerprintOk, PredecessorOk, PolicyHeaderOk, Integer, Refs;
    var p := document.payload;
    if !CloseoutShapeOk(gate, policy, document) || !StartOk(gate, policy, start, previousCloseout)
       || !BindsStart(p, start) {
      return false;
    }
    var _ := AcceptedRule(policy, p.windowId);
    var rule := policy.windows[p.windowId];
    var baseline := start.payload.baseline;
    if p.durationSeconds != rule.durationSeconds
       || p.endedAt.at - p.startedAt.at != p.durationSeconds * MICROS {
      return false;
    }
    var chain := ValidateChain(gate, policy, start, checkpoints, previousCloseout);
    if !chain || |checkpoints| < rule.minimumCheckpoints || checkpoints == []
       || p.checkpointRefs != ObjectIds(checkpoints)
       || !RepeatsLast(p, checkpoints[|checkpoints| - 1].payload)
       || !MinimaOk(rule, p.counters, baseline) {
      return false;
    }
    var workload := ValidateBuckets(p, rule, baseline);
    if !workload {
      return false;
    }
    var proofs := CheckProofs(gate, p.proofs, p.fingerprintSha, p.endedAt.at);
    ok := proofs && Elements(document.parentRefs) ==
      {start.objectId} + Elements(p.checkpointRefs) + ProofRefs(p.proofs);
  }
}
