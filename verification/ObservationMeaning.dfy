/**
 What acceptance of a window amounts to, stated over the whole documents instead of step by step:
 a reference definition, and proof that the gate accepts exactly what meets it.
 */
module ObservationMeaning {
  import opened Text
  import opened ObservationDocuments
  import opened ObservationHistory
  import opened ObservationWorkload

  // ---------------------------------------------------------------- documents

  /** The integers JSON keeps exact. */
  ghost predicate From(minimum: int, values: set<int>) {
    forall v | v in values :: minimum <= v < 0x20_0000_0000_0000
  }

  ghost predicate AtMost(maximum: int, values: set<int>) {
    forall v | v in values :: v <= maximum
  }

  ghost predicate References(gate: Gate, refs: seq<string>) {
    && (forall r | r in refs :: gate.isRef(r))
    && forall i, j | 0 <= i < |refs| && 0 <= j < |refs| && refs[i] == refs[j] :: i == j
  }

  /** A governance document of the controller, identified by the digest of its payload. */
  ghost predicate Identified<P(!new)>(
    gate: Gate, d: Document<P>, schema: string, prefix: string, material: Material)
  {
    && d.header.schemaId == schema && d.header.schemaVersion == "1.0.0"
    && d.header.issuer == "observation-window-controller" && d.header.contour == "governance"
    && d.header.classification == "D1_INTERNAL_SANITIZED"
    && d.payloadSha == gate.sha(material)
    && d.objectId == prefix + ":" + gate.sha(material)
    && References(gate, d.parentRefs)
  }

  lemma RefsMean(gate: Gate, refs: seq<string>)
    ensures Refs(gate, refs) <==> References(gate, refs)
  {
    assert (forall r | r in refs :: gate.isRef(r))
      <==> forall i | 0 <= i < |refs| :: gate.isRef(refs[i]);
  }

  lemma DocumentMeans<P(!new)>(gate: Gate, d: Document<P>, material: Material)
    ensures material.StartMaterial? ==>
      (DocumentOk(gate, d, material) <==>
         Identified(gate, d, "ObservationWindowStart", "observation-window-start", material))
    ensures material.CheckpointMaterial? ==>
      (DocumentOk(gate, d, material) <==>
         Identified(gate, d, "ObservationWindowCheckpoint", "observation-window-checkpoint", material))
    ensures material.CloseoutMaterial? ==>
      (DocumentOk(gate, d, material) <==>
         Identified(gate, d, "ObservationWindowCloseout", "observation-window-closeout", material))
  {
    hide Refs, References;
    RefsMean(gate, d.parentRefs);
  }

  // ---------------------------------------------------------------- policy

  /** Every threshold is in range, buckets divide the window, and no spread asks for more of them. */
  ghost predicate RuleMeaning(rule: Rule, previous: Option<string>) {
    && From(1, {rule.durationSeconds, rule.bucketSeconds, rule.minimumCheckpoints,
                rule.minimumPulseSamples, rule.minimumMonitorRecords, rule.minimumBoundedJobs,
                rule.minimumResearchCycles, rule.minimumBackups, rule.minimumRestartChecks,
                rule.minimumNonzeroJobBuckets, rule.minimumNonzeroCycleBuckets})
    && From(0, {rule.minimumProviderCalls, rule.minimumNonzeroProviderBuckets})
    && (exists n :: rule.durationSeconds == n * rule.bucketSeconds
          && AtMost(n, {rule.minimumNonzeroJobBuckets, rule.minimumNonzeroCycleBuckets,
                        rule.minimumNonzeroProviderBuckets}))
    && rule.previousWindow == previous
  }

  ghost predicate PolicyMeaning(policy: Policy) {
    && policy.schemaId == "ObservationWindowPolicy" && policy.schemaVersion == "1.0.0"
    && policy.policyId == "post-product-done-sequential-windows-v1"
    && policy.timersStarted == policy.grantsAuthority == false
    && policy.windowSequence == ["SUBSTRATE_24H", "PROVIDER_48H", "INTEGRATED_7D", "FINAL_14D"]
    && (forall c: Counter :: c in policy.counterFields) && |policy.counterFields| == 17
    && (forall c: Counter :: c in policy.zeroToleranceFields <==>
          c.CanonicalWrites? || c.LiveActions? || c.AuthorityBreaches? || c.PrivacyViolations?
          || c.SecondWriterEvents? || c.FingerprintDriftEvents? || c.CounterResetsUnexplained?)
    && (forall f :: f in policy.fingerprintFields <==>
          f in {"release_sha", "tree_sha", "image_digests", "config_sha256", "policy_sha256",
                "provider_sha256", "schema_sha256", "sbom_sha256", "environment_ref"})
    && policy.publicDocuments == "SANITIZED_COUNTERS_HASHES_AND_REFS_ONLY"
    && true !in policy.privateMaterialAllowed
    && policy.windows.Keys == {"SUBSTRATE_24H", "PROVIDER_48H", "INTEGRATED_7D", "FINAL_14D"}
    && RuleMeaning(policy.windows["SUBSTRATE_24H"], None)
    && RuleMeaning(policy.windows["PROVIDER_48H"], Some("SUBSTRATE_24H"))
    && RuleMeaning(policy.windows["INTEGRATED_7D"], Some("PROVIDER_48H"))
    && RuleMeaning(policy.windows["FINAL_14D"], Some("INTEGRATED_7D"))
  }

  lemma RuleMeans(rule: Rule, previous: Option<string>)
    ensures RuleOk(rule) && rule.previousWindow == previous <==> RuleMeaning(rule, previous)
  {
    if RuleOk(rule) {
      RuleDuration(rule);
      var n := rule.durationSeconds / rule.bucketSeconds;
      assert rule.durationSeconds == n * rule.bucketSeconds;
      assert AtMost(n, {rule.minimumNonzeroJobBuckets, rule.minimumNonzeroCycleBuckets,
                        rule.minimumNonzeroProviderBuckets});
    }
    if RuleMeaning(rule, previous) {
      RangesMean(rule, previous);
      var n :| rule.durationSeconds == n * rule.bucketSeconds
        && AtMost(n, {rule.minimumNonzeroJobBuckets, rule.minimumNonzeroCycleBuckets,
                      rule.minimumNonzeroProviderBuckets});
      ExactQuotient(n, rule.bucketSeconds);
      assert rule.minimumNonzeroJobBuckets <= n && rule.minimumNonzeroCycleBuckets <= n
        && rule.minimumNonzeroProviderBuckets <= n;
    }
  }

  lemma RangesMean(rule: Rule, previous: Option<string>)
    requires RuleMeaning(rule, previous)
    ensures Integer(rule.durationSeconds, 1) && Integer(rule.bucketSeconds, 1)
    ensures Integer(rule.minimumCheckpoints, 1) && Integer(rule.minimumPulseSamples, 1)
    ensures Integer(rule.minimumMonitorRecords, 1) && Integer(rule.minimumBoundedJobs, 1)
    ensures Integer(rule.minimumResearchCycles, 1) && Integer(rule.minimumProviderCalls, 0)
    ensures Integer(rule.minimumBackups, 1) && Integer(rule.minimumRestartChecks, 1)
    ensures Integer(rule.minimumNonzeroJobBuckets, 1)
    ensures Integer(rule.minimumNonzeroCycleBuckets, 1)
    ensures Integer(rule.minimumNonzeroProviderBuckets, 0)
  {
  }

  lemma ExactQuotient(n: int, d: int)
    requires d > 0 && n * d > 0
    ensures n * d / d == n && n * d % d == 0
  {
    if n < 0 { ProductMonotone(d, n, 0); }
    QuotientIsUnique(n * d, d, n);
    assert n * d == d * (n * d / d) + n * d % d;
  }

  lemma HeaderMeans(policy: Policy)
    ensures PolicyHeaderOk(policy) <==>
      && policy.schemaId == "ObservationWindowPolicy" && policy.schemaVersion == "1.0.0"
      && policy.policyId == "post-product-done-sequential-windows-v1"
      && policy.timersStarted == policy.grantsAuthority == false
      && policy.windowSequence == ["SUBSTRATE_24H", "PROVIDER_48H", "INTEGRATED_7D", "FINAL_14D"]
      && (forall c: Counter :: c in policy.counterFields) && |policy.counterFields| == 17
      && (forall c: Counter :: c in policy.zeroToleranceFields <==>
            c.CanonicalWrites? || c.LiveActions? || c.AuthorityBreaches? || c.PrivacyViolations?
            || c.SecondWriterEvents? || c.FingerprintDriftEvents? || c.CounterResetsUnexplained?)
      && (forall f :: f in policy.fingerprintFields <==>
            f in {"release_sha", "tree_sha", "image_digests", "config_sha256", "policy_sha256",
                  "provider_sha256", "schema_sha256", "sbom_sha256", "environment_ref"})
      && policy.publicDocuments == "SANITIZED_COUNTERS_HASHES_AND_REFS_ONLY"
      && true !in policy.privateMaterialAllowed
      && policy.windows.Keys == {"SUBSTRATE_24H", "PROVIDER_48H", "INTEGRATED_7D", "FINAL_14D"}
  {
    ZeroFieldsMean(policy.zeroToleranceFields);
    FingerprintFieldsMean(policy.fingerprintFields);
    SequenceElements();
    hide Elements;
  }

  lemma ZeroFieldsMean(fields: seq<Counter>)
    ensures Elements(fields) == ZERO_FIELDS <==> forall c: Counter :: c in fields <==>
      c.CanonicalWrites? || c.LiveActions? || c.AuthorityBreaches? || c.PrivacyViolations?
      || c.SecondWriterEvents? || c.FingerprintDriftEvents? || c.CounterResetsUnexplained?
  {
    assert forall c: Counter :: c in ZERO_FIELDS <==>
      c.CanonicalWrites? || c.LiveActions? || c.AuthorityBreaches? || c.PrivacyViolations?
      || c.SecondWriterEvents? || c.FingerprintDriftEvents? || c.CounterResetsUnexplained?;
    assert forall c: Counter :: c in fields <==> c in Elements(fields);
  }

  lemma FingerprintFieldsMean(fields: seq<string>)
    ensures Elements(fields) == FINGERPRINT_FIELDS <==> forall f :: f in fields <==>
      f in {"release_sha", "tree_sha", "image_digests", "config_sha256", "policy_sha256",
            "provider_sha256", "schema_sha256", "sbom_sha256", "environment_ref"}
  {
    assert forall f :: f in fields <==> f in Elements(fields);
  }

  lemma SequenceElements()
    ensures Elements(SEQUENCE) == {"SUBSTRATE_24H", "PROVIDER_48H", "INTEGRATED_7D", "FINAL_14D"}
  {
    assert SEQUENCE[0] == "SUBSTRATE_24H" && SEQUENCE[1] == "PROVIDER_48H"
      && SEQUENCE[2] == "INTEGRATED_7D" && SEQUENCE[3] == "FINAL_14D";
  }

  lemma PolicyMeans(policy: Policy)
    ensures PolicyOk(policy) <==> PolicyMeaning(policy)
  {
    hide RuleOk, RuleMeaning, PolicyHeaderOk, From, Elements;
    HeaderMeans(policy);
    SequenceElements();
    assert SEQUENCE[0] == "SUBSTRATE_24H" && SEQUENCE[1] == "PROVIDER_48H"
      && SEQUENCE[2] == "INTEGRATED_7D" && SEQUENCE[3] == "FINAL_14D";
    if PolicyHeaderOk(policy) {
      RuleMeans(policy.windows[SEQUENCE[0]], None);
      RuleMeans(policy.windows[SEQUENCE[1]], Some(SEQUENCE[0]));
      RuleMeans(policy.windows[SEQUENCE[2]], Some(SEQUENCE[1]));
      RuleMeans(policy.windows[SEQUENCE[3]], Some(SEQUENCE[2]));
    }
  }

  // ---------------------------------------------------------------- start

  ghost predicate ReleaseMeaning(gate: Gate, f: Fingerprint) {
    && gate.isGit(f.releaseSha) && gate.isGit(f.treeSha) && gate.isRef(f.environmentRef)
    && (forall s | s in {f.configSha, f.policySha, f.providerSha, f.schemaSha, f.sbomSha} :: gate.isSha(s))
    && f.imageDigests != []
    && (forall d | d in f.imageDigests :: exists sha :: d == "sha256:" + sha && gate.isSha(sha))
    && forall i, j | 0 <= i < |f.imageDigests| && 0 <= j < |f.imageDigests|
         && f.imageDigests[i] == f.imageDigests[j] :: i == j
  }

  lemma FingerprintMeans(gate: Gate, f: Fingerprint)
    ensures FingerprintOk(gate, f) <==> ReleaseMeaning(gate, f)
  {
    ImagesMean(gate, f.imageDigests);
  }

  lemma ImagesMean(gate: Gate, images: seq<string>)
    ensures (forall i | 0 <= i < |images| :: "sha256:" <= images[i] && gate.isSha(images[i][7..]))
      <==> (forall d | d in images :: exists sha :: d == "sha256:" + sha && gate.isSha(sha))
  {
    forall d: string
      ensures "sha256:" <= d && gate.isSha(d[7..]) <==>
        exists sha :: d == "sha256:" + sha && gate.isSha(sha)
    {
      if "sha256:" <= d && gate.isSha(d[7..]) { assert d == "sha256:" + d[7..]; }
      if exists sha :: d == "sha256:" + sha && gate.isSha(sha) {
        var sha :| d == "sha256:" + sha && gate.isSha(sha);
        assert d[7..] == sha;
      }
    }
    assert forall i | 0 <= i < |images| :: images[i] in images;
  }

  /** A proof about this release, still valid at `until`, referenced only once. */
  ghost predicate Proven(gate: Gate, proofs: seq<Proof>, release: string, until: int) {
    && (exists p :: p in proofs)
    && (forall p | p in proofs ::
          gate.isRef(p.ref) && p.subjectSha == release && until <= p.validUntil.at)
    && forall i, j | 0 <= i < |proofs| && 0 <= j < |proofs| && proofs[i].ref == proofs[j].ref :: i == j
  }

  lemma ProofsMean(gate: Gate, proofs: seq<Proof>, release: string, until: int)
    ensures ProofsOk(gate, proofs, release, until) <==> Proven(gate, proofs, release, until)
  {
    if proofs != [] { assert proofs[0] in proofs; }
  }

  ghost predicate Counts(counters: Counters) {
    forall c: Counter :: c in counters && From(0, {counters[c]})
  }

  ghost predicate Unbreached(counters: Counters) {
    && (forall c | c in {CanonicalWrites, LiveActions, AuthorityBreaches, PrivacyViolations,
                         SecondWriterEvents, FingerprintDriftEvents, CounterResetsUnexplained} ::
          c in counters && counters[c] == 0)
  }

  lemma CountersMean(counters: Counters)
    ensures CountersOk(counters) <==> Counts(counters)
    ensures CountersOk(counters) ==>
      (Unbreached(counters) <==> forall c | c in ZERO_FIELDS :: counters[c] == 0)
  {
  }

  /** The window planned by a start document. */
  ghost predicate StartMeaning(
    gate: Gate, policy: Policy, start: Start, previous: Option<Closeout>)
  {
    var p := start.payload;
    && PolicyMeaning(policy) && p.windowId in policy.windows
    && Identified(gate, start, "ObservationWindowStart", "observation-window-start", StartMaterial(p))
    && start.issuedAt == p.plannedStart && !p.grantsAuthority
    && p.policySha == gate.sha(PolicyMaterial(policy))
    && p.thresholdSha == gate.sha(RuleMaterial(policy.windows[p.windowId]))
    && ReleaseMeaning(gate, p.fingerprint)
    && p.fingerprintSha == gate.sha(FingerprintMaterial(p.fingerprint))
    && p.productDoneAt.at <= p.plannedStart.at
    && p.plannedEnd.at == p.plannedStart.at + policy.windows[p.windowId].durationSeconds * 1_000_000
    && gate.isRef(p.productDoneRef) && gate.isRef(p.deploymentRef) && gate.isSha(p.evidenceSha)
    && Counts(p.baseline) && Unbreached(p.baseline) && |p.activeIncidents| == 0
    && Proven(gate, p.proofs, p.fingerprintSha, p.plannedEnd.at)
    && Follows(gate, policy, p, previous)
    && (forall r :: r in start.parentRefs <==>
          || r == p.productDoneRef || r == p.deploymentRef || p.previousCloseoutRef == Some(r)
          || exists proof :: proof in p.proofs && proof.ref == r)
  }

  /** A closeout bound to the policy, whatever its own start was. */
  ghost predicate ClosedUnder(gate: Gate, policy: Policy, closeout: Closeout) {
    var p := closeout.payload;
    && ShapeMeaning(gate, policy, closeout)
    && p.policySha == gate.sha(PolicyMaterial(policy))
    && p.thresholdSha == gate.sha(RuleMaterial(policy.windows[p.windowId]))
    && p.durationSeconds == policy.windows[p.windowId].durationSeconds
    && p.endedAt.at == p.startedAt.at + p.durationSeconds * 1_000_000
  }

  ghost predicate ShapeMeaning(gate: Gate, policy: Policy, closeout: Closeout) {
    var p := closeout.payload;
    && PolicyMeaning(policy) && p.windowId in policy.windows
    && Identified(gate, closeout, "ObservationWindowCloseout", "observation-window-closeout",
                  CloseoutMaterial(p))
    && p.status == "PASS" && !p.grantsAuthority && Counts(p.counters)
    && (forall s | s in {p.policySha, p.thresholdSha, p.fingerprintSha, p.evidenceSha} :: gate.isSha(s))
    && (forall refs | refs in {p.checkpointRefs, p.openedRefs, p.closedRefs, p.activeRefs, p.resetRefs} ::
          References(gate, refs))
  }

  /** The first window has no predecessor; any other names and follows the one before it. */
  ghost predicate Follows(
    gate: Gate, policy: Policy, p: StartPayload, previous: Option<Closeout>)
    requires p.windowId in policy.windows
  {
    if policy.windows[p.windowId].previousWindow.None? then
      p.previousCloseoutRef == None && previous == None
    else
      && previous.Some? && ClosedUnder(gate, policy, previous.value)
      && p.previousCloseoutRef == Some(previous.value.objectId)
      && gate.isRef(previous.value.objectId)
      && Some(previous.value.payload.windowId) == policy.windows[p.windowId].previousWindow
      && previous.value.payload.fingerprintSha == p.fingerprintSha
      && previous.value.payload.endedAt.at <= p.plannedStart.at
  }

  lemma ShapeMeans(gate: Gate, policy: Policy, closeout: Closeout)
    ensures CloseoutShapeOk(gate, policy, closeout) <==> ShapeMeaning(gate, policy, closeout)
  {
    hide PolicyOk, PolicyMeaning, DocumentOk, Identified, CountersOk, Counts, Refs, References;
    var p := closeout.payload;
    PolicyMeans(policy);
    DocumentMeans(gate, closeout, CloseoutMaterial(p));
    CountersMean(p.counters);
    forall refs { RefsMean(gate, refs); }
  }

  lemma ClosedMeans(gate: Gate, policy: Policy, closeout: Closeout)
    ensures StructuralCloseoutOk(gate, policy, closeout) <==> ClosedUnder(gate, policy, closeout)
  {
    hide CloseoutShapeOk, PolicyMeaning, Identified, Counts, References;
    ShapeMeans(gate, policy, closeout);
  }

  lemma FollowsMeans(gate: Gate, policy: Policy, p: StartPayload, previous: Option<Closeout>)
    requires p.windowId in policy.windows
    ensures PredecessorOk(gate, policy, p, policy.windows[p.windowId], previous)
      <==> Follows(gate, policy, p, previous)
  {
    hide StructuralCloseoutOk, ClosedUnder;
    if previous.Some? { ClosedMeans(gate, policy, previous.value); }
  }

  lemma StartParentsMean(start: Start)
    ensures var p := start.payload;
      Elements(start.parentRefs) == {p.productDoneRef, p.deploymentRef} + ProofRefs(p.proofs)
          + (if p.previousCloseoutRef.Some? then {p.previousCloseoutRef.value} else {})
      <==> forall r :: r in start.parentRefs <==>
        || r == p.productDoneRef || r == p.deploymentRef || p.previousCloseoutRef == Some(r)
        || exists proof :: proof in p.proofs && proof.ref == r
  {
    var p := start.payload;
    var expected := {p.productDoneRef, p.deploymentRef} + ProofRefs(p.proofs)
          + (if p.previousCloseoutRef.Some? then {p.previousCloseoutRef.value} else {});
    assert forall r :: r in Elements(start.parentRefs) <==> r in start.parentRefs;
    assert forall r :: r in expected <==>
      || r == p.productDoneRef || r == p.deploymentRef || p.previousCloseoutRef == Some(r)
      || exists proof :: proof in p.proofs && proof.ref == r;
  }

  /** A start is accepted exactly if it plans a window of the policy. */
  lemma StartMeans(gate: Gate, policy: Policy, start: Start, previous: Option<Closeout>)
    ensures StartOk(gate, policy, start, previous) <==> StartMeaning(gate, policy, start, previous)
  {
    hide PolicyOk, PolicyMeaning, DocumentOk, Identified, CountersOk, Counts, Unbreached;
    hide FingerprintOk, ReleaseMeaning, ProofsOk, Proven, PredecessorOk, Follows, Elements, ProofRefs;
    var p := start.payload;
    PolicyMeans(policy);
    DocumentMeans(gate, start, StartMaterial(p));
    FingerprintMeans(gate, p.fingerprint);
    CountersMean(p.baseline);
    ProofsMean(gate, p.proofs, p.fingerprintSha, p.plannedEnd.at);
    StartParentsMean(start);
    if p.windowId in policy.windows { FollowsMeans(gate, policy, p, previous); }
  }

  // ---------------------------------------------------------------- checkpoints

  /** Checkpoint i on its own, against the start of its window. */
  ghost predicate PointMeaning(gate: Gate, start: Start, d: Checkpoint, i: nat) {
    var s, p := start.payload, d.payload;
    && Identified(gate, d, "ObservationWindowCheckpoint", "observation-window-checkpoint",
                  CheckpointMaterial(p))
    && p.startRef == start.objectId && p.windowId == s.windowId && p.policySha == s.policySha
    && p.fingerprintSha == s.fingerprintSha && !p.grantsAuthority
    && p.index == i + 1 && From(1, {p.index}) && From(0, {p.elapsedSeconds})
    && s.plannedStart.at < p.observedAt.at <= s.plannedEnd.at
    && 0 <= p.observedAt.at - s.plannedStart.at - p.elapsedSeconds * 1_000_000 < 1_000_000
    && Counts(s.baseline) && Counts(p.counters) && Unbreached(p.counters)
    && (forall c: Counter :: s.baseline[c] <= p.counters[c])
    && p.counters[RuntimeResets] - s.baseline[RuntimeResets] == |Elements(p.resetRefs)|
    && (forall refs | refs in {p.openedRefs, p.closedRefs, p.activeRefs, p.resetRefs} ::
          References(gate, refs))
    && (forall x | x in p.closedRefs :: x in p.openedRefs)
    && (forall x :: x in p.activeRefs <==> x in p.openedRefs && x !in p.closedRefs)
    && gate.isRef(p.monitorHeadRef) && gate.isSha(p.evidenceSha)
  }

  /** A later checkpoint loses nothing an earlier one recorded. */
  ghost predicate Keeps(a: CheckpointPayload, b: CheckpointPayload)
    requires Counts(a.counters) && Counts(b.counters)
  {
    && a.observedAt.at < b.observedAt.at
    && (forall c: Counter :: a.counters[c] <= b.counters[c])
    && (forall x | x in a.openedRefs :: x in b.openedRefs)
    && (forall x | x in a.closedRefs :: x in b.closedRefs)
    && (forall x | x in a.resetRefs :: x in b.resetRefs)
  }

  /** It names the start, its monitor head, and the checkpoint before it, if any. */
  ghost predicate LinksBack(start: Start, checkpoints: seq<Checkpoint>, i: nat)
    requires i < |checkpoints|
  {
    forall r :: r in checkpoints[i].parentRefs <==>
      || r == start.objectId || r == checkpoints[i].payload.monitorHeadRef
      || (i > 0 && r == checkpoints[i - 1].objectId)
  }

  /** The chain as a whole, without reference to any step. */
  ghost predicate ChainMeaning(gate: Gate, start: Start, checkpoints: seq<Checkpoint>) {
    && (forall i | 0 <= i < |checkpoints| ::
          PointMeaning(gate, start, checkpoints[i], i) && LinksBack(start, checkpoints, i))
    && forall i, j | 0 <= i < j < |checkpoints| ::
         Keeps(checkpoints[i].payload, checkpoints[j].payload)
  }

  lemma LinksMean(start: Start, checkpoints: seq<Checkpoint>, i: nat)
    requires i < |checkpoints|
    ensures LinksBack(start, checkpoints, i) <==>
      Elements(checkpoints[i].parentRefs)
        == {start.objectId, checkpoints[i].payload.monitorHeadRef}
           + (if i > 0 then {checkpoints[i - 1].objectId} else {})
  {
    assert forall r :: r in Elements(checkpoints[i].parentRefs) <==> r in checkpoints[i].parentRefs;
  }

  lemma ElementsMean(a: seq<string>, b: seq<string>)
    ensures Elements(a) <= Elements(b) <==> forall x | x in a :: x in b
  {
    assert forall x :: x in Elements(a) <==> x in a;
    assert forall x :: x in Elements(b) <==> x in b;
  }

  lemma ActiveMeans(p: CheckpointPayload)
    ensures Elements(p.activeRefs) == Elements(p.openedRefs) - Elements(p.closedRefs)
      <==> forall x :: x in p.activeRefs <==> x in p.openedRefs && x !in p.closedRefs
  {
    assert forall x :: x in Elements(p.activeRefs) <==> x in p.activeRefs;
    var open := Elements(p.openedRefs) - Elements(p.closedRefs);
    assert forall x :: x in open <==> x in p.openedRefs && x !in p.closedRefs;
  }

  lemma ElapsedMeans(elapsed: int, delta: int)
    requires delta >= 0
    ensures elapsed == WholeSeconds(delta) <==> 0 <= delta - elapsed * 1_000_000 < 1_000_000
  {
  }

  /** An accepted step is a checkpoint as it should be, given what came before it. */
  lemma StepMeansPoint(gate: Gate, start: Start, prior: Prior, d: Checkpoint, i: nat)
    requires Anchored0(start, prior) && prior.index == i
    requires StepOk(gate, start, prior, d)
    ensures PointMeaning(gate, start, d, i)
  {
    hide DocumentOk, Identified, Refs, References, WholeSeconds;
    var p := d.payload;
    DocumentMeans(gate, d, CheckpointMaterial(p));
    CountersMean(start.payload.baseline);
    CountersMean(p.counters);
    ElapsedMeans(p.elapsedSeconds, p.observedAt.at - start.payload.plannedStart.at);
    forall refs { RefsMean(gate, refs); }
    ElementsMean(p.closedRefs, p.openedRefs);
    ActiveMeans(p);
    ResetsAdd(Elements(p.resetRefs), prior.resetRefs);
  }

  ghost predicate Anchored0(start: Start, prior: Prior) {
    CountersOk(start.payload.baseline) && Anchored(start, prior)
  }

  lemma ResetsAdd(resets: set<string>, prior: set<string>)
    ensures prior <= resets ==> |resets| == |prior| + |resets - prior|
  {
    if prior <= resets { assert resets == prior + (resets - prior); }
  }

  /** What any document must be to serve as the checkpoint before another, by itself. */
  ghost predicate PriorMeaning(gate: Gate, start: Start, d: Checkpoint) {
    var s, p := start.payload, d.payload;
    var rest := p.observedAt.at - s.plannedStart.at - p.elapsedSeconds * 1_000_000;
    && Identified(gate, d, "ObservationWindowCheckpoint", "observation-window-checkpoint",
                  CheckpointMaterial(p))
    && p.startRef == start.objectId && p.windowId == s.windowId && p.policySha == s.policySha
    && p.fingerprintSha == s.fingerprintSha && !p.grantsAuthority && From(1, {p.index})
    && -1_000_000 < rest < 1_000_000
    && (p.observedAt.at >= s.plannedStart.at ==> rest >= 0)
    && (p.observedAt.at <= s.plannedStart.at ==> rest <= 0)
    && Counts(s.baseline) && Counts(p.counters) && Unbreached(p.counters)
    && p.counters[RuntimeResets] - s.baseline[RuntimeResets] == |Elements(p.resetRefs)|
    && (forall refs | refs in {p.openedRefs, p.closedRefs, p.activeRefs, p.resetRefs} ::
          References(gate, refs))
    && (forall x | x in p.closedRefs :: x in p.openedRefs)
    && (forall x :: x in p.activeRefs <==> x in p.openedRefs && x !in p.closedRefs)
  }

  lemma TruncationMeans(elapsed: int, delta: int)
    ensures elapsed == WholeSeconds(delta) <==>
      && -1_000_000 < delta - elapsed * 1_000_000 < 1_000_000
      && (delta >= 0 ==> delta - elapsed * 1_000_000 >= 0)
      && (delta <= 0 ==> delta - elapsed * 1_000_000 <= 0)
  {
  }

  /** The independent re-check of a predecessor accepts exactly such a document, and reads its state. */
  lemma PriorMeans(gate: Gate, start: Start, d: Checkpoint)
    requires CountersOk(start.payload.baseline)
    ensures PriorState(gate, start, Some(d)).Some? <==> PriorMeaning(gate, start, d)
    ensures PriorMeaning(gate, start, d) ==> PriorState(gate, start, Some(d)) == Some(StateOf(d))
  {
    hide DocumentOk, Identified, Refs, References, WholeSeconds;
    var p := d.payload;
    DocumentMeans(gate, d, CheckpointMaterial(p));
    CountersMean(start.payload.baseline);
    CountersMean(p.counters);
    TruncationMeans(p.elapsedSeconds, p.observedAt.at - start.payload.plannedStart.at);
    forall refs { RefsMean(gate, refs); }
    ElementsMean(p.closedRefs, p.openedRefs);
    ActiveMeans(p);
  }

  lemma KeepsMeans(a: CheckpointPayload, b: CheckpointPayload)
    requires CountersOk(a.counters) && CountersOk(b.counters)
    ensures ObservationHistory.Extends(a, b) <==> Keeps(a, b)
  {
    CountersMean(a.counters);
    CountersMean(b.counters);
    ElementsMean(a.openedRefs, b.openedRefs);
    ElementsMean(a.closedRefs, b.closedRefs);
    ElementsMean(a.resetRefs, b.resetRefs);
  }

  /** A point of the chain is a state its successor's re-check accepts. */
  lemma PointIsPrior(gate: Gate, start: Start, d: Checkpoint, i: nat)
    requires PointMeaning(gate, start, d, i) && CountersOk(start.payload.baseline)
    ensures PriorState(gate, start, Some(d)) == Some(StateOf(d))
    ensures CountersOk(d.payload.counters)
  {
    hide DocumentOk, Identified, Refs, References, WholeSeconds;
    var p := d.payload;
    DocumentMeans(gate, d, CheckpointMaterial(p));
    CountersMean(start.payload.baseline);
    CountersMean(p.counters);
    ElapsedMeans(p.elapsedSeconds, p.observedAt.at - start.payload.plannedStart.at);
    forall refs { RefsMean(gate, refs); }
    ElementsMean(p.closedRefs, p.openedRefs);
    ActiveMeans(p);
  }

  /** What a step needs of the state before it, beyond the point itself. */
  ghost predicate Onward(start: Start, prior: Prior, p: CheckpointPayload, i: nat) {
    && CountersOk(prior.counters) && CountersOk(p.counters)
    && prior.index == i && prior.at < p.observedAt.at
    && (forall c: Counter :: prior.counters[c] <= p.counters[c])
    && prior.openedRefs <= Elements(p.openedRefs) && prior.closedRefs <= Elements(p.closedRefs)
    && prior.resetRefs <= Elements(p.resetRefs)
    && p.counters[RuntimeResets] - prior.counters[RuntimeResets]
         == |Elements(p.resetRefs)| - |prior.resetRefs|
  }

  lemma PointMeansStep(gate: Gate, start: Start, prior: Prior, d: Checkpoint, i: nat)
    requires PointMeaning(gate, start, d, i) && Onward(start, prior, d.payload, i)
    requires Elements(d.parentRefs) == {start.objectId, d.payload.monitorHeadRef}
      + (if prior.ref.Some? then {prior.ref.value} else {})
    ensures StepOk(gate, start, prior, d)
  {
    hide DocumentOk, Identified, Refs, References, WholeSeconds;
    var p := d.payload;
    DocumentMeans(gate, d, CheckpointMaterial(p));
    CountersMean(p.counters);
    ElapsedMeans(p.elapsedSeconds, p.observedAt.at - start.payload.plannedStart.at);
    forall refs { RefsMean(gate, refs); }
    ElementsMean(p.closedRefs, p.openedRefs);
    ActiveMeans(p);
    ResetsAdd(Elements(p.resetRefs), prior.resetRefs);
  }

  lemma ChainStep(gate: Gate, start: Start, checkpoints: seq<Checkpoint>, i: nat)
    requires CountersOk(start.payload.baseline)
    requires ChainMeaning(gate, start, checkpoints) && i < |checkpoints|
    ensures PriorState(gate, start, Before(checkpoints, i))
      == Some(StateBefore(start, checkpoints, i))
    ensures StepOk(gate, start, StateBefore(start, checkpoints, i), checkpoints[i])
  {
    hide PriorState, StepOk, PointMeaning, CountersOk, Counts;
    var d := checkpoints[i];
    assert PointMeaning(gate, start, d, i) && LinksBack(start, checkpoints, i);
    LinksMean(start, checkpoints, i);
    PointIsPrior(gate, start, d, i);
    if i == 0 {
      FirstPrior(gate, start);
      FirstOnward(gate, start, d);
    } else {
      var before := checkpoints[i - 1];
      assert PointMeaning(gate, start, before, i - 1);
      PointIsPrior(gate, start, before, i - 1);
      CountersMean(before.payload.counters);
      CountersMean(d.payload.counters);
      assert Keeps(before.payload, d.payload);
      LaterOnward(gate, start, before, d, i);
    }
    PointMeansStep(gate, start, StateBefore(start, checkpoints, i), d, i);
  }

  lemma FirstOnward(gate: Gate, start: Start, d: Checkpoint)
    requires CountersOk(start.payload.baseline) && CountersOk(d.payload.counters)
    requires PointMeaning(gate, start, d, 0)
    ensures Onward(start, InitialState(start), d.payload, 0)
  {
    hide Identified, References;
  }

  lemma LaterOnward(gate: Gate, start: Start, before: Checkpoint, d: Checkpoint, i: nat)
    requires i > 0 && CountersOk(before.payload.counters) && CountersOk(d.payload.counters)
    requires PointMeaning(gate, start, before, i - 1) && PointMeaning(gate, start, d, i)
    requires Counts(before.payload.counters) && Counts(d.payload.counters)
    requires Keeps(before.payload, d.payload)
    ensures Onward(start, StateOf(before), d.payload, i)
  {
    hide Identified, References;
    KeepsMeans(before.payload, d.payload);
  }

  /**
   The step checks, each against the direct predecessor only, accept exactly the chains that are
   right as a whole.
   */
  lemma ChainMeans(
    gate: Gate, policy: Policy, start: Start, checkpoints: seq<Checkpoint>,
    previous: Option<Closeout>)
    requires StartOk(gate, policy, start, previous)
    ensures ChainOk(gate, policy, start, checkpoints, previous)
      <==> ChainMeaning(gate, start, checkpoints)
  {
    hide StartOk, PriorState, StepOk, PointMeaning, CountersOk, Counts, LinksBack, Keeps;
    StartBaseline(gate, policy, start, previous);
    if ChainOk(gate, policy, start, checkpoints, previous) {
      forall i | 0 <= i < |checkpoints|
        ensures PointMeaning(gate, start, checkpoints[i], i) && LinksBack(start, checkpoints, i)
        ensures CountersOk(checkpoints[i].payload.counters)
      {
        StepMeansGlobal(gate, policy, start, checkpoints, previous, i);
      }
      forall i, j | 0 <= i < j < |checkpoints|
        ensures Counts(checkpoints[i].payload.counters) && Counts(checkpoints[j].payload.counters)
        ensures Keeps(checkpoints[i].payload, checkpoints[j].payload)
      {
        ChainExtends(gate, policy, start, checkpoints, previous, i, j);
        CountersMean(checkpoints[i].payload.counters);
        CountersMean(checkpoints[j].payload.counters);
        KeepsMeans(checkpoints[i].payload, checkpoints[j].payload);
      }
    }
    if ChainMeaning(gate, start, checkpoints) {
      forall i | 0 <= i < |checkpoints|
        ensures CheckpointOk(gate, policy, start, Before(checkpoints, i), previous, checkpoints[i])
      {
        ChainStep(gate, start, checkpoints, i);
      }
    }
  }

  lemma StepMeansGlobal(
    gate: Gate, policy: Policy, start: Start, checkpoints: seq<Checkpoint>,
    previous: Option<Closeout>, i: nat)
    requires CountersOk(start.payload.baseline) && i < |checkpoints|
    requires ChainOk(gate, policy, start, checkpoints, previous)
    ensures PointMeaning(gate, start, checkpoints[i], i) && LinksBack(start, checkpoints, i)
    ensures CountersOk(checkpoints[i].payload.counters)
  {
    hide ChainOk, StepOk, Anchored, PointMeaning, CountersOk;
    var prior := StateBefore(start, checkpoints, i);
    ChainAt(gate, policy, start, checkpoints, previous, i);
    if i > 0 { ChainAt(gate, policy, start, checkpoints, previous, i - 1); }
    StepMeansPoint(gate, start, prior, checkpoints[i], i);
    StepLinks(gate, start, prior, checkpoints[i]);
    LinksMean(start, checkpoints, i);
  }

  lemma StepLinks(gate: Gate, start: Start, prior: Prior, d: Checkpoint)
    requires StepOk(gate, start, prior, d)
    ensures Elements(d.parentRefs) == {start.objectId, d.payload.monitorHeadRef}
      + (if prior.ref.Some? then {prior.ref.value} else {})
    ensures CountersOk(d.payload.counters)
  {
  }

  // ---------------------------------------------------------------- workload

  function CountOf(counters: Counters, c: Counter): int {
    if c in counters then counters[c] else 0
  }

  /** What one step added to a counter; the first step adds to the baseline. */
  function Increment(start: Start, checkpoints: seq<Checkpoint>, c: Counter, i: nat): int
    requires i < |checkpoints|
  {
    CountOf(checkpoints[i].payload.counters, c)
    - (if i == 0 then CountOf(start.payload.baseline, c)
       else CountOf(checkpoints[i - 1].payload.counters, c))
  }

  /** The increments of the first n steps together. */
  function Growth(start: Start, checkpoints: seq<Checkpoint>, c: Counter, n: nat): int
    requires n <= |checkpoints|
  {
    if n == 0 then 0 else Growth(start, checkpoints, c, n - 1) + Increment(start, checkpoints, c, n - 1)
  }

  lemma {:induction false} GrowthTelescopes(
    start: Start, checkpoints: seq<Checkpoint>, c: Counter, n: nat)
    requires 0 < n <= |checkpoints|
    ensures Growth(start, checkpoints, c, n)
      == CountOf(checkpoints[n - 1].payload.counters, c) - CountOf(start.payload.baseline, c)
  {
    if n > 1 { GrowthTelescopes(start, checkpoints, c, n - 1); }
  }

  /** The threshold of each counted kind of work. */
  function Threshold(rule: Rule, c: Counter): int {
    match c
    case PulseSamples => rule.minimumPulseSamples
    case MonitorRecords => rule.minimumMonitorRecords
    case BoundedJobs => rule.minimumBoundedJobs
    case ResearchCycles => rule.minimumResearchCycles
    case ProviderCalls => rule.minimumProviderCalls
    case BackupSuccesses => rule.minimumBackups
    case RestartChecks => rule.minimumRestartChecks
    case _ => 0
  }

  /** The steps of the chain add up to enough work of every kind, and settle provider accounts. */
  ghost predicate Worked(rule: Rule, start: Start, checkpoints: seq<Checkpoint>) {
    var n := |checkpoints|;
    && (forall c | c in {PulseSamples, MonitorRecords, BoundedJobs, ResearchCycles, ProviderCalls,
                         BackupSuccesses, RestartChecks} ::
          Threshold(rule, c) <= Growth(start, checkpoints, c, n))
    && (rule.providerCallsMustBeZero ==> Growth(start, checkpoints, ProviderCalls, n) == 0)
    && Growth(start, checkpoints, UnknownProviderResults, n)
         <= Growth(start, checkpoints, ReconciledProviderResults, n)
  }

  lemma MinimaMean(rule: Rule, start: Start, checkpoints: seq<Checkpoint>)
    requires checkpoints != [] && CountersOk(start.payload.baseline)
    requires CountersOk(checkpoints[|checkpoints| - 1].payload.counters)
    ensures MinimaOk(rule, checkpoints[|checkpoints| - 1].payload.counters, start.payload.baseline)
      <==> Worked(rule, start, checkpoints)
  {
    hide Growth;
    var n := |checkpoints|;
    GrowthTelescopes(start, checkpoints, PulseSamples, n);
    GrowthTelescopes(start, checkpoints, MonitorRecords, n);
    GrowthTelescopes(start, checkpoints, BoundedJobs, n);
    GrowthTelescopes(start, checkpoints, ResearchCycles, n);
    GrowthTelescopes(start, checkpoints, ProviderCalls, n);
    GrowthTelescopes(start, checkpoints, BackupSuccesses, n);
    GrowthTelescopes(start, checkpoints, RestartChecks, n);
    GrowthTelescopes(start, checkpoints, UnknownProviderResults, n);
    GrowthTelescopes(start, checkpoints, ReconciledProviderResults, n);
    if Worked(rule, start, checkpoints) {
      assert Threshold(rule, PulseSamples) <= Growth(start, checkpoints, PulseSamples, n);
      assert Threshold(rule, MonitorRecords) <= Growth(start, checkpoints, MonitorRecords, n);
      assert Threshold(rule, BoundedJobs) <= Growth(start, checkpoints, BoundedJobs, n);
      assert Threshold(rule, ResearchCycles) <= Growth(start, checkpoints, ResearchCycles, n);
      assert Threshold(rule, ProviderCalls) <= Growth(start, checkpoints, ProviderCalls, n);
      assert Threshold(rule, BackupSuccesses) <= Growth(start, checkpoints, BackupSuccesses, n);
      assert Threshold(rule, RestartChecks) <= Growth(start, checkpoints, RestartChecks, n);
    }
  }

  function SumOf(buckets: seq<Bucket>, amount: Bucket -> int): int {
    if buckets == [] then 0 else amount(buckets[0]) + SumOf(buckets[1..], amount)
  }

  lemma {:induction false} SumSplits(a: seq<Bucket>, b: seq<Bucket>, amount: Bucket -> int)
    ensures SumOf(a + b, amount) == SumOf(a, amount) + SumOf(b, amount)
  {
    if a == [] {
      assert a + b == b;
    } else {
      assert (a + b)[1..] == a[1..] + b;
      SumSplits(a[1..], b, amount);
    }
  }

  function Jobs(b: Bucket): int { b.jobs }
  function Cycles(b: Bucket): int { b.cycles }
  function Calls(b: Bucket): int { b.calls }

  lemma {:induction false} TallySums(buckets: seq<Bucket>)
    ensures TallyOf(buckets).jobs == SumOf(buckets, Jobs)
    ensures TallyOf(buckets).cycles == SumOf(buckets, Cycles)
    ensures TallyOf(buckets).calls == SumOf(buckets, Calls)
  {
    if buckets != [] {
      var n := |buckets| - 1;
      TallySums(buckets[..n]);
      assert buckets == buckets[..n] + [buckets[n]] && [buckets[n]][1..] == [];
      SumSplits(buckets[..n], [buckets[n]], Jobs);
      SumSplits(buckets[..n], [buckets[n]], Cycles);
      SumSplits(buckets[..n], [buckets[n]], Calls);
      assert SumOf([buckets[n]], Jobs) == buckets[n].jobs;
      assert SumOf([buckets[n]], Cycles) == buckets[n].cycles;
      assert SumOf([buckets[n]], Calls) == buckets[n].calls;
    }
  }

  /** Buckets in sequence from the start, whose work is what the steps of the chain added. */
  ghost predicate Spread(
    rule: Rule, start: Start, checkpoints: seq<Checkpoint>, buckets: seq<Bucket>)
  {
    var n, s := |checkpoints|, start.payload.plannedStart.at;
    && |buckets| * rule.bucketSeconds == rule.durationSeconds
    && (forall i | 0 <= i < |buckets| ::
          && buckets[i].index == i + 1
          && buckets[i].startedAt.at == s + i * rule.bucketSeconds * 1_000_000
          && buckets[i].endedAt.at == buckets[i].startedAt.at + rule.bucketSeconds * 1_000_000
          && From(0, {buckets[i].jobs, buckets[i].cycles, buckets[i].calls}))
    && SumOf(buckets, Jobs) == Growth(start, checkpoints, BoundedJobs, n)
    && SumOf(buckets, Cycles) == Growth(start, checkpoints, ResearchCycles, n)
    && SumOf(buckets, Calls) == Growth(start, checkpoints, ProviderCalls, n)
    && rule.minimumNonzeroJobBuckets <= |set i | 0 <= i < |buckets| && buckets[i].jobs > 0|
    && rule.minimumNonzeroCycleBuckets <= |set i | 0 <= i < |buckets| && buckets[i].cycles > 0|
    && rule.minimumNonzeroProviderBuckets <= |set i | 0 <= i < |buckets| && buckets[i].calls > 0|
  }

  lemma BusyMeans(buckets: seq<Bucket>)
    ensures Busy(buckets, HasJobs) == set i | 0 <= i < |buckets| && buckets[i].jobs > 0
    ensures Busy(buckets, HasCycles) == set i | 0 <= i < |buckets| && buckets[i].cycles > 0
    ensures Busy(buckets, HasCalls) == set i | 0 <= i < |buckets| && buckets[i].calls > 0
  {
  }

  lemma CountMeans(rule: Rule, n: nat)
    requires RuleOk(rule)
    ensures n == rule.durationSeconds / rule.bucketSeconds <==>
      n * rule.bucketSeconds == rule.durationSeconds
  {
    RuleDuration(rule);
    if n * rule.bucketSeconds == rule.durationSeconds { ExactQuotient(n, rule.bucketSeconds); }
  }

  lemma BucketsMean(
    rule: Rule, start: Start, checkpoints: seq<Checkpoint>, p: CloseoutPayload)
    requires RuleOk(rule) && checkpoints != []
    requires p.counters == checkpoints[|checkpoints| - 1].payload.counters
    requires p.startedAt == start.payload.plannedStart
    requires CountersOk(start.payload.baseline) && CountersOk(p.counters)
    ensures BucketsOk(p, rule, start.payload.baseline) <==> Spread(rule, start, checkpoints, p.buckets)
  {
    hide Growth, TallyOf, SumOf, RuleOk, Busy;
    var n := |checkpoints|;
    CountMeans(rule, |p.buckets|);
    GrowthTelescopes(start, checkpoints, BoundedJobs, n);
    GrowthTelescopes(start, checkpoints, ResearchCycles, n);
    GrowthTelescopes(start, checkpoints, ProviderCalls, n);
    TallySums(p.buckets);
    TallyCounts(p.buckets);
    BusyMeans(p.buckets);
  }

  // ---------------------------------------------------------------- closeout

  ghost predicate ClosesWith(p: CloseoutPayload, start: Start, last: CheckpointPayload) {
    && last.observedAt == start.payload.plannedEnd
    && p.counters == last.counters && p.openedRefs == last.openedRefs
    && p.closedRefs == last.closedRefs && p.activeRefs == last.activeRefs
    && p.resetRefs == last.resetRefs
    && |p.activeRefs| == 0 && forall x :: x in p.openedRefs <==> x in p.closedRefs
  }

  /** A window that was planned, observed and closed as the policy demands. */
  ghost predicate CloseoutMeaning(
    gate: Gate, policy: Policy, start: Start, checkpoints: seq<Checkpoint>, document: Closeout,
    previous: Option<Closeout>)
  {
    var s, p, n := start.payload, document.payload, |checkpoints|;
    && ShapeMeaning(gate, policy, document) && StartMeaning(gate, policy, start, previous)
    && p.startRef == start.objectId && p.windowId == s.windowId && p.policySha == s.policySha
    && p.thresholdSha == s.thresholdSha && p.fingerprintSha == s.fingerprintSha
    && p.startedAt == s.plannedStart && p.endedAt == s.plannedEnd
    && var rule := policy.windows[p.windowId];
    && p.durationSeconds == rule.durationSeconds
    && ChainMeaning(gate, start, checkpoints) && n > 0 && rule.minimumCheckpoints <= n
    && |p.checkpointRefs| == n
    && (forall i | 0 <= i < n :: p.checkpointRefs[i] == checkpoints[i].objectId)
    && ClosesWith(p, start, checkpoints[n - 1].payload)
    && Worked(rule, start, checkpoints) && Spread(rule, start, checkpoints, p.buckets)
    && Proven(gate, p.proofs, s.fingerprintSha, s.plannedEnd.at)
    && forall r :: r in document.parentRefs <==>
         || r == start.objectId || (exists d :: d in checkpoints && d.objectId == r)
         || exists proof :: proof in p.proofs && proof.ref == r
  }

  lemma IdsMean(refs: seq<string>, checkpoints: seq<Checkpoint>)
    ensures refs == ObjectIds(checkpoints) <==>
      |refs| == |checkpoints| && forall i | 0 <= i < |checkpoints| :: refs[i] == checkpoints[i].objectId
  {
  }

  lemma CloseoutParentsMean(start: Start, checkpoints: seq<Checkpoint>, document: Closeout)
    requires document.payload.checkpointRefs == ObjectIds(checkpoints)
    ensures Elements(document.parentRefs) ==
        {start.objectId} + Elements(document.payload.checkpointRefs) + ProofRefs(document.payload.proofs)
      <==> forall r :: r in document.parentRefs <==>
        || r == start.objectId || (exists d :: d in checkpoints && d.objectId == r)
        || exists proof :: proof in document.payload.proofs && proof.ref == r
  {
    var p := document.payload;
    var expected := {start.objectId} + Elements(p.checkpointRefs) + ProofRefs(p.proofs);
    forall r ensures r in p.checkpointRefs <==> exists d :: d in checkpoints && d.objectId == r {
      if r in p.checkpointRefs {
        var i :| 0 <= i < |p.checkpointRefs| && p.checkpointRefs[i] == r;
        assert checkpoints[i] in checkpoints;
      }
      if exists d :: d in checkpoints && d.objectId == r {
        var d :| d in checkpoints && d.objectId == r;
        var i :| 0 <= i < |checkpoints| && checkpoints[i] == d;
        assert p.checkpointRefs[i] == r;
      }
    }
    assert forall r :: r in Elements(document.parentRefs) <==> r in document.parentRefs;
    assert forall r :: r in expected <==>
      || r == start.objectId || r in p.checkpointRefs
      || exists proof :: proof in p.proofs && proof.ref == r;
  }

  lemma RepeatsMean(p: CloseoutPayload, start: Start, last: CheckpointPayload)
    requires p.endedAt == start.payload.plannedEnd
    ensures RepeatsLast(p, last) <==> ClosesWith(p, start, last)
  {
    assert forall x :: x in Elements(p.openedRefs) <==> x in p.openedRefs;
    assert forall x :: x in Elements(p.closedRefs) <==> x in p.closedRefs;
  }

  /** The closeout is accepted exactly if the window was as the policy demands. */
  lemma CloseoutMeans(
    gate: Gate, policy: Policy, start: Start, checkpoints: seq<Checkpoint>, document: Closeout,
    previous: Option<Closeout>)
    ensures CloseoutOk(gate, policy, start, checkpoints, document, previous)
      <==> CloseoutMeaning(gate, policy, start, checkpoints, document, previous)
  {
    hide CloseoutShapeOk, ShapeMeaning, StartOk, StartMeaning, ChainOk, ChainMeaning, RuleOk;
    hide MinimaOk, Worked, BucketsOk, Spread, ProofsOk, Proven, RepeatsLast, ClosesWith, Elements;
    hide ProofRefs, ObjectIds, CountersOk;
    ShapeMeans(gate, policy, document);
    StartMeans(gate, policy, start, previous);
    if && CloseoutShapeOk(gate, policy, document) && StartOk(gate, policy, start, previous)
       && BindsStart(document.payload, start)
    {
      var p := document.payload;
      DurationsMean(gate, policy, start, document, previous);
      var rule := policy.windows[p.windowId];
      ChainMeans(gate, policy, start, checkpoints, previous);
      IdsMean(p.checkpointRefs, checkpoints);
      ProofsMean(gate, p.proofs, p.fingerprintSha, p.endedAt.at);
      if p.checkpointRefs == ObjectIds(checkpoints) {
        CloseoutParentsMean(start, checkpoints, document);
      }
      if checkpoints != [] {
        var last := checkpoints[|checkpoints| - 1].payload;
        RepeatsMean(p, start, last);
        if p.counters == last.counters {
          MinimaMean(rule, start, checkpoints);
          BucketsMean(rule, start, checkpoints, p);
        }
        SameCounters(p, start, last);
      }
    }
  }

  lemma SameCounters(p: CloseoutPayload, start: Start, last: CheckpointPayload)
    ensures RepeatsLast(p, last) ==> p.counters == last.counters
    ensures ClosesWith(p, start, last) ==> p.counters == last.counters
  {
  }

  lemma DurationsMean(
    gate: Gate, policy: Policy, start: Start, document: Closeout, previous: Option<Closeout>)
    requires CloseoutShapeOk(gate, policy, document) && StartOk(gate, policy, start, previous)
    requires BindsStart(document.payload, start)
    ensures document.payload.windowId in policy.windows
    ensures RuleOk(policy.windows[document.payload.windowId])
    ensures CountersOk(start.payload.baseline) && CountersOk(document.payload.counters)
    ensures document.payload.endedAt.at - document.payload.startedAt.at
      == policy.windows[document.payload.windowId].durationSeconds * MICROS
    ensures Integer(policy.windows[document.payload.windowId].durationSeconds, 1)
  {
    hide DocumentOk, FingerprintOk, ProofsOk, PredecessorOk, RuleOk, CountersOk, Refs;
    var _ := AcceptedRule(policy, document.payload.windowId);
  }
}
