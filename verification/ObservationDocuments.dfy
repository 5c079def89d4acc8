/**
 The documents of tools/observation_window_gate.py as values, and the acceptance rule of each
 validator as a predicate. Instants are integer microseconds. SHA-256 over canonical JSON is the
 parameter `sha`; the reference and hex syntaxes are the parameters `isRef`, `isSha` and `isGit`.
 */
module ObservationDocuments {
  import opened Text

  const SEQUENCE: seq<string> := ["SUBSTRATE_24H", "PROVIDER_48H", "INTEGRATED_7D", "FINAL_14D"]
  const MICROS := 1_000_000
  const MAX_INTEGER := 0x20_0000_0000_0000 - 1 // 2^53 - 1

  /** A timestamp keeps its text, because some checks compare texts and others instants. */
  datatype Stamp = Stamp(text: string, at: int)

  datatype Counter =
    | PulseSamples | MonitorRecords | BoundedJobs | ResearchCycles | ProviderCalls
    | BackupSuccesses | RestartChecks | RuntimeResets | UnknownProviderResults
    | ReconciledProviderResults | CanonicalWrites | LiveActions | AuthorityBreaches
    | PrivacyViolations | SecondWriterEvents | FingerprintDriftEvents | CounterResetsUnexplained

  type Counters = map<Counter, int>

  const COUNTER_COUNT := 17
  const ZERO_FIELDS: set<Counter> := {
    CanonicalWrites, LiveActions, AuthorityBreaches, PrivacyViolations,
    SecondWriterEvents, FingerprintDriftEvents, CounterResetsUnexplained
  }
  const FINGERPRINT_FIELDS: set<string> := {
    "release_sha", "tree_sha", "image_digests", "config_sha256", "policy_sha256",
    "provider_sha256", "schema_sha256", "sbom_sha256", "environment_ref"
  }

  datatype Rule = Rule(
    durationSeconds: int, bucketSeconds: int, minimumCheckpoints: int, minimumPulseSamples: int,
    minimumMonitorRecords: int, minimumBoundedJobs: int, minimumResearchCycles: int,
    minimumProviderCalls: int, minimumBackups: int, minimumRestartChecks: int,
    minimumNonzeroJobBuckets: int, minimumNonzeroCycleBuckets: int,
    minimumNonzeroProviderBuckets: int, providerCallsMustBeZero: bool,
    previousWindow: Option<string>)

  datatype Policy = Policy(
    schemaId: string, schemaVersion: string, policyId: string, timersStarted: bool,
    grantsAuthority: bool, windowSequence: seq<string>, counterFields: seq<Counter>,
    zeroToleranceFields: seq<Counter>, fingerprintFields: seq<string>,
    publicDocuments: string, privateMaterialAllowed: seq<bool>, windows: map<string, Rule>)

  datatype Fingerprint = Fingerprint(
    releaseSha: string, treeSha: string, imageDigests: seq<string>, configSha: string,
    policySha: string, providerSha: string, schemaSha: string, sbomSha: string,
    environmentRef: string)

  datatype Proof = Proof(ref: string, subjectSha: string, validUntil: Stamp)

  datatype StartPayload = StartPayload(
    windowId: string, policySha: string, thresholdSha: string, productDoneRef: string,
    productDoneAt: Stamp, deploymentRef: string, previousCloseoutRef: Option<string>,
    fingerprint: Fingerprint, fingerprintSha: string, plannedStart: Stamp, plannedEnd: Stamp,
    baseline: Counters, activeIncidents: seq<string>, proofs: seq<Proof>, evidenceSha: string,
    grantsAuthority: bool)

  datatype CheckpointPayload = CheckpointPayload(
    startRef: string, windowId: string, policySha: string, fingerprintSha: string, index: int,
    observedAt: Stamp, elapsedSeconds: int, counters: Counters, openedRefs: seq<string>,
    closedRefs: seq<string>, activeRefs: seq<string>, resetRefs: seq<string>, monitorHeadRef: string,
    evidenceSha: string, grantsAuthority: bool)

  datatype Bucket = Bucket(
    index: int, startedAt: Stamp, endedAt: Stamp, jobs: int, cycles: int, calls: int)

  datatype CloseoutPayload = CloseoutPayload(
    startRef: string, windowId: string, policySha: string, thresholdSha: string,
    fingerprintSha: string, startedAt: Stamp, endedAt: Stamp, durationSeconds: int,
    counters: Counters, checkpointRefs: seq<string>, buckets: seq<Bucket>, openedRefs: seq<string>,
    closedRefs: seq<string>, activeRefs: seq<string>, resetRefs: seq<string>, proofs: seq<Proof>,
    evidenceSha: string, status: string, grantsAuthority: bool)

  /** Everything the gate ever hashes. */
  datatype Material =
    | PolicyMaterial(policy: Policy)
    | RuleMaterial(rule: Rule)
    | FingerprintMaterial(fingerprint: Fingerprint)
    | StartMaterial(start: StartPayload)
    | CheckpointMaterial(checkpoint: CheckpointPayload)
    | CloseoutMaterial(closeout: CloseoutPayload)

  datatype Gate = Gate(
    sha: Material -> string, isRef: string -> bool, isSha: string -> bool, isGit: string -> bool)

  datatype Header = Header(
    schemaId: string, schemaVersion: string, issuer: string, contour: string,
    classification: string)

  datatype Document<P> = Document(
    header: Header, objectId: string, issuedAt: Stamp, payload: P, payloadSha: string,
    parentRefs: seq<string>)

  type Start = Document<StartPayload>
  type Checkpoint = Document<CheckpointPayload>
  type Closeout = Document<CloseoutPayload>

  // ---------------------------------------------------------------- scalars

  predicate Integer(value: int, minimum: int) {
    minimum <= value <= MAX_INTEGER
  }

  /** `int(delta.total_seconds())`: truncation toward zero. */
  function WholeSeconds(micros: int): int {
    if micros >= 0 then micros / MICROS else -(-micros / MICROS)
  }

  predicate Refs(gate: Gate, refs: seq<string>) {
    (forall i | 0 <= i < |refs| :: gate.isRef(refs[i])) && Distinct(refs)
  }

  predicate CountersOk(counters: Counters) {
    forall c: Counter :: c in counters && Integer(counters[c], 0)
  }

  // ---------------------------------------------------------------- policy

  predicate RuleOk(rule: Rule) {
    && Integer(rule.durationSeconds, 1) && Integer(rule.bucketSeconds, 1)
    && Integer(rule.minimumCheckpoints, 1) && Integer(rule.minimumPulseSamples, 1)
    && Integer(rule.minimumMonitorRecords, 1) && Integer(rule.minimumBoundedJobs, 1)
    && Integer(rule.minimumResearchCycles, 1) && Integer(rule.minimumProviderCalls, 0)
    && Integer(rule.minimumBackups, 1) && Integer(rule.minimumRestartChecks, 1)
    && Integer(rule.minimumNonzeroJobBuckets, 1) && Integer(rule.minimumNonzeroCycleBuckets, 1)
    && Integer(rule.minimumNonzeroProviderBuckets, 0)
    && rule.durationSeconds % rule.bucketSeconds == 0
    && rule.minimumNonzeroJobBuckets <= rule.durationSeconds / rule.bucketSeconds
    && rule.minimumNonzeroCycleBuckets <= rule.durationSeconds / rule.bucketSeconds
    && rule.minimumNonzeroProviderBuckets <= rule.durationSeconds / rule.bucketSeconds
  }

  predicate PolicyHeaderOk(policy: Policy) {
    && policy.schemaId == "ObservationWindowPolicy" && policy.schemaVersion == "1.0.0"
    && policy.policyId == "post-product-done-sequential-windows-v1"
    && !policy.timersStarted && !policy.grantsAuthority
    && policy.windowSequence == SEQUENCE
    && (forall c: Counter :: c in policy.counterFields) && |policy.counterFields| == COUNTER_COUNT
    && Elements(policy.zeroToleranceFields) == ZERO_FIELDS
    && Elements(policy.fingerprintFields) == FINGERPRINT_FIELDS
    && policy.publicDocuments == "SANITIZED_COUNTERS_HASHES_AND_REFS_ONLY"
    && (forall i | 0 <= i < |policy.privateMaterialAllowed| :: !policy.privateMaterialAllowed[i])
    && policy.windows.Keys == Elements(SEQUENCE)
  }

  function Predecessor(position: nat): Option<string>
    requires position < |SEQUENCE|
  {
    if position == 0 then None else Some(SEQUENCE[position - 1])
  }

  predicate PolicyOk(policy: Policy) {
    && PolicyHeaderOk(policy)
    && forall k | 0 <= k < |SEQUENCE| ::
         && SEQUENCE[k] in policy.windows
         && RuleOk(policy.windows[SEQUENCE[k]])
         && policy.windows[SEQUENCE[k]].previousWindow == Predecessor(k)
  }

  lemma AcceptedRule(policy: Policy, windowId: string) returns (position: nat)
    requires PolicyOk(policy) && windowId in policy.windows
    ensures position < |SEQUENCE| && SEQUENCE[position] == windowId
    ensures RuleOk(policy.windows[windowId])
    ensures Integer(policy.windows[windowId].durationSeconds, 1)
    ensures policy.windows[windowId].previousWindow == Predecessor(position)
  {
    hide RuleOk;
    position :| 0 <= position < |SEQUENCE| && SEQUENCE[position] == windowId;
    RuleDuration(policy.windows[windowId]);
  }

  lemma RuleDuration(rule: Rule)
    requires RuleOk(rule)
    ensures Integer(rule.durationSeconds, 1) && Integer(rule.bucketSeconds, 1)
    ensures rule.durationSeconds
         == (rule.durationSeconds / rule.bucketSeconds) * rule.bucketSeconds
  {
  }

  // ---------------------------------------------------------------- documents

  function SchemaId(material: Material): string {
    match material
    case StartMaterial(_) => "ObservationWindowStart"
    case CheckpointMaterial(_) => "ObservationWindowCheckpoint"
    case _ => "ObservationWindowCloseout"
  }

  function Prefix(material: Material): string {
    match material
    case StartMaterial(_) => "observation-window-start"
    case CheckpointMaterial(_) => "observation-window-checkpoint"
    case _ => "observation-window-closeout"
  }

  function ObjectId(gate: Gate, material: Material): string {
    Prefix(material) + ":" + gate.sha(material)
  }

  predicate DocumentOk<P(!new)>(gate: Gate, document: Document<P>, material: Material) {
    && document.header == Header(SchemaId(material), "1.0.0", "observation-window-controller",
                                 "governance", "D1_INTERNAL_SANITIZED")
    && document.payloadSha == gate.sha(material)
    && document.objectId == ObjectId(gate, material)
    && Refs(gate, document.parentRefs)
  }

  predicate ProofsOk(gate: Gate, proofs: seq<Proof>, fingerprintSha: string, requiredUntil: int) {
    && proofs != []
    && (forall i | 0 <= i < |proofs| ::
          && gate.isRef(proofs[i].ref)
          && proofs[i].subjectSha == fingerprintSha
          && requiredUntil <= proofs[i].validUntil.at)
    && forall i, j :: 0 <= i < j < |proofs| ==> proofs[i].ref != proofs[j].ref
  }

  function ProofRefs(proofs: seq<Proof>): set<string> {
    set p | p in proofs :: p.ref
  }

  predicate FingerprintOk(gate: Gate, f: Fingerprint) {
    && gate.isGit(f.releaseSha) && gate.isGit(f.treeSha)
    && f.imageDigests != [] && Distinct(f.imageDigests)
    && (forall i | 0 <= i < |f.imageDigests| ::
          "sha256:" <= f.imageDigests[i] && gate.isSha(f.imageDigests[i][7..]))
    && gate.isSha(f.configSha) && gate.isSha(f.policySha) && gate.isSha(f.providerSha)
    && gate.isSha(f.schemaSha) && gate.isSha(f.sbomSha) && gate.isRef(f.environmentRef)
  }

  // ---------------------------------------------------------------- start

  predicate StartOk(gate: Gate, policy: Policy, start: Start, previousCloseout: Option<Closeout>) {
    var p := start.payload;
    && PolicyOk(policy)
    && DocumentOk(gate, start, StartMaterial(p))
    && p.windowId in policy.windows
    && p.policySha == gate.sha(PolicyMaterial(policy))
    && var rule := policy.windows[p.windowId];
    && p.thresholdSha == gate.sha(RuleMaterial(rule))
    && FingerprintOk(gate, p.fingerprint)
    && p.fingerprintSha == gate.sha(FingerprintMaterial(p.fingerprint))
    && p.productDoneAt.at <= p.plannedStart.at
    && p.plannedEnd.at - p.plannedStart.at == rule.durationSeconds * MICROS
    && gate.isRef(p.productDoneRef) && gate.isRef(p.deploymentRef)
    && start.issuedAt == p.plannedStart
    && CountersOk(p.baseline)
    && (forall c | c in ZERO_FIELDS :: p.baseline[c] == 0)
    && p.activeIncidents == []
    && ProofsOk(gate, p.proofs, p.fingerprintSha, p.plannedEnd.at)
    && gate.isSha(p.evidenceSha)
    && !p.grantsAuthority
    && PredecessorOk(gate, policy, p, rule, previousCloseout)
    && Elements(start.parentRefs) ==
         {p.productDoneRef, p.deploymentRef} + ProofRefs(p.proofs)
         + (if p.previousCloseoutRef.Some? then {p.previousCloseoutRef.value} else {})
  }

  predicate PredecessorOk(
    gate: Gate, policy: Policy, p: StartPayload, rule: Rule, previousCloseout: Option<Closeout>)
  {
    match rule.previousWindow
    case None => p.previousCloseoutRef.None? && previousCloseout.None?
    case Some(required) =>
      && p.previousCloseoutRef.Some? && gate.isRef(p.previousCloseoutRef.value)
      && previousCloseout.Some?
      && StructuralCloseoutOk(gate, policy, previousCloseout.value)
      && p.previousCloseoutRef.value == previousCloseout.value.objectId
      && previousCloseout.value.payload.windowId == required
      && previousCloseout.value.payload.fingerprintSha == p.fingerprintSha
      && previousCloseout.value.payload.endedAt.at <= p.plannedStart.at
  }

  // ---------------------------------------------------------------- checkpoints

  /** What `_prior_state` hands to the step check. */
  datatype Prior = Prior(
    counters: Counters, openedRefs: set<string>, closedRefs: set<string>, resetRefs: set<string>, index: int,
    at: int, ref: Option<string>)

  function PriorState(gate: Gate, start: Start, previous: Option<Checkpoint>): Option<Prior>
    requires CountersOk(start.payload.baseline)
  {
    var s := start.payload;
    match previous
    case None => Some(Prior(s.baseline, {}, {}, {}, 0, s.plannedStart.at, None))
    case Some(document) =>
      var p := document.payload;
      if && DocumentOk(gate, document, CheckpointMaterial(p))
         && CountersOk(p.counters)
         && Refs(gate, p.openedRefs) && Refs(gate, p.closedRefs)
         && Refs(gate, p.activeRefs) && Refs(gate, p.resetRefs)
         && p.startRef == start.objectId && p.windowId == s.windowId
         && p.policySha == s.policySha && p.fingerprintSha == s.fingerprintSha
         && p.elapsedSeconds == WholeSeconds(p.observedAt.at - s.plannedStart.at)
         && (forall c | c in ZERO_FIELDS :: p.counters[c] == 0)
         && Elements(p.closedRefs) <= Elements(p.openedRefs)
         && Elements(p.activeRefs) == Elements(p.openedRefs) - Elements(p.closedRefs)
         && p.counters[RuntimeResets] - s.baseline[RuntimeResets] == |Elements(p.resetRefs)|
         && !p.grantsAuthority
         && Integer(p.index, 1)
      then
        Some(Prior(p.counters, Elements(p.openedRefs), Elements(p.closedRefs), Elements(p.resetRefs), p.index,
                   p.observedAt.at, Some(document.objectId)))
      else None
  }

  /** The body of `validate_checkpoint` once the start is accepted and the prior state known. */
  predicate StepOk(gate: Gate, start: Start, prior: Prior, document: Checkpoint) {
    var s := start.payload;
    var p := document.payload;
    && DocumentOk(gate, document, CheckpointMaterial(p))
    && p.startRef == start.objectId && p.windowId == s.windowId
    && p.policySha == s.policySha && p.fingerprintSha == s.fingerprintSha
    && !p.grantsAuthority
    && Integer(p.index, 1)
    && p.index == prior.index + 1
    && prior.at < p.observedAt.at <= s.plannedEnd.at
    && Integer(p.elapsedSeconds, 0)
    && p.elapsedSeconds == WholeSeconds(p.observedAt.at - s.plannedStart.at)
    && CountersOk(p.counters) && CountersOk(prior.counters)
    && (forall c: Counter :: prior.counters[c] <= p.counters[c])
    && (forall c | c in ZERO_FIELDS :: p.counters[c] == 0)
    && Refs(gate, p.openedRefs) && Refs(gate, p.closedRefs) && Refs(gate, p.activeRefs) && Refs(gate, p.resetRefs)
    && prior.openedRefs <= Elements(p.openedRefs) && prior.closedRefs <= Elements(p.closedRefs)
    && prior.resetRefs <= Elements(p.resetRefs)
    && Elements(p.closedRefs) <= Elements(p.openedRefs)
    && Elements(p.activeRefs) == Elements(p.openedRefs) - Elements(p.closedRefs)
    && p.counters[RuntimeResets] - prior.counters[RuntimeResets]
         == |Elements(p.resetRefs) - prior.resetRefs|
    && gate.isRef(p.monitorHeadRef) && gate.isSha(p.evidenceSha)
    && Elements(document.parentRefs) ==
         {start.objectId, p.monitorHeadRef} + (if prior.ref.Some? then {prior.ref.value} else {})
  }

  predicate CheckpointOk(
    gate: Gate, policy: Policy, start: Start, previous: Option<Checkpoint>,
    previousCloseout: Option<Closeout>, document: Checkpoint)
  {
    && StartOk(gate, policy, start, previousCloseout)
    && var prior := PriorState(gate, start, previous);
    && prior.Some?
    && StepOk(gate, start, prior.value, document)
  }

  function Before(checkpoints: seq<Checkpoint>, i: nat): Option<Checkpoint>
    requires i <= |checkpoints|
  {
    if i == 0 then None else Some(checkpoints[i - 1])
  }

  // ---------------------------------------------------------------- closeout

  /** The checks `validate_closeout` makes in both modes. */
  predicate CloseoutShapeOk(gate: Gate, policy: Policy, document: Closeout) {
    var p := document.payload;
    && PolicyOk(policy)
    && DocumentOk(gate, document, CloseoutMaterial(p))
    && p.windowId in policy.windows && p.status == "PASS" && !p.grantsAuthority
    && gate.isSha(p.policySha) && gate.isSha(p.thresholdSha) && gate.isSha(p.fingerprintSha)
    && CountersOk(p.counters)
    && Refs(gate, p.checkpointRefs) && Refs(gate, p.openedRefs) && Refs(gate, p.closedRefs)
    && Refs(gate, p.activeRefs) && Refs(gate, p.resetRefs)
    && gate.isSha(p.evidenceSha)
  }

  predicate StructuralCloseoutOk(gate: Gate, policy: Policy, document: Closeout) {
    var p := document.payload;
    && CloseoutShapeOk(gate, policy, document)
    && var rule := policy.windows[p.windowId];
    && p.policySha == gate.sha(PolicyMaterial(policy))
    && p.thresholdSha == gate.sha(RuleMaterial(rule))
    && p.durationSeconds == rule.durationSeconds
    && p.endedAt.at - p.startedAt.at == rule.durationSeconds * MICROS
  }

  /** Totals and numbers of non-idle buckets, as the bucket loop accumulates them. */
  datatype Tally = Tally(
    jobs: int, cycles: int, calls: int, busyJobs: nat, busyCycles: nat, busyCalls: nat)

  function One(condition: bool): nat {
    if condition then 1 else 0
  }

  function TallyOf(buckets: seq<Bucket>): Tally {
    if buckets == [] then Tally(0, 0, 0, 0, 0, 0)
    else
      var t := TallyOf(buckets[..|buckets| - 1]);
      var b := buckets[|buckets| - 1];
      Tally(t.jobs + b.jobs, t.cycles + b.cycles, t.calls + b.calls,
            t.busyJobs + One(b.jobs > 0), t.busyCycles + One(b.cycles > 0),
            t.busyCalls + One(b.calls > 0))
  }

  predicate BucketOk(bucket: Bucket, position: nat, startedAt: int, bucketSeconds: int) {
    && bucket.index == position + 1
    && bucket.startedAt.at == startedAt + position * bucketSeconds * MICROS
    && bucket.endedAt.at == startedAt + position * bucketSeconds * MICROS + bucketSeconds * MICROS
    && Integer(bucket.jobs, 0) && Integer(bucket.cycles, 0) && Integer(bucket.calls, 0)
  }

  predicate MinimaOk(rule: Rule, counters: Counters, baseline: Counters)
    requires CountersOk(counters) && CountersOk(baseline)
  {
    && rule.minimumPulseSamples <= counters[PulseSamples] - baseline[PulseSamples]
    && rule.minimumMonitorRecords <= counters[MonitorRecords] - baseline[MonitorRecords]
    && rule.minimumBoundedJobs <= counters[BoundedJobs] - baseline[BoundedJobs]
    && rule.minimumResearchCycles <= counters[ResearchCycles] - baseline[ResearchCycles]
    && rule.minimumProviderCalls <= counters[ProviderCalls] - baseline[ProviderCalls]
    && rule.minimumBackups <= counters[BackupSuccesses] - baseline[BackupSuccesses]
    && rule.minimumRestartChecks <= counters[RestartChecks] - baseline[RestartChecks]
    && (rule.providerCallsMustBeZero ==> counters[ProviderCalls] == baseline[ProviderCalls])
    && counters[UnknownProviderResults] - baseline[UnknownProviderResults]
         <= counters[ReconciledProviderResults] - baseline[ReconciledProviderResults]
  }

  predicate BindsStart(p: CloseoutPayload, start: Start) {
    && p.startRef == start.objectId && p.windowId == start.payload.windowId
    && p.policySha == start.payload.policySha && p.thresholdSha == start.payload.thresholdSha
    && p.fingerprintSha == start.payload.fingerprintSha
    && p.startedAt == start.payload.plannedStart && p.endedAt == start.payload.plannedEnd
  }

  predicate ChainOk(
    gate: Gate, policy: Policy, start: Start, checkpoints: seq<Checkpoint>,
    previousCloseout: Option<Closeout>)
  {
    forall i | 0 <= i < |checkpoints| ::
      CheckpointOk(gate, policy, start, Before(checkpoints, i), previousCloseout, checkpoints[i])
  }

  function ObjectIds(checkpoints: seq<Checkpoint>): (ids: seq<string>) {
    seq(|checkpoints|, i requires 0 <= i < |checkpoints| => checkpoints[i].objectId)
  }

  /** The closeout repeats the state of its last checkpoint and leaves no incident open. */
  predicate RepeatsLast(p: CloseoutPayload, last: CheckpointPayload) {
    && last.observedAt == p.endedAt
    && p.counters == last.counters && p.openedRefs == last.openedRefs && p.closedRefs == last.closedRefs
    && p.activeRefs == last.activeRefs && p.resetRefs == last.resetRefs
    && p.activeRefs == [] && Elements(p.openedRefs) == Elements(p.closedRefs)
  }

  predicate BucketsOk(p: CloseoutPayload, rule: Rule, baseline: Counters)
    requires RuleOk(rule) && CountersOk(p.counters) && CountersOk(baseline)
  {
    var t := TallyOf(p.buckets);
    && |p.buckets| == rule.durationSeconds / rule.bucketSeconds
    && (forall i | 0 <= i < |p.buckets| ::
          BucketOk(p.buckets[i], i, p.startedAt.at, rule.bucketSeconds))
    && t.jobs == p.counters[BoundedJobs] - baseline[BoundedJobs]
    && t.cycles == p.counters[ResearchCycles] - baseline[ResearchCycles]
    && t.calls == p.counters[ProviderCalls] - baseline[ProviderCalls]
    && rule.minimumNonzeroJobBuckets <= t.busyJobs
    && rule.minimumNonzeroCycleBuckets <= t.busyCycles
    && rule.minimumNonzeroProviderBuckets <= t.busyCalls
  }

  /** Full acceptance by `validate_closeout`. */
  predicate CloseoutOk(
    gate: Gate, policy: Policy, start: Start, checkpoints: seq<Checkpoint>, document: Closeout,
    previousCloseout: Option<Closeout>)
  {
    var p := document.payload;
    && CloseoutShapeOk(gate, policy, document)
    && StartOk(gate, policy, start, previousCloseout)
    && BindsStart(p, start)
    && var rule := policy.windows[p.windowId];
    && var baseline := start.payload.baseline;
    && RuleOk(rule)
    && Integer(p.durationSeconds, 1) && p.durationSeconds == rule.durationSeconds
    && p.endedAt.at - p.startedAt.at == p.durationSeconds * MICROS
    && ChainOk(gate, policy, start, checkpoints, previousCloseout)
    && checkpoints != [] && rule.minimumCheckpoints <= |checkpoints|
    && p.checkpointRefs == ObjectIds(checkpoints)
    && RepeatsLast(p, checkpoints[|checkpoints| - 1].payload)
    && MinimaOk(rule, p.counters, baseline)
    && BucketsOk(p, rule, baseline)
    && ProofsOk(gate, p.proofs, p.fingerprintSha, p.endedAt.at)
    && Elements(document.parentRefs) ==
         {start.objectId} + Elements(p.checkpointRefs) + ProofRefs(p.proofs)
  }
}
