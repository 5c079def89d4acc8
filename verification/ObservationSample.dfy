/**
 A smallest program that is accepted in full: all four windows in sequence, each of one bucket and
 one checkpoint at the planned end, every minimum met with equality, and no two hashed documents
 with one digest. What the theorems require of runs can therefore be met.
 */
module ObservationSample {
  import opened Text
  import opened ObservationDocuments
  import opened ObservationProgram

  /** Tells apart what these documents need told apart: the kinds, and the windows. */
  function Digest(m: Material): string {
    match m
    case PolicyMaterial(_) => "p"
    case RuleMaterial(_) => "r"
    case FingerprintMaterial(_) => "f"
    case StartMaterial(s) => "s" + s.windowId
    case CheckpointMaterial(c) => "c" + c.windowId
    case CloseoutMaterial(c) => "e" + c.windowId
  }

  const GATE := Gate(Digest, _ => true, _ => true, _ => true)

  const ALL_COUNTERS: seq<Counter> := [
    PulseSamples, MonitorRecords, BoundedJobs, ResearchCycles, ProviderCalls, BackupSuccesses,
    RestartChecks, RuntimeResets, UnknownProviderResults, ReconciledProviderResults,
    CanonicalWrites, LiveActions, AuthorityBreaches, PrivacyViolations, SecondWriterEvents,
    FingerprintDriftEvents, CounterResetsUnexplained]

  const ZERO_LIST: seq<Counter> := [
    CanonicalWrites, LiveActions, AuthorityBreaches, PrivacyViolations, SecondWriterEvents,
    FingerprintDriftEvents, CounterResetsUnexplained]

  const FINGERPRINT_LIST: seq<string> := [
    "release_sha", "tree_sha", "image_digests", "config_sha256", "policy_sha256",
    "provider_sha256", "schema_sha256", "sbom_sha256", "environment_ref"]

  function RuleAfter(previous: Option<string>): Rule {
    Rule(1, 1, 1, 1, 1, 1, 1, 0, 1, 1, 1, 1, 0, false, previous)
  }

  const WINDOWS: map<string, Rule> := map k | k in Elements(SEQUENCE) :: RuleAfter(PredecessorOf(k))

  function PredecessorOf(window: string): Option<string> {
    if window == SEQUENCE[1] then Some(SEQUENCE[0])
    else if window == SEQUENCE[2] then Some(SEQUENCE[1])
    else if window == SEQUENCE[3] then Some(SEQUENCE[2])
    else None
  }

  const POLICY := Policy(
    "ObservationWindowPolicy", "1.0.0", "post-product-done-sequential-windows-v1", false, false,
    SEQUENCE, ALL_COUNTERS, ZERO_LIST, FINGERPRINT_LIST,
    "SANITIZED_COUNTERS_HASHES_AND_REFS_ONLY", [], WINDOWS)

  function Counted(n: int): Counters {
    map c: Counter | c in ALL_COUNTERS ::
      if c in {PulseSamples, MonitorRecords, BoundedJobs, ResearchCycles, BackupSuccesses, RestartChecks}
      then n else 0
  }

  // ---------------------------------------------------------------- window k of the program

  function StartRef(k: nat): string
    requires k < 4
  {
    "observation-window-start" + ":" + ("s" + SEQUENCE[k])
  }

  function CheckpointRef(k: nat): string
    requires k < 4
  {
    "observation-window-checkpoint" + ":" + ("c" + SEQUENCE[k])
  }

  function CloseoutRef(k: nat): string
    requires k < 4
  {
    "observation-window-closeout" + ":" + ("e" + SEQUENCE[k])
  }

  /** Window k lasts from second k to second k + 1. */
  function Second(k: nat): Stamp {
    Stamp("second", k * MICROS)
  }

  const PROOFS := [Proof("proof", "f", Second(4))]
  const FINGERPRINT := Fingerprint(
    "release", "tree", ["sha256:image"], "config", "policy", "provider", "schema", "sbom", "env")

  function StartPayloadOf(k: nat): StartPayload
    requires k < 4
  {
    StartPayload(
      SEQUENCE[k], "p", "r", "done", Second(0), "deployment",
      if k == 0 then None else Some(CloseoutRef(k - 1)), FINGERPRINT, "f", Second(k), Second(k + 1),
      Counted(0), [], PROOFS, "evidence", false)
  }

  function CheckpointPayloadOf(k: nat): CheckpointPayload
    requires k < 4
  {
    CheckpointPayload(
      StartRef(k), SEQUENCE[k], "p", "f", 1, Second(k + 1), 1, Counted(1), [], [], [], [], "head",
      "evidence", false)
  }

  function CloseoutPayloadOf(k: nat): CloseoutPayload
    requires k < 4
  {
    CloseoutPayload(
      StartRef(k), SEQUENCE[k], "p", "r", "f", Second(k), Second(k + 1), 1, Counted(1),
      [CheckpointRef(k)], [Bucket(1, Second(k), Second(k + 1), 1, 1, 0)], [], [], [], [], PROOFS,
      "evidence", "PASS", false)
  }

  function HeaderFor(schema: string): Header {
    Header(schema, "1.0.0", "observation-window-controller", "governance", "D1_INTERNAL_SANITIZED")
  }

  function StartParents(k: nat): seq<string>
    requires k < 4
  {
    if k == 0 then ["done", "deployment", "proof"]
    else ["done", "deployment", "proof", CloseoutRef(k - 1)]
  }

  function StartOf(k: nat): Start
    requires k < 4
  {
    Document(HeaderFor("ObservationWindowStart"), StartRef(k), Second(k), StartPayloadOf(k),
             "s" + SEQUENCE[k], StartParents(k))
  }

  function CheckpointOf(k: nat): Checkpoint
    requires k < 4
  {
    Document(HeaderFor("ObservationWindowCheckpoint"), CheckpointRef(k), Second(k + 1),
             CheckpointPayloadOf(k), "c" + SEQUENCE[k], [StartRef(k), "head"])
  }

  function CloseoutOf(k: nat): Closeout
    requires k < 4
  {
    Document(HeaderFor("ObservationWindowCloseout"), CloseoutRef(k), Second(k + 1),
             CloseoutPayloadOf(k), "e" + SEQUENCE[k], [StartRef(k), CheckpointRef(k), "proof"])
  }

  function PreviousOf(k: nat): Option<Closeout>
    requires k < 4
  {
    if k == 0 then None else Some(CloseoutOf(k - 1))
  }

  function WindowOf(k: nat): Window
    requires k < 4
  {
    Window(StartOf(k), [CheckpointOf(k)], CloseoutOf(k))
  }

  // ---------------------------------------------------------------- the parts are accepted

  lemma WindowNamesDiffer()
    ensures SEQUENCE[0] != SEQUENCE[1] && SEQUENCE[0] != SEQUENCE[2] && SEQUENCE[0] != SEQUENCE[3]
    ensures SEQUENCE[1] != SEQUENCE[2] && SEQUENCE[1] != SEQUENCE[3] && SEQUENCE[2] != SEQUENCE[3]
  {
    assert SEQUENCE[0][0] == 'S' && SEQUENCE[1][0] == 'P' && SEQUENCE[2][0] == 'I'
      && SEQUENCE[3][0] == 'F';
  }

  lemma SampleRuleOk(previous: Option<string>)
    ensures RuleOk(RuleAfter(previous))
  {
  }

  lemma SampleHeaderOk()
    ensures PolicyHeaderOk(POLICY)
  {
    hide RuleAfter, PredecessorOf;
    hide Elements;
    forall c: Counter ensures c in POLICY.counterFields { EveryCounterListed(c); }
    SampleSets();
  }

  lemma SampleSets()
    ensures Elements(ZERO_LIST) == ZERO_FIELDS
    ensures Elements(FINGERPRINT_LIST) == FINGERPRINT_FIELDS
    ensures WINDOWS.Keys == Elements(SEQUENCE)
  {
    hide RuleAfter, PredecessorOf;
    assert WINDOWS.Keys == Elements(SEQUENCE);
  }

  lemma EveryCounterListed(c: Counter)
    ensures c in ALL_COUNTERS
  {
    match c
    case PulseSamples => assert ALL_COUNTERS[0] == c;
    case MonitorRecords => assert ALL_COUNTERS[1] == c;
    case BoundedJobs => assert ALL_COUNTERS[2] == c;
    case ResearchCycles => assert ALL_COUNTERS[3] == c;
    case ProviderCalls => assert ALL_COUNTERS[4] == c;
    case BackupSuccesses => assert ALL_COUNTERS[5] == c;
    case RestartChecks => assert ALL_COUNTERS[6] == c;
    case RuntimeResets => assert ALL_COUNTERS[7] == c;
    case UnknownProviderResults => assert ALL_COUNTERS[8] == c;
    case ReconciledProviderResults => assert ALL_COUNTERS[9] == c;
    case CanonicalWrites => assert ALL_COUNTERS[10] == c;
    case LiveActions => assert ALL_COUNTERS[11] == c;
    case AuthorityBreaches => assert ALL_COUNTERS[12] == c;
    case PrivacyViolations => assert ALL_COUNTERS[13] == c;
    case SecondWriterEvents => assert ALL_COUNTERS[14] == c;
    case FingerprintDriftEvents => assert ALL_COUNTERS[15] == c;
    case CounterResetsUnexplained => assert ALL_COUNTERS[16] == c;
  }

  function RuleOf(k: nat): Rule
    requires k < 4
  {
    RuleAfter(Predecessor(k))
  }

  lemma SamplePolicyOk(k: nat)
    requires k < 4
    ensures PolicyOk(POLICY) && SEQUENCE[k] in POLICY.windows
    ensures POLICY.windows[SEQUENCE[k]] == RuleOf(k)
  {
    hide PolicyHeaderOk, RuleOk, RuleOf, Predecessor, RuleAfter, PredecessorOf;
    SampleHeaderOk();
    forall j | 0 <= j < |SEQUENCE|
      ensures SEQUENCE[j] in POLICY.windows && POLICY.windows[SEQUENCE[j]] == RuleOf(j)
      ensures RuleOk(POLICY.windows[SEQUENCE[j]])
      ensures POLICY.windows[SEQUENCE[j]].previousWindow == Predecessor(j)
    {
      PredecessorsAgree(j);
      RuleIsOk(j);
    }
  }

  lemma PredecessorsAgree(k: nat)
    requires k < 4
    ensures SEQUENCE[k] in WINDOWS && WINDOWS[SEQUENCE[k]] == RuleOf(k)
    ensures RuleOf(k).previousWindow == Predecessor(k)
  {
    WindowNamesDiffer();
    assert SEQUENCE[k] in Elements(SEQUENCE);
  }

  lemma SampleCountersOk(n: int)
    requires 0 <= n <= 1
    ensures CountersOk(Counted(n))
    ensures forall c | c in ZERO_FIELDS :: c in Counted(n) && Counted(n)[c] == 0
    ensures forall c: Counter :: c in Counted(n) && 0 <= Counted(n)[c] <= n
  {
    forall c: Counter ensures c in Counted(n) { EveryCounterListed(c); }
  }

  lemma SampleDocumentsOk(k: nat)
    requires k < 4
    ensures DocumentOk(GATE, StartOf(k), StartMaterial(StartPayloadOf(k)))
    ensures DocumentOk(GATE, CheckpointOf(k), CheckpointMaterial(CheckpointPayloadOf(k)))
    ensures DocumentOk(GATE, CloseoutOf(k), CloseoutMaterial(CloseoutPayloadOf(k)))
  {
    SampleParents(k);
    hide Distinct;
  }

  lemma RefLengths(k: nat)
    requires k < 4
    ensures |StartRef(k)| == 26 + |SEQUENCE[k]| && |CheckpointRef(k)| == 31 + |SEQUENCE[k]|
    ensures |CloseoutRef(k)| == 29 + |SEQUENCE[k]|
  {
  }

  lemma SampleParents(k: nat)
    requires k < 4
    ensures Refs(GATE, StartParents(k)) && Refs(GATE, [StartRef(k), "head"])
    ensures Refs(GATE, [StartRef(k), CheckpointRef(k), "proof"]) && Refs(GATE, [CheckpointRef(k)])
  {
    hide StartRef, CheckpointRef, CloseoutRef;
    RefLengths(k);
    if k > 0 { RefLengths(k - 1); }
    var refs := StartParents(k);
    assert refs[0] == "done" && refs[1] == "deployment" && refs[2] == "proof";
    assert Distinct(refs);
  }

  lemma SampleProofsOk(until: int)
    requires until <= 4 * MICROS
    ensures ProofsOk(GATE, PROOFS, "f", until) && ProofRefs(PROOFS) == {"proof"}
  {
    assert PROOFS[0] in PROOFS;
  }

  lemma SampleFingerprintOk()
    ensures FingerprintOk(GATE, FINGERPRINT)
  {
    var image := FINGERPRINT.imageDigests[0];
    assert image == "sha256:" + "image";
  }

  lemma SampleShapeOk(k: nat)
    requires k < 4
    ensures CloseoutShapeOk(GATE, POLICY, CloseoutOf(k))
  {
    hide PolicyOk, DocumentOk, CountersOk, Refs, Counted, RuleAfter;
    SamplePolicyOk(k);
    SampleDocumentsOk(k);
    SampleCountersOk(1);
    SampleNoRefs();
    SampleParents(k);
  }

  lemma SampleRule(k: nat)
    requires k < 4
    ensures RuleOf(k).durationSeconds == 1 && RuleOf(k).bucketSeconds == 1
    ensures RuleOf(k).minimumCheckpoints == 1 && RuleOf(k).previousWindow == Predecessor(k)
  {
  }

  lemma SampleStructuralOk(k: nat)
    requires k < 4
    ensures StructuralCloseoutOk(GATE, POLICY, CloseoutOf(k))
  {
    hide CloseoutShapeOk, PolicyOk, RuleOf, Counted;
    SampleShapeOk(k);
    SamplePolicyOk(k);
    SampleRule(k);
  }

  lemma SamplePredecessorOk(k: nat)
    requires k < 4
    ensures PredecessorOk(GATE, POLICY, StartPayloadOf(k), RuleOf(k), PreviousOf(k))
  {
    hide StructuralCloseoutOk, RuleOf, CloseoutRef, Counted;
    SampleRule(k);
    if k > 0 { SampleStructuralOk(k - 1); }
  }

  lemma SampleStartOk(k: nat)
    requires k < 4
    ensures StartOk(GATE, POLICY, StartOf(k), PreviousOf(k))
  {
    hide PolicyOk, DocumentOk, ProofsOk, FingerprintOk, CountersOk, RuleOf, Counted, Elements;
    hide PredecessorOk, StartRef, CloseoutRef, StartParents, PreviousOf;
    SamplePolicyOk(k);
    SampleDocumentsOk(k);
    SampleProofsOk((k + 1) * MICROS);
    SampleFingerprintOk();
    SampleCountersOk(0);
    SampleRule(k);
    SamplePredecessorOk(k);
    SampleStartParents(k);
  }

  lemma SampleStartParents(k: nat)
    requires k < 4
    ensures Elements(StartParents(k)) == {"done", "deployment"} + {"proof"}
      + if k == 0 then {} else {CloseoutRef(k - 1)}
  {
    hide CloseoutRef;
    var refs := StartParents(k);
    assert refs[0] == "done" && refs[1] == "deployment" && refs[2] == "proof";
    assert k > 0 ==> refs[3] == CloseoutRef(k - 1);
  }

  function PriorOf(k: nat): Prior {
    Prior(Counted(0), {}, {}, {}, 0, k * MICROS, None)
  }

  lemma SampleStepOk(k: nat)
    requires k < 4
    ensures StepOk(GATE, StartOf(k), PriorOf(k), CheckpointOf(k))
  {
    hide DocumentOk, CountersOk, Counted, Elements, Refs, StartRef, CheckpointRef, StartParents;
    SampleDocumentsOk(k);
    SampleCountersOk(0);
    SampleCountersOk(1);
    SampleNoRefs();
    SampleStepParents(k);
    SampleResets();
  }

  lemma SampleNoRefs()
    ensures Refs(GATE, []) && Elements<string>([]) == {}
  {
  }

  lemma SampleResets()
    ensures RuntimeResets in Counted(0) && RuntimeResets in Counted(1)
    ensures Counted(0)[RuntimeResets] == 0 && Counted(1)[RuntimeResets] == 0
  {
    EveryCounterListed(RuntimeResets);
  }

  lemma SampleStepParents(k: nat)
    requires k < 4
    ensures Elements([StartRef(k), "head"]) == {StartRef(k), "head"} + {}
  {
    hide StartRef;
    var refs := [StartRef(k), "head"];
    assert refs[0] == StartRef(k) && refs[1] == "head";
  }

  lemma SampleChainOk(k: nat)
    requires k < 4
    ensures ChainOk(GATE, POLICY, StartOf(k), [CheckpointOf(k)], PreviousOf(k))
  {
    hide CheckpointOk, StartOf, CheckpointOf, PreviousOf;
    SampleCheckpointOk(k);
    SingleChain(GATE, POLICY, StartOf(k), CheckpointOf(k), PreviousOf(k));
  }

  lemma SampleCheckpointOk(k: nat)
    requires k < 4
    ensures CheckpointOk(GATE, POLICY, StartOf(k), None, PreviousOf(k), CheckpointOf(k))
  {
    hide StartOk, StepOk, CountersOk, Counted, StartRef, CheckpointRef, StartParents, PreviousOf;
    SampleStartOk(k);
    SampleCountersOk(0);
    SampleStepOk(k);
    assert PriorState(GATE, StartOf(k), None) == Some(PriorOf(k));
  }

  lemma SingleChain(
    gate: Gate, policy: Policy, start: Start, checkpoint: Checkpoint, previous: Option<Closeout>)
    requires CheckpointOk(gate, policy, start, None, previous, checkpoint)
    ensures ChainOk(gate, policy, start, [checkpoint], previous)
  {
    hide CheckpointOk;
    assert Before([checkpoint], 0) == None;
  }

  lemma SampleIds(k: nat)
    requires k < 4
    ensures ObjectIds([CheckpointOf(k)]) == [CheckpointRef(k)]
  {
    hide CheckpointRef;
    assert ObjectIds([CheckpointOf(k)])[0] == CheckpointRef(k);
  }

  lemma SampleBucketsOk(k: nat)
    requires k < 4
    requires RuleOk(RuleOf(k)) && CountersOk(Counted(1)) && CountersOk(Counted(0))
    ensures BucketsOk(CloseoutPayloadOf(k), RuleOf(k), Counted(0))
  {
    hide CountersOk, RuleOk, StartRef, CheckpointRef;
    SampleCounts();
    var buckets := CloseoutPayloadOf(k).buckets;
    assert buckets[..|buckets| - 1] == [];
    assert TallyOf([]) == Tally(0, 0, 0, 0, 0, 0);
    assert TallyOf(buckets) == Tally(1, 1, 0, 1, 1, 0);
  }

  lemma SampleCounts()
    ensures forall n | 0 <= n <= 1 :: forall c | c in ALL_COUNTERS :: c in Counted(n)
    ensures forall n | 0 <= n <= 1 ::
      (forall c | c in {PulseSamples, MonitorRecords, BoundedJobs, ResearchCycles, BackupSuccesses,
                        RestartChecks} :: c in Counted(n) && Counted(n)[c] == n)
      && (forall c | c in {ProviderCalls, UnknownProviderResults, ReconciledProviderResults} ::
            c in Counted(n) && Counted(n)[c] == 0)
  {
    forall c: Counter ensures c in ALL_COUNTERS { EveryCounterListed(c); }
  }

  lemma SampleMinimaOk(k: nat)
    requires k < 4
    requires CountersOk(Counted(1)) && CountersOk(Counted(0))
    ensures MinimaOk(RuleOf(k), Counted(1), Counted(0))
  {
    hide CountersOk, Counted;
    SampleCounts();
  }

  lemma SampleCloseoutParents(k: nat)
    requires k < 4
    ensures Elements([StartRef(k), CheckpointRef(k), "proof"])
      == {StartRef(k)} + Elements([CheckpointRef(k)]) + {"proof"}
  {
    hide StartRef, CheckpointRef;
    var refs := [StartRef(k), CheckpointRef(k), "proof"];
    assert refs[0] == StartRef(k) && refs[1] == CheckpointRef(k) && refs[2] == "proof";
    assert [CheckpointRef(k)][0] == CheckpointRef(k);
  }

  lemma SampleWindowOk(k: nat)
    requires k < 4
    ensures CloseoutOk(GATE, POLICY, StartOf(k), [CheckpointOf(k)], CloseoutOf(k), PreviousOf(k))
  {
    hide CloseoutShapeOk, StartOk, RuleOk, ChainOk, BucketsOk, MinimaOk, ProofsOk, CountersOk;
    hide Counted, Elements, ObjectIds, ProofRefs, PolicyOk, RuleOf, PreviousOf, StartParents;
    hide StartRef, CheckpointRef;
    SampleShapeOk(k);
    SampleStartOk(k);
    SamplePolicyOk(k);
    SampleRule(k);
    RuleIsOk(k);
    SampleCountersOk(0);
    SampleCountersOk(1);
    SampleChainOk(k);
    SampleIds(k);
    SampleMinimaOk(k);
    SampleBucketsOk(k);
    SampleProofsOk((k + 1) * MICROS);
    SampleCloseoutParents(k);
  }

  lemma RuleIsOk(k: nat)
    requires k < 4
    ensures RuleOk(RuleOf(k))
  {
    SampleRuleOk(Predecessor(k));
  }

  // ---------------------------------------------------------------- the program

  const PROGRAM := [WindowOf(0), WindowOf(1), WindowOf(2), WindowOf(3)]

  /** All four windows are accepted in sequence. */
  lemma SmallestProgramIsAccepted()
    ensures AcceptedRun(GATE, POLICY, PROGRAM) && |PROGRAM| == |SEQUENCE|
  {
    hide CloseoutOk, StartOf, CheckpointOf, CloseoutOf;
    forall k: nat | k < |PROGRAM|
      ensures CloseoutOk(GATE, POLICY, PROGRAM[k].start, PROGRAM[k].checkpoints,
                         PROGRAM[k].closeout, CloseoutBefore(PROGRAM, k))
    {
      SampleWindowOk(k);
      assert PROGRAM[k] == WindowOf(k);
      assert CloseoutBefore(PROGRAM, k) == PreviousOf(k);
    }
  }

  /** No two documents of it collide. */
  lemma SmallestProgramHasNoCollision()
    ensures NoCollision(GATE, PROGRAM, PROGRAM)
  {
    hide WindowOf;
    forall i, j | 0 <= i < |PROGRAM| && 0 <= j < |PROGRAM|
      ensures NoCollisionBetween(GATE, PROGRAM[i], PROGRAM[j])
    {
      assert PROGRAM[i] == WindowOf(i) && PROGRAM[j] == WindowOf(j);
      WindowsDoNotCollide(i, j);
    }
  }

  lemma WindowsDoNotCollide(i: nat, j: nat)
    requires i < 4 && j < 4
    ensures NoCollisionBetween(GATE, WindowOf(i), WindowOf(j))
  {
    hide StartRef, CheckpointRef, CloseoutRef, StartParents, Counted;
    forall x, y | Hashed(WindowOf(i), x) && Hashed(WindowOf(j), y) ensures Apart(GATE.sha, x, y) {
      MaterialOf(i, x);
      MaterialOf(j, y);
      DigestIsApart(i, x, j, y);
    }
  }

  lemma MaterialOf(k: nat, m: Material)
    requires k < 4 && Hashed(WindowOf(k), m)
    ensures m in Materials(k)
  {
    hide StartRef, CheckpointRef, CloseoutRef, StartParents, Counted;
  }

  /** What window k is identified by. */
  function Materials(k: nat): set<Material>
    requires k < 4
  {
    {StartMaterial(StartPayloadOf(k)), FingerprintMaterial(FINGERPRINT),
     CloseoutMaterial(CloseoutPayloadOf(k)), CheckpointMaterial(CheckpointPayloadOf(k))}
  }

  lemma DigestIsApart(i: nat, x: Material, j: nat, y: Material)
    requires i < 4 && j < 4 && x in Materials(i) && y in Materials(j)
    ensures Apart(GATE.sha, x, y)
  {
    hide StartRef, CheckpointRef, CloseoutRef, StartParents, Counted;
    if Digest(x) == Digest(y) {
      assert Digest(x)[0] == Digest(y)[0];
      assert Digest(x)[1..] == Digest(y)[1..];
      if !x.FingerprintMaterial? {
        assert Digest(x)[1..] == SEQUENCE[i] && Digest(y)[1..] == SEQUENCE[j];
        SequenceDistinct(i, j);
      }
    }
  }
}
