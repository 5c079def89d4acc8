/** The paired evaluation of tools/recipient_shadow.py, once the recipient is eligible. */
module RecipientShadow {
  import opened Text

  /** `score` is None when it is not an integer. */
  datatype Observation = Observation(
    caseId: string, arm: string, score: Option<int>, benchmarkSha: string, snapshotSha: string,
    contextSha: string, methodCardId: string, poisonPresent: bool, negativeTransfer: bool,
    writeCount: int, classification: string)

  datatype Policy = Policy(caseIds: seq<string>, caseSetSha: string, scoreMin: int, scoreMax: int)

  datatype Status =
    | RejectedConfound | RejectedBoundary | RejectedPoisonedMemory | NegativeTransfer
    | NotEstablished | PositiveShadowEffectNotAdopted

  datatype Reason =
    | CaseSetMismatch | PairBindingMismatch | ScoreBoundary | RecipientWriteAttempt
    | PoisonPresent | NegativeTransferSeen | IntervalIncludesZero | NoReason

  datatype Report = Report(
    status: Status, pairedCases: nat, mean: int, low: int, high: int, reason: Reason,
    reusableFailure: bool, rollbackAction: string)

  // ---------------------------------------------------------------- the report

  function Sum(xs: seq<int>): int {
    if xs == [] then 0 else Sum(xs[..|xs| - 1]) + xs[|xs| - 1]
  }

  function Low(xs: seq<int>): int
    requires xs != []
  {
    if |xs| == 1 then xs[0]
    else var m := Low(xs[..|xs| - 1]); if xs[|xs| - 1] < m then xs[|xs| - 1] else m
  }

  function High(xs: seq<int>): int
    requires xs != []
  {
    if |xs| == 1 then xs[0]
    else var m := High(xs[..|xs| - 1]); if m < xs[|xs| - 1] then xs[|xs| - 1] else m
  }

  /** `sum // len`: floor division, which Dafny's is for a positive divisor. */
  function FloorMean(xs: seq<int>): int {
    if xs == [] then 0 else Sum(xs) / |xs|
  }

  function ReportOf(status: Status, deltas: seq<int>, reason: Reason): Report {
    var failed := !status.PositiveShadowEffectNotAdopted?;
    Report(status, |deltas|, FloorMean(deltas), if deltas == [] then 0 else Low(deltas),
           if deltas == [] then 0 else High(deltas), reason, failed,
           if failed then "REMOVE_METHOD_FROM_RECIPIENT_SHADOW" else "NONE")
  }

  lemma {:induction false} Extremes(xs: seq<int>)
    requires xs != []
    ensures forall x | x in xs :: Low(xs) <= x <= High(xs)
    ensures Low(xs) in xs && High(xs) in xs
  {
    if |xs| > 1 {
      var rest, last := xs[..|xs| - 1], xs[|xs| - 1];
      Extremes(rest);
      assert xs == rest + [last];
    }
  }

  lemma {:induction false} SumBetween(xs: seq<int>, low: int, high: int)
    requires forall i | 0 <= i < |xs| :: low <= xs[i] <= high
    ensures low * |xs| <= Sum(xs) <= high * |xs|
  {
    if xs != [] {
      var n := |xs| - 1;
      SumBetween(xs[..n], low, high);
      assert low * |xs| == low * n + low && high * |xs| == high * n + high;
    }
  }

  lemma ScaledBounds(a: int, b: int, n: nat)
    requires a <= b
    ensures a * n <= b * n
  {
  }

  lemma FloorBetween(low: int, high: int, total: int, n: int)
    requires 0 < n && low * n <= total <= high * n
    ensures low <= total / n <= high
  {
    assert total == n * (total / n) + total % n;
    if total / n < low {
      assert n * (total / n) <= n * (low - 1) by { ScaledBounds(total / n, low - 1, n); }
    }
    if total / n > high {
      assert n * (high + 1) <= n * (total / n) by { ScaledBounds(high + 1, total / n, n); }
    }
  }

  /** The floor mean always lies between the smallest and the largest delta. */
  lemma MeanLiesInInterval(status: Status, deltas: seq<int>, reason: Reason)
    ensures var r := ReportOf(status, deltas, reason); r.low <= r.mean <= r.high
    ensures deltas != [] ==> var r := ReportOf(status, deltas, reason);
      r.low in deltas && r.high in deltas && forall d | d in deltas :: r.low <= d <= r.high
  {
    if deltas != [] {
      Extremes(deltas);
      assert forall i | 0 <= i < |deltas| :: deltas[i] in deltas;
      SumBetween(deltas, Low(deltas), High(deltas));
      FloorBetween(Low(deltas), High(deltas), Sum(deltas), |deltas|);
    }
  }

  // ---------------------------------------------------------------- the evaluation

  /** The dictionary built from a list: a later observation of a case replaces an earlier one. */
  function ByCase(observations: seq<Observation>): map<string, Observation> {
    if observations == [] then map[]
    else
      var last := observations[|observations| - 1];
      ByCase(observations[..|observations| - 1])[last.caseId := last]
  }

  predicate CaseSetsAgree(policy: Policy, control: seq<Observation>, treatment: seq<Observation>) {
    && |ByCase(control).Keys| == |control| && |ByCase(treatment).Keys| == |treatment|
    && Distinct(policy.caseIds) && ByCase(control).Keys == Elements(policy.caseIds)
    && ByCase(control).Keys == ByCase(treatment).Keys
  }

  predicate PairBound(policy: Policy, cardId: string, left: Observation, right: Observation) {
    && left.arm == "CONTROL" && right.arm == "TREATMENT"
    && left.benchmarkSha == policy.caseSetSha && right.benchmarkSha == policy.caseSetSha
    && right.snapshotSha == left.snapshotSha && right.contextSha == left.contextSha
    && left.methodCardId == cardId && right.methodCardId == cardId
    && left.classification == "D0_PUBLIC" && right.classification == "D0_PUBLIC"
  }

  predicate InBounds(policy: Policy, o: Observation) {
    o.score.Some? && policy.scoreMin <= o.score.value <= policy.scoreMax
  }

  predicate PairClean(policy: Policy, cardId: string, left: Observation, right: Observation) {
    && PairBound(policy, cardId, left, right)
    && InBounds(policy, left) && InBounds(policy, right)
    && left.writeCount == 0 && right.writeCount == 0
  }

  /** State of the loop after some cases: stopped with a rejection, or still collecting. */
  datatype Progress =
    | Stopped(report: Report)
    | Collecting(deltas: seq<int>, poisoned: bool, negative: bool)

  function Progressed(
    policy: Policy, cardId: string, controls: map<string, Observation>,
    treatments: map<string, Observation>, n: nat): Progress
    requires n <= |policy.caseIds|
    requires forall c | c in policy.caseIds :: c in controls && c in treatments
  {
    if n == 0 then Collecting([], false, false)
    else
      match Progressed(policy, cardId, controls, treatments, n - 1)
      case Stopped(report) => Stopped(report)
      case Collecting(deltas, poisoned, negative) =>
        var left, right := controls[policy.caseIds[n - 1]], treatments[policy.caseIds[n - 1]];
        if !PairBound(policy, cardId, left, right) then
          Stopped(ReportOf(RejectedConfound, deltas, PairBindingMismatch))
        else if !InBounds(policy, left) || !InBounds(policy, right) then
          Stopped(ReportOf(RejectedBoundary, deltas, ScoreBoundary))
        else if left.writeCount != 0 || right.writeCount != 0 then
          Stopped(ReportOf(RejectedBoundary, deltas, RecipientWriteAttempt))
        else
          Collecting(deltas + [right.score.value - left.score.value],
                     poisoned || left.poisonPresent || right.poisonPresent,
                     negative || right.negativeTransfer)
  }

  /** The end of the evaluation, once the loop is through. */
  function Verdict(p: Progress): Report {
    match p
    case Stopped(report) => report
    case Collecting(deltas, poisoned, negative) =>
      if poisoned then ReportOf(RejectedPoisonedMemory, deltas, PoisonPresent)
      else if negative || exists i :: 0 <= i < |deltas| && deltas[i] < 0 then
        ReportOf(Status.NegativeTransfer, deltas, NegativeTransferSeen)
      else if deltas != [] && Low(deltas) <= 0 then ReportOf(NotEstablished, deltas, IntervalIncludesZero)
      else ReportOf(PositiveShadowEffectNotAdopted, deltas, NoReason)
  }

  function Evaluation(
    policy: Policy, cardId: string, control: seq<Observation>, treatment: seq<Observation>): Report
    requires policy.caseIds != []
  {
    if !CaseSetsAgree(policy, control, treatment) then
      ReportOf(RejectedConfound, [], CaseSetMismatch)
    else
      AgreedKeys(policy, control, treatment);
      Verdict(Progressed(policy, cardId, ByCase(control), ByCase(treatment), |policy.caseIds|))
  }

  lemma AgreedKeys(policy: Policy, control: seq<Observation>, treatment: seq<Observation>)
    requires CaseSetsAgree(policy, control, treatment)
    ensures forall c | c in policy.caseIds :: c in ByCase(control) && c in ByCase(treatment)
  {
    forall c | c in policy.caseIds ensures c in ByCase(control) && c in ByCase(treatment) {
      assert c in Elements(policy.caseIds);
    }
  }

  /** The loop as written. A loaded policy has distinct cases and at least one of them. */
  method EvaluateRecipientShadow(
    policy: Policy, cardId: string, control: seq<Observation>, treatment: seq<Observation>)
    returns (report: Report)
    requires policy.caseIds != []
    ensures report == Evaluation(policy, cardId, control, treatment)
  {
    hide PairBound, ByCase, FloorMean, Low, High, CaseSetsAgree, ReportOf;
    var controls, treatments := ByCase(control), ByCase(treatment);
    if !CaseSetsAgree(policy, control, treatment) {
      return ReportOf(RejectedConfound, [], CaseSetMismatch);
    }
    AgreedKeys(policy, control, treatment);
    var deltas: seq<int> := [];
    var poisoned, negative := false, false;
    for i := 0 to |policy.caseIds|
      invariant Progressed(policy, cardId, controls, treatments, i)
             == Collecting(deltas, poisoned, negative)
    {
      var left, right := controls[policy.caseIds[i]], treatments[policy.caseIds[i]];
      if !PairBound(policy, cardId, left, right) {
        StopIsFinal(policy, cardId, controls, treatments, i + 1, |policy.caseIds|);
        return ReportOf(RejectedConfound, deltas, PairBindingMismatch);
      }
      if !InBounds(policy, left) || !InBounds(policy, right) {
        StopIsFinal(policy, cardId, controls, treatments, i + 1, |policy.caseIds|);
        return ReportOf(RejectedBoundary, deltas, ScoreBoundary);
      }
      if left.writeCount != 0 || right.writeCount != 0 {
        StopIsFinal(policy, cardId, controls, treatments, i + 1, |policy.caseIds|);
        return ReportOf(RejectedBoundary, deltas, RecipientWriteAttempt);
      }
      poisoned := poisoned || left.poisonPresent || right.poisonPresent;
      negative := negative || right.negativeTransfer;
      deltas := deltas + [right.score.value - left.score.value];
    }
    if poisoned {
      return ReportOf(RejectedPoisonedMemory, deltas, PoisonPresent);
    }
    if negative || exists i :: 0 <= i < |deltas| && deltas[i] < 0 {
      return ReportOf(Status.NegativeTransfer, deltas, NegativeTransferSeen);
    }
    if deltas != [] && Low(deltas) <= 0 {
      return ReportOf(NotEstablished, deltas, IntervalIncludesZero);
    }
    return ReportOf(PositiveShadowEffectNotAdopted, deltas, NoReason);
  }

  lemma {:induction false} StopIsFinal(
    policy: Policy, cardId: string, controls: map<string, Observation>,
    treatments: map<string, Observation>, m: nat, n: nat)
    requires m <= n <= |policy.caseIds|
    requires forall c | c in policy.caseIds :: c in controls && c in treatments
    requires Progressed(policy, cardId, controls, treatments, m).Stopped?
    ensures Progressed(policy, cardId, controls, treatments, n)
         == Progressed(policy, cardId, controls, treatments, m)
    decreases n
  {
    hide PairBound, InBounds, ReportOf;
    if m < n { StopIsFinal(policy, cardId, controls, treatments, m, n - 1); }
  }

  // ---------------------------------------------------------------- what a positive result means

  /** A clean pair with no poison, no negative flag and a strictly better treatment score. */
  ghost predicate PairPositive(policy: Policy, cardId: string, left: Observation, right: Observation) {
    && PairClean(policy, cardId, left, right)
    && !left.poisonPresent && !right.poisonPresent && !right.negativeTransfer
    && left.score.value < right.score.value
  }

  ghost predicate CleanAt(
    policy: Policy, cardId: string, controls: map<string, Observation>,
    treatments: map<string, Observation>, c: string)
  {
    c in controls && c in treatments && PairClean(policy, cardId, controls[c], treatments[c])
  }

  ghost predicate PositiveAt(
    policy: Policy, cardId: string, controls: map<string, Observation>,
    treatments: map<string, Observation>, c: string)
  {
    c in controls && c in treatments && PairPositive(policy, cardId, controls[c], treatments[c])
  }

  /** The loop collects exactly as long as every pair is clean, and stops with a rejection. */
  lemma {:induction false} CollectsWhileClean(
    policy: Policy, cardId: string, controls: map<string, Observation>,
    treatments: map<string, Observation>, n: nat)
    requires n <= |policy.caseIds|
    requires forall c | c in policy.caseIds :: c in controls && c in treatments
    ensures var p := Progressed(policy, cardId, controls, treatments, n);
      && (p.Collecting? <==>
            forall i | 0 <= i < n :: CleanAt(policy, cardId, controls, treatments, policy.caseIds[i]))
      && (p.Stopped? ==> !p.report.status.PositiveShadowEffectNotAdopted?)
      && (p.Collecting? ==> |p.deltas| == n)
  {
    hide PairBound, InBounds, FloorMean, Low, High;
    if n > 0 {
      CollectsWhileClean(policy, cardId, controls, treatments, n - 1);
    }
  }

  /** No poison, no negative flag and only positive deltas so far: every pair so far is positive. */
  lemma {:induction false} CollectsPositive(
    policy: Policy, cardId: string, controls: map<string, Observation>,
    treatments: map<string, Observation>, n: nat)
    requires n <= |policy.caseIds|
    requires forall c | c in policy.caseIds :: c in controls && c in treatments
    requires Progressed(policy, cardId, controls, treatments, n).Collecting?
    ensures var p := Progressed(policy, cardId, controls, treatments, n);
      (!p.poisoned && !p.negative && forall i | 0 <= i < |p.deltas| :: p.deltas[i] > 0)
      <==> forall i | 0 <= i < n :: PositiveAt(policy, cardId, controls, treatments, policy.caseIds[i])
  {
    hide PairBound, ReportOf, PositiveAt;
    if n > 0 {
      CollectsPositive(policy, cardId, controls, treatments, n - 1);
      var p, q := Progressed(policy, cardId, controls, treatments, n - 1),
                  Progressed(policy, cardId, controls, treatments, n);
      var c := policy.caseIds[n - 1];
      var delta := treatments[c].score.value - controls[c].score.value;
      assert q == Collecting(p.deltas + [delta],
        p.poisoned || controls[c].poisonPresent || treatments[c].poisonPresent,
        p.negative || treatments[c].negativeTransfer);
      assert (forall i | 0 <= i < |q.deltas| :: q.deltas[i] > 0)
        <==> (forall i | 0 <= i < |p.deltas| :: p.deltas[i] > 0) && delta > 0 by {
        assert forall i | 0 <= i < |p.deltas| :: q.deltas[i] == p.deltas[i];
        assert q.deltas[|p.deltas|] == delta;
      }
      assert CleanAt(policy, cardId, controls, treatments, c);
      CleanIsPositive(policy, cardId, controls, treatments, c);
    }
  }

  lemma CleanIsPositive(
    policy: Policy, cardId: string, controls: map<string, Observation>,
    treatments: map<string, Observation>, c: string)
    requires CleanAt(policy, cardId, controls, treatments, c)
    ensures PositiveAt(policy, cardId, controls, treatments, c) <==>
      (!controls[c].poisonPresent && !treatments[c].poisonPresent && !treatments[c].negativeTransfer
       && treatments[c].score.value - controls[c].score.value > 0)
  {
  }

  /** A positive status holds exactly when the case sets agree and every pair is positive. */
  lemma PositiveExactly(
    policy: Policy, cardId: string, control: seq<Observation>, treatment: seq<Observation>)
    requires policy.caseIds != []
    ensures
      Evaluation(policy, cardId, control, treatment).status.PositiveShadowEffectNotAdopted?
      <==> (CaseSetsAgree(policy, control, treatment)
            && forall c | c in policy.caseIds ::
                 PositiveAt(policy, cardId, ByCase(control), ByCase(treatment), c))
  {
    hide PositiveAt, CleanAt, ByCase, Progressed, FloorMean;
    if CaseSetsAgree(policy, control, treatment) {
      AgreedKeys(policy, control, treatment);
      var controls, treatments := ByCase(control), ByCase(treatment);
      var n := |policy.caseIds|;
      CollectsWhileClean(policy, cardId, controls, treatments, n);
      var p := Progressed(policy, cardId, controls, treatments, n);
      if p.Collecting? {
        CollectsPositive(policy, cardId, controls, treatments, n);
        Extremes(p.deltas);
        LowDecides(p.deltas);
        assert (forall c | c in policy.caseIds :: PositiveAt(policy, cardId, controls, treatments, c))
          <==> forall i | 0 <= i < n ::
                 PositiveAt(policy, cardId, controls, treatments, policy.caseIds[i]);
      } else {
        var i :| 0 <= i < n && !CleanAt(policy, cardId, controls, treatments, policy.caseIds[i]);
        NotCleanNotPositive(policy, cardId, controls, treatments, policy.caseIds[i]);
        assert policy.caseIds[i] in policy.caseIds;
        assert Evaluation(policy, cardId, control, treatment) == p.report;
      }
    }
  }

  lemma LowDecides(deltas: seq<int>)
    requires deltas != []
    ensures (forall i | 0 <= i < |deltas| :: deltas[i] > 0) <==> Low(deltas) > 0
  {
    hide Low;
    Extremes(deltas);
    assert forall i | 0 <= i < |deltas| :: deltas[i] in deltas;
  }

  lemma NotCleanNotPositive(
    policy: Policy, cardId: string, controls: map<string, Observation>,
    treatments: map<string, Observation>, c: string)
    requires !CleanAt(policy, cardId, controls, treatments, c)
    ensures !PositiveAt(policy, cardId, controls, treatments, c)
  {
  }

  // ---------------------------------------------------------------- every verdict

  /** What the pair of one case is rejected for, in the order the checks are made. */
  ghost predicate Unbound(policy: Policy, cardId: string, left: Observation, right: Observation) {
    || left.arm != "CONTROL" || right.arm != "TREATMENT"
    || left.benchmarkSha != policy.caseSetSha || right.benchmarkSha != policy.caseSetSha
    || left.snapshotSha != right.snapshotSha || left.contextSha != right.contextSha
    || left.methodCardId != cardId || right.methodCardId != cardId
    || left.classification != "D0_PUBLIC" || right.classification != "D0_PUBLIC"
  }

  ghost predicate OutOfBounds(policy: Policy, o: Observation) {
    o.score.None? || o.score.value < policy.scoreMin || policy.scoreMax < o.score.value
  }

  /** Case i is the first with a fault, and the report names its first fault. */
  ghost predicate FirstFault(
    policy: Policy, cardId: string, controls: map<string, Observation>,
    treatments: map<string, Observation>, i: nat, report: Report)
    requires i < |policy.caseIds|
    requires forall c | c in policy.caseIds :: c in controls && c in treatments
  {
    var c := policy.caseIds[i];
    var left, right := controls[c], treatments[c];
    && report.pairedCases == i
    && if Unbound(policy, cardId, left, right) then
         report.status == RejectedConfound && report.reason == PairBindingMismatch
       else if OutOfBounds(policy, left) || OutOfBounds(policy, right) then
         report.status == RejectedBoundary && report.reason == ScoreBoundary
       else
         && (left.writeCount != 0 || right.writeCount != 0)
         && report.status == RejectedBoundary && report.reason == RecipientWriteAttempt
  }

  function ScoreOf(observations: map<string, Observation>, c: string): int {
    if c in observations && observations[c].score.Some? then observations[c].score.value else 0
  }

  /** The scores of the first n cases together. */
  function ScoreSum(policy: Policy, observations: map<string, Observation>, n: nat): int
    requires n <= |policy.caseIds|
  {
    if n == 0 then 0
    else ScoreSum(policy, observations, n - 1) + ScoreOf(observations, policy.caseIds[n - 1])
  }

  ghost predicate Poisoned(
    policy: Policy, controls: map<string, Observation>, treatments: map<string, Observation>, n: nat)
    requires n <= |policy.caseIds|
    requires forall c | c in policy.caseIds :: c in controls && c in treatments
  {
    exists i :: 0 <= i < n && PoisonAt(controls, treatments, policy.caseIds[i])
  }

  predicate PoisonAt(
    controls: map<string, Observation>, treatments: map<string, Observation>, c: string)
    requires c in controls && c in treatments
  {
    controls[c].poisonPresent || treatments[c].poisonPresent
  }

  ghost predicate Flagged(policy: Policy, treatments: map<string, Observation>, n: nat)
    requires n <= |policy.caseIds|
    requires forall c | c in policy.caseIds :: c in treatments
  {
    exists i :: 0 <= i < n && treatments[policy.caseIds[i]].negativeTransfer
  }

  ghost predicate Differences(
    policy: Policy, controls: map<string, Observation>, treatments: map<string, Observation>,
    deltas: seq<int>)
    requires |deltas| <= |policy.caseIds|
  {
    forall i | 0 <= i < |deltas| ::
      deltas[i] == ScoreOf(treatments, policy.caseIds[i]) - ScoreOf(controls, policy.caseIds[i])
  }

  /** Some case before n has the first fault, and the report names it. */
  ghost predicate FaultBefore(
    policy: Policy, cardId: string, controls: map<string, Observation>,
    treatments: map<string, Observation>, n: nat, report: Report)
    requires n <= |policy.caseIds|
    requires forall c | c in policy.caseIds :: c in controls && c in treatments
  {
    exists i :: 0 <= i < n && FirstFault(policy, cardId, controls, treatments, i, report)
      && forall j | 0 <= j < i :: CleanAt(policy, cardId, controls, treatments, policy.caseIds[j])
  }

  /** One more case, from a state that still collects. */
  lemma CollectStep(
    policy: Policy, cardId: string, controls: map<string, Observation>,
    treatments: map<string, Observation>, n: nat)
    requires 0 < n <= |policy.caseIds|
    requires forall c | c in policy.caseIds :: c in controls && c in treatments
    requires Progressed(policy, cardId, controls, treatments, n - 1).Collecting?
    ensures var p, q := Progressed(policy, cardId, controls, treatments, n - 1),
                        Progressed(policy, cardId, controls, treatments, n);
      var c := policy.caseIds[n - 1];
      && (q.Collecting? ==> q == Collecting(
            p.deltas + [ScoreOf(treatments, c) - ScoreOf(controls, c)],
            p.poisoned || PoisonAt(controls, treatments, c),
            p.negative || treatments[c].negativeTransfer))
      && (q.Stopped? && |p.deltas| == n - 1 ==>
            FirstFault(policy, cardId, controls, treatments, n - 1, q.report))
  {
    hide FloorMean, Low, High, CleanAt;
  }

  /** A collecting state holds the differences of n cases, their sum, and the flags. */
  ghost predicate Holds(
    policy: Policy, controls: map<string, Observation>, treatments: map<string, Observation>,
    n: nat, p: Progress)
    requires n <= |policy.caseIds| && p.Collecting?
    requires forall c | c in policy.caseIds :: c in controls && c in treatments
  {
    && |p.deltas| == n && Differences(policy, controls, treatments, p.deltas)
    && Sum(p.deltas) == ScoreSum(policy, treatments, n) - ScoreSum(policy, controls, n)
    && (p.poisoned <==> Poisoned(policy, controls, treatments, n))
    && (p.negative <==> Flagged(policy, treatments, n))
  }

  lemma HoldsOnward(
    policy: Policy, controls: map<string, Observation>, treatments: map<string, Observation>,
    n: nat, p: Progress, q: Progress)
    requires 0 < n <= |policy.caseIds| && p.Collecting?
    requires forall c | c in policy.caseIds :: c in controls && c in treatments
    requires Holds(policy, controls, treatments, n - 1, p)
    requires var c := policy.caseIds[n - 1];
      q == Collecting(p.deltas + [ScoreOf(treatments, c) - ScoreOf(controls, c)],
                      p.poisoned || PoisonAt(controls, treatments, c),
                      p.negative || treatments[c].negativeTransfer)
    ensures Holds(policy, controls, treatments, n, q)
  {
    hide PoisonAt, ScoreOf;
    assert q.deltas[..n - 1] == p.deltas;
    assert forall i | 0 <= i < n - 1 :: q.deltas[i] == p.deltas[i];
    var c := policy.caseIds[n - 1];
    if PoisonAt(controls, treatments, c) { assert Poisoned(policy, controls, treatments, n); }
    if treatments[c].negativeTransfer { assert Flagged(policy, treatments, n); }
  }

  /** What the loop has collected, or the fault it stopped at. */
  lemma {:induction false} Collected(
    policy: Policy, cardId: string, controls: map<string, Observation>,
    treatments: map<string, Observation>, n: nat)
    requires n <= |policy.caseIds|
    requires forall c | c in policy.caseIds :: c in controls && c in treatments
    ensures var p := Progressed(policy, cardId, controls, treatments, n);
      && (p.Collecting? ==> Holds(policy, controls, treatments, n, p))
      && (p.Stopped? ==> FaultBefore(policy, cardId, controls, treatments, n, p.report))
  {
    if n == 0 {
      NothingHeld(policy, cardId, controls, treatments);
    } else {
      hide Progressed, Holds, FaultBefore;
      Collected(policy, cardId, controls, treatments, n - 1);
      CollectedOnward(policy, cardId, controls, treatments, n);
    }
  }

  lemma CollectedOnward(
    policy: Policy, cardId: string, controls: map<string, Observation>,
    treatments: map<string, Observation>, n: nat)
    requires 0 < n <= |policy.caseIds|
    requires forall c | c in policy.caseIds :: c in controls && c in treatments
    requires var p := Progressed(policy, cardId, controls, treatments, n - 1);
      && (p.Collecting? ==> Holds(policy, controls, treatments, n - 1, p))
      && (p.Stopped? ==> FaultBefore(policy, cardId, controls, treatments, n - 1, p.report))
    ensures var p := Progressed(policy, cardId, controls, treatments, n);
      && (p.Collecting? ==> Holds(policy, controls, treatments, n, p))
      && (p.Stopped? ==> FaultBefore(policy, cardId, controls, treatments, n, p.report))
  {
    hide Progressed, FirstFault, CleanAt, PoisonAt, ScoreOf, Holds;
    var p, q := Progressed(policy, cardId, controls, treatments, n - 1),
                Progressed(policy, cardId, controls, treatments, n);
    if p.Stopped? {
      StopIsFinal(policy, cardId, controls, treatments, n - 1, n);
      FaultStays(policy, cardId, controls, treatments, n, p.report);
    } else {
      CollectsWhileClean(policy, cardId, controls, treatments, n - 1);
      CollectStep(policy, cardId, controls, treatments, n);
      if q.Collecting? {
        HoldsOnward(policy, controls, treatments, n, p, q);
      } else {
        DeltaCount(policy, controls, treatments, n - 1, p);
      }
    }
  }

  lemma DeltaCount(
    policy: Policy, controls: map<string, Observation>, treatments: map<string, Observation>,
    n: nat, p: Progress)
    requires n <= |policy.caseIds| && p.Collecting?
    requires forall c | c in policy.caseIds :: c in controls && c in treatments
    requires Holds(policy, controls, treatments, n, p)
    ensures |p.deltas| == n
  {
  }

  lemma NothingHeld(
    policy: Policy, cardId: string, controls: map<string, Observation>,
    treatments: map<string, Observation>)
    requires forall c | c in policy.caseIds :: c in controls && c in treatments
    ensures var p := Progressed(policy, cardId, controls, treatments, 0);
      p.Collecting? && Holds(policy, controls, treatments, 0, p)
  {
  }

  lemma FaultStays(
    policy: Policy, cardId: string, controls: map<string, Observation>,
    treatments: map<string, Observation>, n: nat, report: Report)
    requires 0 < n <= |policy.caseIds|
    requires forall c | c in policy.caseIds :: c in controls && c in treatments
    requires FaultBefore(policy, cardId, controls, treatments, n - 1, report)
    ensures FaultBefore(policy, cardId, controls, treatments, n, report)
  {
  }

  lemma MeanIsFloor(deltas: seq<int>)
    requires deltas != []
    ensures FloorMean(deltas) * |deltas| <= Sum(deltas) < (FloorMean(deltas) + 1) * |deltas|
  {
    var n, m := |deltas|, FloorMean(deltas);
    assert Sum(deltas) == n * m + Sum(deltas) % n;
    assert (m + 1) * n == n * m + n;
  }

  /** The verdict on an evaluation, from the observations alone. */
  ghost predicate Judged(
    policy: Policy, cardId: string, controls: map<string, Observation>,
    treatments: map<string, Observation>, report: Report)
    requires policy.caseIds != []
    requires forall c | c in policy.caseIds :: c in controls && c in treatments
  {
    var n := |policy.caseIds|;
    if exists i :: 0 <= i < n && !CleanAt(policy, cardId, controls, treatments, policy.caseIds[i]) then
      FaultBefore(policy, cardId, controls, treatments, n, report)
    else
      var total := ScoreSum(policy, treatments, n) - ScoreSum(policy, controls, n);
      && report.pairedCases == n
      && report.mean * n <= total < (report.mean + 1) * n
      && (if exists c :: c in policy.caseIds && PoisonAt(controls, treatments, c)
          then report.status == RejectedPoisonedMemory && report.reason == PoisonPresent
          else if exists c :: c in policy.caseIds
                    && (treatments[c].negativeTransfer || ScoreOf(treatments, c) < ScoreOf(controls, c))
          then report.status == Status.NegativeTransfer && report.reason == NegativeTransferSeen
          else if exists c :: c in policy.caseIds && ScoreOf(treatments, c) == ScoreOf(controls, c)
          then report.status == NotEstablished && report.reason == IntervalIncludesZero
          else report.status == PositiveShadowEffectNotAdopted && report.reason == NoReason)
  }

  /** What every report says of the method: only a positive one lets it stay. */
  ghost predicate Consequent(report: Report) {
    && report.reusableFailure == (report.status != PositiveShadowEffectNotAdopted)
    && report.rollbackAction ==
         if report.reusableFailure then "REMOVE_METHOD_FROM_RECIPIENT_SHADOW" else "NONE"
  }

  /** The report is decided by the case sets, the first fault, and then by the flags and scores. */
  lemma VerdictExactly(
    policy: Policy, cardId: string, control: seq<Observation>, treatment: seq<Observation>)
    requires policy.caseIds != []
    ensures var report := Evaluation(policy, cardId, control, treatment);
      && Consequent(report)
      && if CaseSetsAgree(policy, control, treatment) then
           && (forall c | c in policy.caseIds :: c in ByCase(control) && c in ByCase(treatment))
           && Judged(policy, cardId, ByCase(control), ByCase(treatment), report)
         else
           report.status == RejectedConfound && report.reason == CaseSetMismatch
             && report.pairedCases == 0 && report.mean == 0
  {
    hide ByCase, CaseSetsAgree, Judged;
    if CaseSetsAgree(policy, control, treatment) {
      AgreedKeys(policy, control, treatment);
      var controls, treatments, n := ByCase(control), ByCase(treatment), |policy.caseIds|;
      Collected(policy, cardId, controls, treatments, n);
      CollectsWhileClean(policy, cardId, controls, treatments, n);
      StoppedConsequent(policy, cardId, controls, treatments, n);
      JudgedByProgress(policy, cardId, controls, treatments);
    }
  }

  lemma {:induction false} StoppedConsequent(
    policy: Policy, cardId: string, controls: map<string, Observation>,
    treatments: map<string, Observation>, n: nat)
    requires n <= |policy.caseIds|
    requires forall c | c in policy.caseIds :: c in controls && c in treatments
    ensures var p := Progressed(policy, cardId, controls, treatments, n);
      p.Stopped? ==> Consequent(p.report)
  {
    hide PairBound, InBounds, FloorMean, Low, High;
    if n > 0 { StoppedConsequent(policy, cardId, controls, treatments, n - 1); }
  }

  lemma JudgedByProgress(
    policy: Policy, cardId: string, controls: map<string, Observation>,
    treatments: map<string, Observation>)
    requires policy.caseIds != []
    requires forall c | c in policy.caseIds :: c in controls && c in treatments
    ensures Judged(policy, cardId, controls, treatments,
      Verdict(Progressed(policy, cardId, controls, treatments, |policy.caseIds|)))
  {
    hide Progressed, FaultBefore, CleanAt, Low, High, FloorMean, Sum, Flagged, Poisoned, PoisonAt;
    var n := |policy.caseIds|;
    Collected(policy, cardId, controls, treatments, n);
    CollectsWhileClean(policy, cardId, controls, treatments, n);
    var p := Progressed(policy, cardId, controls, treatments, n);
    if p.Collecting? {
      MeanIsFloor(p.deltas);
      LowDecides(p.deltas);
      ByPosition(policy, controls, treatments, p);
    }
  }

  lemma ByPosition(
    policy: Policy, controls: map<string, Observation>, treatments: map<string, Observation>,
    p: Progress)
    requires p.Collecting? && |p.deltas| == |policy.caseIds|
    requires forall c | c in policy.caseIds :: c in controls && c in treatments
    requires Differences(policy, controls, treatments, p.deltas)
    ensures (exists i :: 0 <= i < |p.deltas| && p.deltas[i] < 0) <==>
      exists c :: c in policy.caseIds && ScoreOf(treatments, c) < ScoreOf(controls, c)
    ensures (forall i | 0 <= i < |p.deltas| :: p.deltas[i] > 0) <==>
      forall c | c in policy.caseIds :: ScoreOf(treatments, c) > ScoreOf(controls, c)
    ensures Flagged(policy, treatments, |policy.caseIds|) <==>
      exists c :: c in policy.caseIds && treatments[c].negativeTransfer
    ensures Poisoned(policy, controls, treatments, |policy.caseIds|) <==>
      exists c :: c in policy.caseIds && PoisonAt(controls, treatments, c)
  {
    assert forall i | 0 <= i < |p.deltas| :: policy.caseIds[i] in policy.caseIds;
    if c :| c in policy.caseIds && ScoreOf(treatments, c) < ScoreOf(controls, c) {
      var i :| 0 <= i < |policy.caseIds| && policy.caseIds[i] == c;
      assert p.deltas[i] < 0;
    }
    forall c | c in policy.caseIds && forall i | 0 <= i < |p.deltas| :: p.deltas[i] > 0
      ensures ScoreOf(treatments, c) > ScoreOf(controls, c)
    {
      var i :| 0 <= i < |policy.caseIds| && policy.caseIds[i] == c;
      assert p.deltas[i] > 0;
    }
  }

  // ---------------------------------------------------------------- order does not matter

  ghost predicate DistinctCases(observations: seq<Observation>) {
    forall i, j | 0 <= i < j < |observations| :: observations[i].caseId != observations[j].caseId
  }

  lemma {:induction false} ByCaseKeys(observations: seq<Observation>)
    ensures ByCase(observations).Keys == set o | o in observations :: o.caseId
  {
    if observations != [] {
      var n := |observations| - 1;
      ByCaseKeys(observations[..n]);
      assert observations == observations[..n] + [observations[n]];
    }
  }

  /** The dictionary is as large as the list exactly when no case is observed twice. */
  lemma {:induction false} ByCaseSize(observations: seq<Observation>)
    ensures |ByCase(observations).Keys| <= |observations|
    ensures |ByCase(observations).Keys| == |observations| <==> DistinctCases(observations)
  {
    if observations != [] {
      var n := |observations| - 1;
      var rest, last := observations[..n], observations[n];
      ByCaseSize(rest);
      ByCaseKeys(rest);
      assert ByCase(observations).Keys == ByCase(rest).Keys + {last.caseId};
      LastCase(observations);
    }
  }

  lemma LastCase(observations: seq<Observation>)
    requires observations != []
    ensures var rest, last := observations[..|observations| - 1], observations[|observations| - 1];
      DistinctCases(observations) <==>
        DistinctCases(rest) && last.caseId !in (set o | o in rest :: o.caseId)
  {
    var n := |observations| - 1;
    var rest, last := observations[..n], observations[n];
    if last.caseId in (set o | o in rest :: o.caseId) {
      var o :| o in rest && o.caseId == last.caseId;
      var i :| 0 <= i < n && rest[i] == o;
      assert observations[i].caseId == observations[n].caseId;
    } else {
      assert forall i | 0 <= i < n :: observations[i] in rest;
    }
  }

  lemma {:induction false} ByCaseHolds(observations: seq<Observation>, o: Observation)
    requires DistinctCases(observations) && o in observations
    ensures o.caseId in ByCase(observations) && ByCase(observations)[o.caseId] == o
  {
    var n := |observations| - 1;
    var rest, last := observations[..n], observations[n];
    if o != last {
      assert observations == rest + [last];
      ByCaseHolds(rest, o);
      var i :| 0 <= i < n && observations[i] == o;
    }
  }

  lemma SameElements(a: seq<Observation>, b: seq<Observation>)
    requires multiset(a) == multiset(b)
    ensures |a| == |b| && forall o :: o in a <==> o in b
  {
    assert |a| == |multiset(a)| == |multiset(b)| == |b|;
    forall o ensures o in a <==> o in b {
      assert o in a <==> o in multiset(a);
      assert o in b <==> o in multiset(b);
    }
  }

  lemma PermutedCases(a: seq<Observation>, b: seq<Observation>)
    requires multiset(a) == multiset(b)
    ensures |a| == |b| && ByCase(a).Keys == ByCase(b).Keys
    ensures |ByCase(a).Keys| == |a| ==> ByCase(a) == ByCase(b)
  {
    hide ByCase, DistinctCases;
    SameElements(a, b);
    ByCaseKeys(a);
    ByCaseKeys(b);
    ByCaseSize(a);
    ByCaseSize(b);
    if |ByCase(a).Keys| == |a| {
      forall c | c in ByCase(a).Keys ensures ByCase(a)[c] == ByCase(b)[c] {
        var o :| o in a && o.caseId == c;
        ByCaseHolds(a, o);
        ByCaseHolds(b, o);
      }
    }
  }

  /** The whole report is the same however either list of observations is ordered. */
  lemma OrderDoesNotMatter(
    policy: Policy, cardId: string, control: seq<Observation>, treatment: seq<Observation>,
    control': seq<Observation>, treatment': seq<Observation>)
    requires policy.caseIds != []
    requires multiset(control) == multiset(control') && multiset(treatment) == multiset(treatment')
    ensures Evaluation(policy, cardId, control, treatment)
         == Evaluation(policy, cardId, control', treatment')
  {
    hide Progressed, ByCase;
    PermutedCases(control, control');
    PermutedCases(treatment, treatment');
  }
}
