/** Workload buckets of an accepted closeout: exact tiling of the window and conservation. */
module ObservationWorkload {
  import opened Text
  import opened ObservationDocuments
  import opened ObservationHistory

  /** `instant` lies in the half-open interval of bucket `i`. */
  predicate InBucket(p: CloseoutPayload, i: nat, instant: int)
    requires i < |p.buckets|
  {
    p.buckets[i].startedAt.at <= instant < p.buckets[i].endedAt.at
  }

  ghost predicate InWindow(p: CloseoutPayload, instant: int) {
    p.startedAt.at <= instant < p.endedAt.at
  }

  ghost predicate Covered(p: CloseoutPayload, instant: int) {
    exists i: nat :: i < |p.buckets| && InBucket(p, i, instant)
  }

  lemma QuotientIsUnique(d: int, w: int, q: int)
    requires 0 < w && 0 <= q && q * w <= d < q * w + w
    ensures d / w == q
  {
    var r := d - q * w;
    assert d == w * q + r && 0 <= r < w;
    assert d == w * (d / w) + d % w;
    if d / w < q {
      assert w * (d / w) <= w * (q - 1) by { ProductMonotone(w, d / w, q - 1); }
    } else if d / w > q {
      assert w * (q + 1) <= w * (d / w) by { ProductMonotone(w, q + 1, d / w); }
    }
  }

  lemma ProductMonotone(w: int, a: int, b: int)
    requires 0 <= w && a <= b
    ensures w * a <= w * b
  {
  }

  /** Which bucket an instant belongs to, from the chronology alone. */
  lemma BucketOf(p: CloseoutPayload, rule: Rule, baseline: Counters, i: nat, instant: int)
    requires RuleOk(rule) && CountersOk(p.counters) && CountersOk(baseline)
    requires BucketsOk(p, rule, baseline) && i < |p.buckets|
    ensures p.startedAt.at <= instant ==>
      (InBucket(p, i, instant) <==>
        (instant - p.startedAt.at) / (rule.bucketSeconds * MICROS) == i)
  {
    hide RuleOk, CountersOk, TallyOf;
    RuleDuration(rule);
    assert BucketOk(p.buckets[i], i, p.startedAt.at, rule.bucketSeconds);
    var w := rule.bucketSeconds * MICROS;
    var d := instant - p.startedAt.at;
    assert i * rule.bucketSeconds * MICROS == i * w;
    assert d == w * (d / w) + d % w;
    if InBucket(p, i, instant) {
      QuotientIsUnique(d, w, i);
    }
  }

  /** Every instant of [start, end) lies in exactly one bucket, and no bucket leaves the window. */
  lemma BucketsTileTheWindow(p: CloseoutPayload, rule: Rule, baseline: Counters)
    requires RuleOk(rule) && CountersOk(p.counters) && CountersOk(baseline)
    requires BucketsOk(p, rule, baseline)
    requires p.endedAt.at - p.startedAt.at == rule.durationSeconds * MICROS
    ensures forall instant :: InWindow(p, instant) <==> Covered(p, instant)
    ensures forall instant, i: nat, j: nat |
      i < |p.buckets| && j < |p.buckets| && InBucket(p, i, instant) && InBucket(p, j, instant) ::
      i == j
  {
    hide RuleOk, CountersOk, BucketsOk, TallyOf;
    RuleDuration(rule);
    BucketCount(p, rule, baseline);
    var w := rule.bucketSeconds * MICROS;
    assert |p.buckets| * w == rule.durationSeconds * MICROS;
    forall instant | InWindow(p, instant) ensures Covered(p, instant) {
      var i := InstantIndex(instant - p.startedAt.at, w, |p.buckets|);
      BucketOf(p, rule, baseline, i, instant);
    }
    forall i: nat, instant | i < |p.buckets| && InBucket(p, i, instant)
      ensures InWindow(p, instant)
      ensures (instant - p.startedAt.at) / w == i
    {
      BucketBounds(p, rule, baseline, i);
      BucketOf(p, rule, baseline, i, instant);
    }
  }

  lemma BucketCount(p: CloseoutPayload, rule: Rule, baseline: Counters)
    requires RuleOk(rule) && CountersOk(p.counters) && CountersOk(baseline)
    requires BucketsOk(p, rule, baseline)
    ensures |p.buckets| == rule.durationSeconds / rule.bucketSeconds
  {
  }

  lemma BucketBounds(p: CloseoutPayload, rule: Rule, baseline: Counters, i: nat)
    requires RuleOk(rule) && CountersOk(p.counters) && CountersOk(baseline)
    requires BucketsOk(p, rule, baseline) && i < |p.buckets|
    ensures p.startedAt.at <= p.buckets[i].startedAt.at
    ensures p.buckets[i].endedAt.at <= p.startedAt.at + |p.buckets| * (rule.bucketSeconds * MICROS)
  {
    hide RuleOk, CountersOk, TallyOf;
    RuleDuration(rule);
    assert BucketOk(p.buckets[i], i, p.startedAt.at, rule.bucketSeconds);
    var w := rule.bucketSeconds * MICROS;
    assert i * rule.bucketSeconds * MICROS == i * w;
    ProductMonotone(w, i + 1, |p.buckets|);
  }

  lemma InstantIndex(d: int, w: int, n: nat) returns (i: nat)
    requires 0 < w && 0 <= d < n * w
    ensures i < n && d / w == i
  {
    i := d / w;
    assert d == w * i + d % w;
    if n <= i { ProductMonotone(w, n, i); }
  }

  // ---------------------------------------------------------------- conservation

  function HasJobs(b: Bucket): bool { b.jobs > 0 }
  function HasCycles(b: Bucket): bool { b.cycles > 0 }
  function HasCalls(b: Bucket): bool { b.calls > 0 }

  ghost function Busy(buckets: seq<Bucket>, active: Bucket -> bool): set<nat> {
    set i | 0 <= i < |buckets| && active(buckets[i])
  }

  lemma BusyStep(buckets: seq<Bucket>, active: Bucket -> bool)
    requires buckets != []
    ensures |Busy(buckets, active)|
         == |Busy(buckets[..|buckets| - 1], active)| + One(active(buckets[|buckets| - 1]))
  {
    var n := |buckets| - 1;
    assert Busy(buckets, active)
      == Busy(buckets[..n], active) + (if active(buckets[n]) then {n} else {});
  }

  /** The loop's counters are the true numbers of busy buckets. */
  lemma {:induction false} TallyCounts(buckets: seq<Bucket>)
    ensures TallyOf(buckets).busyJobs == |Busy(buckets, HasJobs)|
    ensures TallyOf(buckets).busyCycles == |Busy(buckets, HasCycles)|
    ensures TallyOf(buckets).busyCalls == |Busy(buckets, HasCalls)|
  {
    if buckets != [] {
      TallyCounts(buckets[..|buckets| - 1]);
      BusyStep(buckets, HasJobs);
      BusyStep(buckets, HasCycles);
      BusyStep(buckets, HasCalls);
    }
  }

  /** With no negative bucket, a zero total means every bucket is zero. */
  lemma {:induction false} ZeroTotal(buckets: seq<Bucket>)
    requires forall i | 0 <= i < |buckets| :: buckets[i].calls >= 0
    ensures TallyOf(buckets).calls >= 0
    ensures TallyOf(buckets).calls == 0 <==> forall i | 0 <= i < |buckets| :: buckets[i].calls == 0
  {
    if buckets != [] {
      var rest := buckets[..|buckets| - 1];
      ZeroTotal(rest);
      assert forall i | 0 <= i < |rest| :: rest[i] == buckets[i];
    }
  }

  /**
   A provider-free window is provider-free everywhere: a zero delta over the whole window forces
   zero new calls in every bucket and at every intermediate checkpoint.
   */
  lemma ProviderFreeEverywhere(
    gate: Gate, policy: Policy, start: Start, checkpoints: seq<Checkpoint>, document: Closeout,
    previousCloseout: Option<Closeout>)
    requires CloseoutOk(gate, policy, start, checkpoints, document, previousCloseout)
    requires document.payload.windowId in policy.windows
    requires policy.windows[document.payload.windowId].providerCallsMustBeZero
    ensures forall i | 0 <= i < |document.payload.buckets| :: document.payload.buckets[i].calls == 0
    ensures CountersOk(start.payload.baseline)
    ensures forall i | 0 <= i < |checkpoints| ::
      && CountersOk(checkpoints[i].payload.counters)
      && checkpoints[i].payload.counters[ProviderCalls] == start.payload.baseline[ProviderCalls]
  {
    hide CloseoutOk, ChainOk, StartOk, RuleOk, PolicyOk, TallyOf;
    CloseoutParts(gate, policy, start, checkpoints, document, previousCloseout);
    ChainIsSafe(gate, policy, start, checkpoints, previousCloseout);
    var p := document.payload;
    forall i | 0 <= i < |p.buckets| ensures p.buckets[i].calls >= 0 {
      assert BucketOk(p.buckets[i], i, p.startedAt.at, policy.windows[p.windowId].bucketSeconds);
    }
    ZeroTotal(p.buckets);
    var last := |checkpoints| - 1;
    forall i | 0 <= i < |checkpoints|
      ensures CountersOk(checkpoints[i].payload.counters)
      ensures checkpoints[i].payload.counters[ProviderCalls] == start.payload.baseline[ProviderCalls]
    {
      assert SafePoint(start, checkpoints[i].payload, i + 1);
      if i < last { assert Extends(checkpoints[i].payload, checkpoints[last].payload); }
    }
  }

  /** Tiling and conservation for an accepted closeout. */
  lemma CloseoutWorkload(
    gate: Gate, policy: Policy, start: Start, checkpoints: seq<Checkpoint>, document: Closeout,
    previousCloseout: Option<Closeout>)
    requires CloseoutOk(gate, policy, start, checkpoints, document, previousCloseout)
    ensures forall instant ::
      start.payload.plannedStart.at <= instant < start.payload.plannedEnd.at
      <==> Covered(document.payload, instant)
    ensures forall instant, i: nat, j: nat |
      i < |document.payload.buckets| && j < |document.payload.buckets|
      && InBucket(document.payload, i, instant) && InBucket(document.payload, j, instant) ::
      i == j
    ensures CountersOk(start.payload.baseline) && CountersOk(document.payload.counters)
    ensures TallyOf(document.payload.buckets).jobs
         == document.payload.counters[BoundedJobs] - start.payload.baseline[BoundedJobs]
    ensures TallyOf(document.payload.buckets).cycles
         == document.payload.counters[ResearchCycles] - start.payload.baseline[ResearchCycles]
    ensures TallyOf(document.payload.buckets).calls
         == document.payload.counters[ProviderCalls] - start.payload.baseline[ProviderCalls]
    ensures document.payload.windowId in policy.windows
    ensures policy.windows[document.payload.windowId].minimumNonzeroJobBuckets
         <= |Busy(document.payload.buckets, HasJobs)|
    ensures policy.windows[document.payload.windowId].minimumNonzeroCycleBuckets
         <= |Busy(document.payload.buckets, HasCycles)|
    ensures policy.windows[document.payload.windowId].minimumNonzeroProviderBuckets
         <= |Busy(document.payload.buckets, HasCalls)|
  {
    hide CloseoutOk, ChainOk, StartOk, RuleOk, PolicyOk, TallyOf, CountersOk, RepeatsLast, MinimaOk;
    CloseoutParts(gate, policy, start, checkpoints, document, previousCloseout);
    BucketsTileTheWindow(document.payload, policy.windows[document.payload.windowId],
                         start.payload.baseline);
    TallyCounts(document.payload.buckets);
    assert forall instant ::
      (InWindow(document.payload, instant)
       <==> start.payload.plannedStart.at <= instant < start.payload.plannedEnd.at);
  }
}
