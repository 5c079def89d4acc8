/** `verify_ownership_amendment_chain` of tools/verify_freeze_receipt.py. */
module AmendmentChain {
  import opened Text

  /**
   One amendment receipt. A digest that is absent or not a string is None; the two file references
   and the base commit are recorded by whether they exist.
   */
  datatype Amendment = Amendment(
    previous: Option<string>, receiptType: string, status: string, issuer: string,
    catalog: Option<string>, current: Option<string>, stageEnvelopeExists: bool, adrExists: bool,
    baseExists: bool)

  /** The amendments out of `cursor`, in the order of the receipts. */
  function Candidates(receipts: seq<Amendment>, cursor: string): seq<Amendment> {
    if receipts == [] then []
    else
      (if receipts[0].previous == Some(cursor) then [receipts[0]] else [])
      + Candidates(receipts[1..], cursor)
  }

  ghost predicate WellFormed(a: Amendment, catalog: string) {
    && a.receiptType == "OWNERSHIP_REGISTRY_AMENDMENT"
    && a.status == "OWNERSHIP_REGISTRY_AMENDED"
    && a.issuer == "agent-0"
    && a.catalog == Some(catalog)
    && a.current.Some?
    && a.stageEnvelopeExists && a.adrExists && a.baseExists
  }

  /** Position i holds the one amendment out of `cursor`. */
  ghost predicate OnlyOutOf(receipts: seq<Amendment>, cursor: string, i: nat) {
    && i < |receipts| && receipts[i].previous == Some(cursor)
    && forall j | 0 <= j < |receipts| && receipts[j].previous == Some(cursor) :: j == i
  }

  /** There is exactly one amendment out of `cursor`; it is well formed and leads to `next`. */
  ghost predicate Leads(receipts: seq<Amendment>, catalog: string, cursor: string, next: string) {
    exists i: nat :: OnlyOutOf(receipts, cursor, i)
      && WellFormed(receipts[i], catalog) && receipts[i].current == Some(next)
  }

  /** Candidates are the amendments out of the cursor; there is one exactly if one position is. */
  lemma {:induction false} CandidatesAreThoseOut(receipts: seq<Amendment>, cursor: string)
    ensures Candidates(receipts, cursor) == []
      <==> forall j | 0 <= j < |receipts| :: receipts[j].previous != Some(cursor)
    ensures |Candidates(receipts, cursor)| == 1 <==> exists i: nat :: OnlyOutOf(receipts, cursor, i)
    ensures forall i: nat | OnlyOutOf(receipts, cursor, i) ::
      Candidates(receipts, cursor) == [receipts[i]]
  {
    if receipts != [] {
      var rest := receipts[1..];
      CandidatesAreThoseOut(rest, cursor);
      assert forall j | 0 <= j < |rest| :: rest[j] == receipts[j + 1];
      assert forall j | 0 < j < |receipts| :: receipts[j] == rest[j - 1];
      if receipts[0].previous == Some(cursor) {
        if Candidates(rest, cursor) == [] { assert OnlyOutOf(receipts, cursor, 0); }
        forall i: nat | OnlyOutOf(receipts, cursor, i) ensures i == 0 {}
      } else {
        forall i: nat | OnlyOutOf(receipts, cursor, i) ensures i > 0 && OnlyOutOf(rest, cursor, i - 1) {
          assert forall j | 0 <= j < |rest| && rest[j].previous == Some(cursor) :: j + 1 == i;
        }
        forall i: nat | OnlyOutOf(rest, cursor, i) ensures OnlyOutOf(receipts, cursor, i + 1) {
          assert receipts[i + 1] == rest[i];
        }
      }
    }
  }

  function Node(frozen: string, path: seq<string>, i: nat): string
    requires i <= |path|
  {
    if i == 0 then frozen else path[i - 1]
  }

  /** `path` follows unique well-formed amendments and has not met `current` before its end. */
  ghost predicate Follows(
    receipts: seq<Amendment>, catalog: string, frozen: string, current: string, path: seq<string>)
  {
    forall i: nat | i < |path| :: Edge(receipts, catalog, frozen, current, path, i)
  }

  ghost predicate Edge(
    receipts: seq<Amendment>, catalog: string, frozen: string, current: string, path: seq<string>,
    i: nat)
    requires i < |path|
  {
    && Node(frozen, path, i) != current
    && Leads(receipts, catalog, Node(frozen, path, i), path[i])
  }

  ghost predicate IsAmendmentPath(
    receipts: seq<Amendment>, catalog: string, frozen: string, current: string, path: seq<string>)
  {
    && Follows(receipts, catalog, frozen, current, path)
    && Node(frozen, path, |path|) == current
  }

  /** Two paths out of the same digest agree as far as the shorter goes. */
  lemma {:induction false} PathsAgree(
    receipts: seq<Amendment>, catalog: string, frozen: string, current: string,
    partial: seq<string>, path: seq<string>)
    requires Follows(receipts, catalog, frozen, current, partial)
    requires IsAmendmentPath(receipts, catalog, frozen, current, path)
    ensures partial <= path
  {
    hide Leads;
    if partial != [] {
      var n := |partial| - 1;
      var shorter := partial[..n];
      Shorten(receipts, catalog, frozen, current, partial);
      PathsAgree(receipts, catalog, frozen, current, shorter, path);
      assert Edge(receipts, catalog, frozen, current, partial, n);
      assert Node(frozen, path, n) == Node(frozen, partial, n);
      assert n < |path|;
      assert Edge(receipts, catalog, frozen, current, path, n);
      LeadsToOne(receipts, catalog, Node(frozen, path, n), path[n], partial[n]);
      assert partial == shorter + [partial[n]];
    }
  }

  lemma Shorten(
    receipts: seq<Amendment>, catalog: string, frozen: string, current: string, path: seq<string>)
    requires Follows(receipts, catalog, frozen, current, path) && path != []
    ensures Follows(receipts, catalog, frozen, current, path[..|path| - 1])
  {
    hide Leads;
    var shorter := path[..|path| - 1];
    forall i: nat | i < |shorter| ensures Edge(receipts, catalog, frozen, current, shorter, i) {
      assert Edge(receipts, catalog, frozen, current, path, i);
    }
  }

  lemma LeadsToOne(receipts: seq<Amendment>, catalog: string, cursor: string, a: string, b: string)
    requires Leads(receipts, catalog, cursor, a) && Leads(receipts, catalog, cursor, b)
    ensures a == b
  {
    hide WellFormed;
    var i: nat :| OnlyOutOf(receipts, cursor, i) && receipts[i].current == Some(a);
    var j: nat :| OnlyOutOf(receipts, cursor, j) && receipts[j].current == Some(b);
    assert i == j;
  }

  /** From equal digests the walk repeats itself, so a digest met twice never reaches the end. */
  lemma {:induction false} RepeatShifts(
    receipts: seq<Amendment>, catalog: string, frozen: string, current: string, path: seq<string>,
    i: nat, j: nat, k: nat)
    requires Follows(receipts, catalog, frozen, current, path)
    requires i < j && j + k <= |path| && Node(frozen, path, i) == Node(frozen, path, j)
    ensures Node(frozen, path, i + k) == Node(frozen, path, j + k)
    decreases k
  {
    hide Leads;
    if k > 0 {
      RepeatShifts(receipts, catalog, frozen, current, path, i, j, k - 1);
      assert Edge(receipts, catalog, frozen, current, path, i + k - 1);
      assert Edge(receipts, catalog, frozen, current, path, j + k - 1);
      LeadsToOne(receipts, catalog, Node(frozen, path, j + k - 1), path[i + k - 1], path[j + k - 1]);
    }
  }

  lemma NodesDiffer(
    receipts: seq<Amendment>, catalog: string, frozen: string, current: string, path: seq<string>,
    i: nat, j: nat)
    requires IsAmendmentPath(receipts, catalog, frozen, current, path) && i < j <= |path|
    ensures Node(frozen, path, i) != Node(frozen, path, j)
  {
    hide Leads;
    assert Edge(receipts, catalog, frozen, current, path, i + (|path| - j));
    if Node(frozen, path, i) == Node(frozen, path, j) {
      RepeatShifts(receipts, catalog, frozen, current, path, i, j, |path| - j);
    }
  }

  /** A complete path meets no digest twice and never returns to the frozen one. */
  lemma PathHasNoRepeat(
    receipts: seq<Amendment>, catalog: string, frozen: string, current: string, path: seq<string>)
    requires IsAmendmentPath(receipts, catalog, frozen, current, path)
    ensures Distinct(path) && frozen !in path
  {
    hide Leads, Follows;
    forall i, j | 0 <= i < j < |path| ensures path[i] != path[j] {
      NodesDiffer(receipts, catalog, frozen, current, path, i + 1, j + 1);
    }
    forall i | 0 <= i < |path| ensures path[i] != frozen {
      NodesDiffer(receipts, catalog, frozen, current, path, 0, i + 1);
    }
  }

  function Targets(receipts: seq<Amendment>): set<string> {
    set a | a in receipts && a.current.Some? :: a.current.value
  }

  lemma {:induction false} TargetCount(receipts: seq<Amendment>)
    ensures |Targets(receipts)| <= |receipts|
  {
    if receipts != [] {
      TargetCount(receipts[1..]);
      var first := if receipts[0].current.Some? then {receipts[0].current.value} else {};
      assert Targets(receipts) == first + Targets(receipts[1..]);
      assert |first| <= 1;
      SetUnionSize(first, Targets(receipts[1..]));
    }
  }

  lemma SetUnionSize<T>(a: set<T>, b: set<T>)
    ensures |a + b| <= |a| + |b|
  {
    assert a + b == a + (b - a);
    assert b == (b - a) + (b * a);
  }

  /**
   Succeeds exactly when the unique-successor path from frozen to current exists, and returns it.
   `steps` counts the loop iterations, the failing one included.
   */
  method VerifyAmendmentChain(
    receipts: seq<Amendment>, catalog: string, frozen: string, current: string)
    returns (r: Option<seq<string>>, ghost steps: nat)
    ensures r.Some? <==> exists path :: IsAmendmentPath(receipts, catalog, frozen, current, path)
    ensures r.Some? ==>
      && IsAmendmentPath(receipts, catalog, frozen, current, r.value)
      && Distinct(r.value) && frozen !in r.value
    ensures steps <= |receipts| + 1
  {
    hide Candidates, Leads, OnlyOutOf;
    var cursor := frozen;
    var consumed: seq<string> := [];
    steps := 0;
    TargetCount(receipts);
    while cursor != current
      invariant Follows(receipts, catalog, frozen, current, consumed)
      invariant cursor == Node(frozen, consumed, |consumed|)
      invariant Distinct(consumed) && Elements(consumed) <= Targets(receipts)
      invariant steps == |consumed| <= |Targets(receipts)|
      decreases |Targets(receipts)| - |consumed|
    {
      steps := steps + 1;
      var candidates := Candidates(receipts, cursor);
      CandidatesAreThoseOut(receipts, cursor);
      if |candidates| != 1 {
        NoSuccessor(receipts, catalog, frozen, current, consumed);
        return None, steps;
      }
      var amendment := candidates[0];
      if amendment.receiptType != "OWNERSHIP_REGISTRY_AMENDMENT"
         || amendment.status != "OWNERSHIP_REGISTRY_AMENDED"
         || amendment.issuer != "agent-0" || amendment.catalog != Some(catalog)
         || amendment.current.None? || amendment.current.value in consumed
         || !amendment.stageEnvelopeExists || !amendment.adrExists || !amendment.baseExists {
        BadSuccessor(receipts, catalog, frozen, current, consumed, amendment);
        return None, steps;
      }
      var next := amendment.current.value;
      GoodSuccessor(receipts, catalog, cursor, amendment);
      Extend(receipts, catalog, frozen, current, consumed, next);
      consumed := consumed + [next];
      cursor := next;
    }
    PathHasNoRepeat(receipts, catalog, frozen, current, consumed);
    return Some(consumed), steps;
  }

  lemma GoodSuccessor(receipts: seq<Amendment>, catalog: string, cursor: string, amendment: Amendment)
    requires Candidates(receipts, cursor) == [amendment]
    requires amendment.receiptType == "OWNERSHIP_REGISTRY_AMENDMENT"
    requires amendment.status == "OWNERSHIP_REGISTRY_AMENDED" && amendment.issuer == "agent-0"
    requires amendment.catalog == Some(catalog) && amendment.current.Some?
    requires amendment.stageEnvelopeExists && amendment.adrExists && amendment.baseExists
    ensures Leads(receipts, catalog, cursor, amendment.current.value)
    ensures amendment.current.value in Targets(receipts)
  {
    hide Candidates;
    CandidatesAreThoseOut(receipts, cursor);
    var i: nat :| OnlyOutOf(receipts, cursor, i);
    assert receipts[i] == amendment && amendment in receipts;
  }

  lemma Extend(
    receipts: seq<Amendment>, catalog: string, frozen: string, current: string,
    consumed: seq<string>, next: string)
    requires Follows(receipts, catalog, frozen, current, consumed)
    requires Distinct(consumed) && Elements(consumed) <= Targets(receipts)
    requires Node(frozen, consumed, |consumed|) != current
    requires Leads(receipts, catalog, Node(frozen, consumed, |consumed|), next)
    requires next !in consumed && next in Targets(receipts)
    ensures Follows(receipts, catalog, frozen, current, consumed + [next])
    ensures Distinct(consumed + [next]) && Elements(consumed + [next]) <= Targets(receipts)
    ensures |consumed| + 1 <= |Targets(receipts)|
  {
    hide Leads;
    var longer := consumed + [next];
    forall i: nat | i < |longer| ensures Edge(receipts, catalog, frozen, current, longer, i) {
      if i < |consumed| { assert Edge(receipts, catalog, frozen, current, consumed, i); }
    }
    DistinctCardinality(longer);
    SubsetSize(Elements(longer), Targets(receipts));
  }

  /** A complete path goes through every partial one and takes its next step, to a new digest. */
  lemma NextOnPath(
    receipts: seq<Amendment>, catalog: string, frozen: string, current: string,
    consumed: seq<string>, path: seq<string>) returns (next: string)
    requires Follows(receipts, catalog, frozen, current, consumed)
    requires Node(frozen, consumed, |consumed|) != current
    requires IsAmendmentPath(receipts, catalog, frozen, current, path)
    ensures Leads(receipts, catalog, Node(frozen, consumed, |consumed|), next)
    ensures next !in consumed
  {
    hide Leads;
    var n := |consumed|;
    PathsAgree(receipts, catalog, frozen, current, consumed, path);
    PathHasNoRepeat(receipts, catalog, frozen, current, path);
    assert Node(frozen, path, n) == Node(frozen, consumed, n);
    assert Edge(receipts, catalog, frozen, current, path, n);
    next := path[n];
    assert forall k | 0 <= k < n :: consumed[k] == path[k];
  }

  /** A walk that finds no amendment out of its cursor, or several, lies on no complete path. */
  lemma NoSuccessor(
    receipts: seq<Amendment>, catalog: string, frozen: string, current: string,
    consumed: seq<string>)
    requires Follows(receipts, catalog, frozen, current, consumed)
    requires Node(frozen, consumed, |consumed|) != current
    requires forall i: nat :: !OnlyOutOf(receipts, Node(frozen, consumed, |consumed|), i)
    ensures forall path :: !IsAmendmentPath(receipts, catalog, frozen, current, path)
  {
    hide IsAmendmentPath, Follows, OnlyOutOf;
    forall path ensures !IsAmendmentPath(receipts, catalog, frozen, current, path) {
      if IsAmendmentPath(receipts, catalog, frozen, current, path) {
        var next := NextOnPath(receipts, catalog, frozen, current, consumed, path);
      }
    }
  }

  /** Nor does one whose only amendment is malformed or leads back. */
  lemma BadSuccessor(
    receipts: seq<Amendment>, catalog: string, frozen: string, current: string,
    consumed: seq<string>, amendment: Amendment)
    requires Follows(receipts, catalog, frozen, current, consumed)
    requires Node(frozen, consumed, |consumed|) != current
    requires Candidates(receipts, Node(frozen, consumed, |consumed|)) == [amendment]
    requires !WellFormed(amendment, catalog) || amendment.current.value in consumed
    ensures forall path :: !IsAmendmentPath(receipts, catalog, frozen, current, path)
  {
    hide IsAmendmentPath, Follows, Candidates, WellFormed;
    var cursor := Node(frozen, consumed, |consumed|);
    CandidatesAreThoseOut(receipts, cursor);
    forall path ensures !IsAmendmentPath(receipts, catalog, frozen, current, path) {
      if IsAmendmentPath(receipts, catalog, frozen, current, path) {
        var next := NextOnPath(receipts, catalog, frozen, current, consumed, path);
      }
    }
  }

  /** At most one path exists. */
  lemma PathIsUnique(
    receipts: seq<Amendment>, catalog: string, frozen: string, current: string,
    a: seq<string>, b: seq<string>)
    requires IsAmendmentPath(receipts, catalog, frozen, current, a)
    requires IsAmendmentPath(receipts, catalog, frozen, current, b)
    ensures a == b
  {
    PathsAgree(receipts, catalog, frozen, current, a, b);
    PathsAgree(receipts, catalog, frozen, current, b, a);
  }

  /** A fork on the way is fatal: two amendments out of one digest of a path leave no path. */
  lemma ForkHasNoPath(
    receipts: seq<Amendment>, catalog: string, frozen: string, current: string, path: seq<string>,
    k: nat, i: nat, j: nat)
    requires k < |path| && i < j < |receipts|
    requires receipts[i].previous == receipts[j].previous == Some(Node(frozen, path, k))
    ensures !IsAmendmentPath(receipts, catalog, frozen, current, path)
  {
    hide WellFormed;
    assert Follows(receipts, catalog, frozen, current, path) ==>
      Edge(receipts, catalog, frozen, current, path, k);
  }
}
