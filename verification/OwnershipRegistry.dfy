/** `ownership_failures` of tools/validate_contracts.py. */
module OwnershipRegistry {
  import opened Text
  import opened OwnershipGlob

  /** A JSON value where the registry expects a string. A list or object is not hashable. */
  datatype Json = Text(text: string) | Scalar(text: string) | Compound

  datatype Owned = Owned(pattern: string, owner: Json)

  /** None stands for a member of the wrong JSON type, or an absent one. */
  datatype Registry = Registry(
    schemaVersion: Option<string>, frozen: bool, amendmentRefPresent: bool,
    canonicalOwners: Option<seq<Owned>>, reservedFuturePaths: Option<seq<Owned>>,
    rootOnly: Option<seq<Json>>)

  const ALLOWED_OWNERS := {"agent-0", "agent-1", "agent-2", "agent-3", "agent-4", "agent-5"}

  function OrEmpty<T>(xs: Option<seq<T>>): seq<T> {
    if xs.Some? then xs.value else []
  }

  function Keys(group: seq<Owned>): (r: seq<string>)
    ensures |r| == |group| && forall i | 0 <= i < |r| :: r[i] == group[i].pattern
  {
    seq(|group|, i requires 0 <= i < |group| => group[i].pattern)
  }

  function Texts(keys: seq<string>): (r: seq<Json>)
    ensures |r| == |keys| && forall i | 0 <= i < |r| :: r[i] == Text(keys[i])
  {
    seq(|keys|, i requires 0 <= i < |keys| => Text(keys[i]))
  }

  predicate SafePattern(pattern: string) {
    && pattern != "" && pattern[0] != '/' && '\\' !in pattern
    && forall part | part in Components(pattern) :: part !in {"", ".", ".."}
  }

  function AllPatterns(r: Registry): seq<Json> {
    Texts(Keys(OrEmpty(r.canonicalOwners))) + Texts(Keys(OrEmpty(r.reservedFuturePaths)))
    + OrEmpty(r.rootOnly)
  }

  function OwningPatterns(r: Registry): seq<Json> {
    Texts(Keys(OrEmpty(r.canonicalOwners))) + OrEmpty(r.rootOnly)
  }

  // ---------------------------------------------------------------- what an exact registry is

  ghost predicate HeaderOk(r: Registry) {
    && r.schemaVersion == Some("1.1.0") && r.frozen && r.amendmentRefPresent
    && OrEmpty(r.canonicalOwners) != [] && r.reservedFuturePaths.Some? && OrEmpty(r.rootOnly) != []
  }

  ghost predicate PatternsOk(patterns: seq<Json>) {
    && (forall i | 0 <= i < |patterns| :: patterns[i].Text? && SafePattern(patterns[i].text))
    && Distinct(patterns)
  }

  ghost predicate OwnersOk(group: seq<Owned>) {
    forall i | 0 <= i < |group| :: group[i].owner.Text? && group[i].owner.text in ALLOWED_OWNERS
  }

  ghost predicate Live(pattern: string, paths: seq<string>) {
    exists i :: 0 <= i < |paths| && GlobMatch(pattern, paths[i])
  }

  /** Exactly one of the patterns matches the path. */
  ghost predicate OwnedOnce(patterns: seq<Json>, path: string) {
    exists i :: 0 <= i < |patterns| && Owns(patterns[i], path)
      && forall j | 0 <= j < |patterns| && Owns(patterns[j], path) :: j == i
  }

  ghost predicate Owns(pattern: Json, path: string) {
    pattern.Text? && GlobMatch(pattern.text, path)
  }

  ghost predicate ExactPartition(r: Registry, paths: seq<string>) {
    && HeaderOk(r)
    && PatternsOk(AllPatterns(r))
    && OwnersOk(OrEmpty(r.canonicalOwners)) && OwnersOk(OrEmpty(r.reservedFuturePaths))
    && (forall p | p in Keys(OrEmpty(r.canonicalOwners)) :: Live(p, paths))
    && (forall p | p in Keys(OrEmpty(r.reservedFuturePaths)) :: !Live(p, paths))
    && forall path | path in paths :: OwnedOnce(OwningPatterns(r), path)
  }

  /** Membership tests on an unhashable value raise instead of reporting a failure. */
  ghost predicate Raises(r: Registry, paths: seq<string>) {
    || (exists o :: (o in OrEmpty(r.canonicalOwners) || o in OrEmpty(r.reservedFuturePaths)) && o.owner.Compound?)
    || (paths != [] && Compound in OrEmpty(r.rootOnly))
  }

  // ---------------------------------------------------------------- what is reported

  /** The safe patterns of the list that match the path, in order and with repetitions. */
  ghost function Owners(patterns: seq<Json>, path: string): seq<string> {
    if patterns == [] then []
    else
      var n := |patterns| - 1;
      Owners(patterns[..n], path)
      + if patterns[n].Text? && SafePattern(patterns[n].text) && GlobMatch(patterns[n].text, path)
        then [patterns[n].text] else []
  }

  ghost predicate HeaderReport(r: Registry, text: string) {
    || (text == "unexpected_ownership_schema_version" && r.schemaVersion != Some("1.1.0"))
    || (text == "ownership_registry_not_frozen" && !r.frozen)
    || (text == "ownership_amendment_ref_missing" && !r.amendmentRefPresent)
    || (text == "canonical_owners_missing"
          && (r.canonicalOwners == None || r.canonicalOwners == Some([])))
    || (text == "reserved_future_paths_missing" && r.reservedFuturePaths == None)
    || (text == "root_only_missing" && (r.rootOnly == None || r.rootOnly == Some([])))
  }

  ghost predicate PatternReport(patterns: seq<Json>, text: string) {
    || (text == "ownership_pattern_not_string" && exists p :: p in patterns && !p.Text?)
    || (exists p :: Text(p) in patterns && !SafePattern(p) && text == "unsafe_ownership_pattern:" + p)
    || Duplicate(patterns, text)
  }

  ghost predicate OwnerReport(name: string, group: seq<Owned>, text: string) {
    exists o :: o in group && !o.owner.Compound?
      && (o.owner.Scalar?
          || o.owner.text !in {"agent-0", "agent-1", "agent-2", "agent-3", "agent-4", "agent-5"})
      && text == "invalid_" + name + "_owner:" + o.pattern + ":" + o.owner.text
  }

  ghost predicate LivenessReport(keys: seq<string>, paths: seq<string>, expected: bool, message: string, text: string) {
    exists k :: k in keys && SafePattern(k) && Live(k, paths) != expected && text == message + k
  }

  ghost predicate PathReport(patterns: seq<Json>, paths: seq<string>, text: string) {
    exists path :: path in paths && PathFailure(patterns, path, text)
  }

  ghost predicate PathFailure(patterns: seq<Json>, path: string, text: string) {
    var owners := Owners(patterns, path);
    || (|owners| == 0 && text == "unowned_live_path:" + path)
    || (|owners| > 1 && text == "ownership_overlap:" + path + ":" + Joined(Sort(owners)))
  }

  /** Exactly the texts a check that does not raise reports. */
  ghost predicate Reported(r: Registry, paths: seq<string>, text: string) {
    var canonical, reserved := OrEmpty(r.canonicalOwners), OrEmpty(r.reservedFuturePaths);
    || HeaderReport(r, text)
    || PatternReport(AllPatterns(r), text)
    || OwnerReport("canonical", canonical, text) || OwnerReport("reserved", reserved, text)
    || LivenessReport(Keys(canonical), paths, true, "canonical_pattern_matches_no_live_path:", text)
    || LivenessReport(Keys(reserved), paths, false, "reserved_path_is_live:", text)
    || PathReport(OwningPatterns(r), paths, text)
  }

  // ---------------------------------------------------------------- the loops

  /** Compiled patterns are safe patterns with their tokens. */
  ghost predicate CompiledOk(compiled: map<string, seq<Token>>) {
    forall p | p in compiled :: SafePattern(p) && compiled[p] == Tokens(p)
  }

  method CompilePatterns(patterns: seq<Json>)
    returns (failures: seq<string>, compiled: map<string, seq<Token>>)
    ensures CompiledOk(compiled)
    ensures failures == [] <==> PatternsOk(patterns)
    ensures failures == [] ==> forall i | 0 <= i < |patterns| :: patterns[i].text in compiled
    ensures forall p :: p in compiled <==> Text(p) in patterns && SafePattern(p)
    ensures forall text :: text in failures <==> PatternReport(patterns, text)
  {
    hide Components, Tokens, SafePattern, PatternReport, PatternsOk;
    NothingReported();
    failures, compiled := [], map[];
    for i := 0 to |patterns|
      invariant CompiledOk(compiled)
      invariant failures == [] <==> PatternsOk(patterns[..i])
      invariant forall p :: p in compiled <==> Text(p) in patterns[..i] && SafePattern(p)
      invariant forall text :: text in failures <==> PatternReport(patterns[..i], text)
    {
      PatternReportGrows(patterns, i);
      PatternsOkGrows(patterns, i);
      assert patterns[..i + 1] == patterns[..i] + [patterns[i]];
      var added: seq<string> := [];
      match patterns[i] {
        case Text(pattern) =>
          if pattern in compiled {
            added := ["duplicate_ownership_pattern:" + pattern];
          } else if SafePattern(pattern) {
            compiled := compiled[pattern := Tokens(pattern)];
          } else {
            added := ["unsafe_ownership_pattern:" + pattern];
          }
        case _ =>
          added := ["ownership_pattern_not_string"];
      }
      assert forall text :: text in added <==> PatternFailure(patterns, i, text);
      failures := failures + added;
    }
    assert patterns[..|patterns|] == patterns;
    AllOfThemSafe(patterns);
  }

  lemma AllOfThemSafe(patterns: seq<Json>)
    ensures PatternsOk(patterns) ==> forall i | 0 <= i < |patterns| ::
      patterns[i].Text? && Text(patterns[i].text) in patterns && SafePattern(patterns[i].text)
  {
    hide SafePattern;
    if PatternsOk(patterns) {
      forall i | 0 <= i < |patterns|
        ensures patterns[i].Text? && Text(patterns[i].text) in patterns && SafePattern(patterns[i].text)
      {
        assert patterns[i] in patterns;
      }
    }
  }

  lemma NothingReported()
    ensures forall text :: !PatternReport([], text)
    ensures PatternsOk([])
  {
  }

  lemma PatternsOkGrows(patterns: seq<Json>, n: nat)
    requires n < |patterns|
    ensures PatternsOk(patterns[..n + 1]) <==>
      && PatternsOk(patterns[..n]) && patterns[n].Text? && SafePattern(patterns[n].text)
      && patterns[n] !in patterns[..n]
    ensures PatternsOk(patterns[..n]) ==>
      forall p :: Text(p) in patterns[..n] <==> exists j :: 0 <= j < n && patterns[j].text == p
  {
    hide SafePattern;
    var longer, shorter := patterns[..n + 1], patterns[..n];
    assert longer == shorter + [patterns[n]];
    assert forall i | 0 <= i < n :: longer[i] == shorter[i];
    if PatternsOk(longer) {
      assert longer[n] == patterns[n];
      forall i | 0 <= i < n ensures shorter[i] != patterns[n] { assert longer[i] != longer[n]; }
    }
    if PatternsOk(shorter) {
      forall p ensures Text(p) in shorter <==> exists j :: 0 <= j < n && patterns[j].text == p {
        if j :| 0 <= j < n && patterns[j].text == p {
          assert shorter[j] == patterns[j] == Text(p);
        }
        if Text(p) in shorter {
          var j :| 0 <= j < n && shorter[j] == Text(p);
          assert patterns[j].text == p;
        }
      }
    }
  }

  /** What pattern n is reported for, given those before it. */
  ghost predicate PatternFailure(patterns: seq<Json>, n: nat, text: string)
    requires n < |patterns|
  {
    match patterns[n]
    case Text(pattern) =>
      if !SafePattern(pattern) then text == "unsafe_ownership_pattern:" + pattern
      else patterns[n] in patterns[..n] && text == "duplicate_ownership_pattern:" + pattern
    case _ => text == "ownership_pattern_not_string"
  }

  /** What one more pattern adds to the report. */
  lemma PatternReportGrows(patterns: seq<Json>, n: nat)
    requires n < |patterns|
    ensures forall text :: PatternReport(patterns[..n + 1], text) <==>
      PatternReport(patterns[..n], text) || PatternFailure(patterns, n, text)
  {
    hide SafePattern;
    var longer, shorter := patterns[..n + 1], patterns[..n];
    assert longer == shorter + [patterns[n]];
    forall text
      ensures PatternReport(longer, text) <==>
        PatternReport(shorter, text) || PatternFailure(patterns, n, text)
    {
      DuplicatesGrow(patterns, n, text);
    }
  }

  ghost predicate Duplicate(patterns: seq<Json>, text: string) {
    exists i, j :: 0 <= i < j < |patterns| && patterns[i] == patterns[j] && patterns[j].Text?
      && SafePattern(patterns[j].text)
      && text == "duplicate_ownership_pattern:" + patterns[j].text
  }

  lemma DuplicatesGrow(patterns: seq<Json>, n: nat, text: string)
    requires n < |patterns|
    ensures Duplicate(patterns[..n + 1], text) <==>
      || Duplicate(patterns[..n], text)
      || (patterns[n].Text? && SafePattern(patterns[n].text) && patterns[n] in patterns[..n]
            && text == "duplicate_ownership_pattern:" + patterns[n].text)
  {
    hide SafePattern;
    var longer, shorter := patterns[..n + 1], patterns[..n];
    if Duplicate(shorter, text) {
      var i, j :| 0 <= i < j < |shorter| && shorter[i] == shorter[j] && shorter[j].Text?
        && SafePattern(shorter[j].text)
        && text == "duplicate_ownership_pattern:" + shorter[j].text;
      assert longer[i] == longer[j];
    }
    if patterns[n].Text? && patterns[n] in shorter {
      var i :| 0 <= i < |shorter| && shorter[i] == patterns[n];
      assert longer[i] == longer[n];
    }
    if Duplicate(longer, text) {
      var i, j :| 0 <= i < j < |longer| && longer[i] == longer[j] && longer[j].Text?
        && SafePattern(longer[j].text)
        && text == "duplicate_ownership_pattern:" + longer[j].text;
      assert shorter[i] == longer[i];
      if j < n { assert shorter[j] == longer[j]; }
    }
  }

  /** None stands for the raised error. */
  method CheckOwners(name: string, group: seq<Owned>) returns (failures: Option<seq<string>>)
    ensures failures.None? <==> exists o :: o in group && o.owner.Compound?
    ensures failures.Some? ==> (failures.value == [] <==> OwnersOk(group))
    ensures failures.Some? ==> forall text :: text in failures.value <==> OwnerReport(name, group, text)
  {
    var found: seq<string> := [];
    for i := 0 to |group|
      invariant forall j | 0 <= j < i :: !group[j].owner.Compound?
      invariant found == [] <==> OwnersOk(group[..i])
      invariant forall text :: text in found <==> OwnerReport(name, group[..i], text)
    {
      assert group[..i + 1] == group[..i] + [group[i]];
      if group[i].owner.Compound? {
        assert group[i] in group;
        return None;
      }
      if group[i].owner.Scalar? || group[i].owner.text !in ALLOWED_OWNERS {
        found := found + ["invalid_" + name + "_owner:" + group[i].pattern + ":" + group[i].owner.text];
      }
    }
    assert group[..|group|] == group;
    return Some(found);
  }

  method AnyLive(tokens: seq<Token>, paths: seq<string>, ghost pattern: string) returns (live: bool)
    requires tokens == Tokens(pattern)
    ensures live <==> Live(pattern, paths)
  {
    hide Tokens, Accepts, GlobMatch;
    for i := 0 to |paths|
      invariant forall j | 0 <= j < i :: !GlobMatch(pattern, paths[j])
    {
      CompiledMatchIsGlobMatch(pattern, paths[i]);
      if Accepts(tokens, paths[i]) {
        return true;
      }
    }
    return false;
  }

  /** Canonical patterns must be live, reserved ones must not. */
  method CheckLiveness(
    keys: seq<string>, compiled: map<string, seq<Token>>, paths: seq<string>, expected: bool,
    message: string)
    returns (failures: seq<string>)
    requires CompiledOk(compiled)
    ensures (forall k | k in keys :: k in compiled) ==>
      (failures == [] <==> forall k | k in keys :: Live(k, paths) == expected)
    ensures (forall k | k in keys :: k in compiled <==> SafePattern(k)) ==>
      forall text :: text in failures <==> LivenessReport(keys, paths, expected, message, text)
  {
    hide Live, Tokens, SafePattern;
    failures := [];
    for i := 0 to |keys|
      invariant (forall k | k in keys :: k in compiled) ==>
        (failures == [] <==> forall j | 0 <= j < i :: Live(keys[j], paths) == expected)
      invariant (forall k | k in keys :: k in compiled <==> SafePattern(k)) ==>
        forall text :: text in failures <==> LivenessReport(keys[..i], paths, expected, message, text)
    {
      assert keys[..i + 1] == keys[..i] + [keys[i]];
      if keys[i] in compiled {
        var live := AnyLive(compiled[keys[i]], paths, keys[i]);
        if live != expected {
          failures := failures + [message + keys[i]];
        }
      }
    }
    assert keys[..|keys|] == keys;
  }

  function Joined(parts: seq<string>): string {
    if parts == [] then "" else if |parts| == 1 then parts[0] else parts[0] + "," + Joined(parts[1..])
  }

  /** One text stands for itself; one more comes after a comma. */
  lemma {:induction false} JoinedByCommas(parts: seq<string>, more: string)
    ensures Joined([]) == "" && Joined([more]) == more
    ensures parts != [] ==> Joined(parts + [more]) == Joined(parts) + "," + more
  {
    if |parts| == 1 {
      assert (parts + [more])[1..] == [more] && Joined([more]) == more;
    } else if |parts| > 1 {
      JoinedByCommas(parts[1..], more);
      assert (parts + [more])[1..] == parts[1..] + [more];
    }
  }

  /** How many of the first n patterns own the path. */
  ghost function OwnCount(patterns: seq<Json>, path: string, n: nat): nat
    requires n <= |patterns|
  {
    if n == 0 then 0
    else OwnCount(patterns, path, n - 1) + if Owns(patterns[n - 1], path) then 1 else 0
  }

  ghost predicate OnlyOwner(patterns: seq<Json>, path: string, n: nat, i: nat)
    requires i < n <= |patterns|
  {
    forall j: nat | j < n :: Owns(patterns[j], path) <==> j == i
  }

  lemma {:induction false} NoOwner(patterns: seq<Json>, path: string, n: nat)
    requires n <= |patterns|
    ensures OwnCount(patterns, path, n) == 0 <==> forall j: nat | j < n :: !Owns(patterns[j], path)
  {
    hide Owns;
    if n > 0 { NoOwner(patterns, path, n - 1); }
  }

  /** A place that owns the path is the only one exactly when the count is one. */
  lemma {:induction false} CountOne(patterns: seq<Json>, path: string, n: nat, i: nat)
    requires i < n <= |patterns| && Owns(patterns[i], path)
    ensures OwnCount(patterns, path, n) == 1 <==> OnlyOwner(patterns, path, n, i)
    decreases n
  {
    hide Owns;
    NoOwner(patterns, path, n - 1);
    if i < n - 1 { CountOne(patterns, path, n - 1, i); }
  }

  lemma CountIsOwnedOnce(patterns: seq<Json>, path: string)
    ensures OwnCount(patterns, path, |patterns|) == 1 <==> OwnedOnce(patterns, path)
  {
    hide Owns;
    NoOwner(patterns, path, |patterns|);
    if i: nat :| i < |patterns| && Owns(patterns[i], path) {
      CountOne(patterns, path, |patterns|, i);
    }
  }

  /** The compiled patterns are the safe ones. */
  ghost predicate KnowsSafe(compiled: map<string, seq<Token>>, patterns: seq<Json>) {
    forall p | Text(p) in patterns :: p in compiled <==> SafePattern(p)
  }

  /** The patterns that match one path; an unhashable pattern raises. */
  method Matching(patterns: seq<Json>, compiled: map<string, seq<Token>>, path: string)
    returns (matches: Option<seq<string>>)
    requires CompiledOk(compiled)
    ensures matches.None? <==> Compound in patterns
    ensures matches.Some? && (forall p | p in patterns :: p.Text? && p.text in compiled) ==>
      (|matches.value| == 1 <==> OwnedOnce(patterns, path))
    ensures matches.Some? && KnowsSafe(compiled, patterns) ==> matches.value == Owners(patterns, path)
  {
    hide Tokens, Accepts, GlobMatch, SafePattern, OwnedOnce;
    ghost var known := forall p | p in patterns :: p.Text? && p.text in compiled;
    var found: seq<string> := [];
    for i := 0 to |patterns|
      invariant Compound !in patterns[..i]
      invariant known ==> |found| == OwnCount(patterns, path, i)
      invariant KnowsSafe(compiled, patterns) ==> found == Owners(patterns[..i], path)
    {
      assert patterns[i] in patterns;
      assert patterns[..i + 1] == patterns[..i] + [patterns[i]];
      match patterns[i] {
        case Compound => return None;
        case Scalar(_) =>
        case Text(pattern) =>
          if pattern in compiled {
            CompiledMatchIsGlobMatch(pattern, path);
            if Accepts(compiled[pattern], path) {
              found := found + [pattern];
            }
          }
      }
    }
    assert patterns[..|patterns|] == patterns;
    CountIsOwnedOnce(patterns, path);
    matches := Some(found);
  }

  lemma NoPathReported(patterns: seq<Json>)
    ensures forall text :: !PathReport(patterns, [], text)
  {
  }

  lemma PathReportGrows(patterns: seq<Json>, paths: seq<string>, n: nat)
    requires n < |paths|
    ensures forall text :: PathReport(patterns, paths[..n + 1], text) <==>
      PathReport(patterns, paths[..n], text) || PathFailure(patterns, paths[n], text)
  {
    hide PathFailure;
    assert paths[..n + 1] == paths[..n] + [paths[n]];
    assert paths[n] in paths[..n + 1];
  }

  method CheckPaths(patterns: seq<Json>, compiled: map<string, seq<Token>>, paths: seq<string>)
    returns (failures: Option<seq<string>>)
    requires CompiledOk(compiled)
    ensures failures.None? <==> paths != [] && Compound in patterns
    ensures failures.Some? && (forall p | p in patterns :: p.Text? && p.text in compiled) ==>
      (failures.value == [] <==> forall path | path in paths :: OwnedOnce(patterns, path))
    ensures failures.Some? && KnowsSafe(compiled, patterns) ==>
      forall text :: text in failures.value <==> PathReport(patterns, paths, text)
  {
    hide CompiledOk, OwnedOnce, PathReport, Owners;
    assert forall text :: !PathReport(patterns, [], text) by { NoPathReported(patterns); }
    var found: seq<string> := [];
    for i := 0 to |paths|
      invariant i > 0 ==> Compound !in patterns
      invariant (forall p | p in patterns :: p.Text? && p.text in compiled) ==>
        (found == [] <==> forall j | 0 <= j < i :: OwnedOnce(patterns, paths[j]))
      invariant KnowsSafe(compiled, patterns) ==>
        forall text :: text in found <==> PathReport(patterns, paths[..i], text)
    {
      PathReportGrows(patterns, paths, i);
      var matches := Matching(patterns, compiled, paths[i]);
      if matches.None? {
        return None;
      }
      var added: seq<string> := [];
      if |matches.value| == 0 {
        added := ["unowned_live_path:" + paths[i]];
      } else if |matches.value| > 1 {
        added := ["ownership_overlap:" + paths[i] + ":" + Joined(Sort(matches.value))];
      }
      assert KnowsSafe(compiled, patterns) ==>
        forall text :: text in added <==> PathFailure(patterns, paths[i], text);
      found := found + added;
    }
    assert paths[..|paths|] == paths;
    return Some(found);
  }

  method CheckHeader(r: Registry) returns (failures: seq<string>)
    ensures failures == [] <==> HeaderOk(r)
    ensures forall text :: text in failures <==> HeaderReport(r, text)
  {
    failures := [];
    if r.schemaVersion != Some("1.1.0") {
      failures := failures + ["unexpected_ownership_schema_version"];
    }
    if !r.frozen {
      failures := failures + ["ownership_registry_not_frozen"];
    }
    if !r.amendmentRefPresent {
      failures := failures + ["ownership_amendment_ref_missing"];
    }
    if OrEmpty(r.canonicalOwners) == [] {
      failures := failures + ["canonical_owners_missing"];
    }
    if r.reservedFuturePaths.None? {
      failures := failures + ["reserved_future_paths_missing"];
    }
    if OrEmpty(r.rootOnly) == [] {
      failures := failures + ["root_only_missing"];
    }
  }

  /**
   No failure is reported exactly for an exact partition; the report is always sorted and free of
   duplicates; the function raises exactly on an unhashable value it has to look up.
   */
  method OwnershipFailures(r: Registry, paths: seq<string>) returns (failures: Option<seq<string>>)
    ensures failures.None? <==> Raises(r, paths)
    ensures failures.Some? ==>
      && Increasing(failures.value)
      && (failures.value == [] <==> ExactPartition(r, paths))
      && (forall text :: text in failures.value <==> Reported(r, paths, text))
  {
    hide HeaderReport, PatternReport, OwnerReport, LivenessReport, PathReport, SafePattern;
    hide PatternsOk, HeaderOk, OwnersOk, Live, OwnedOnce, CompiledOk, Increasing, Keys, Texts;
    var canonical, reserved := OrEmpty(r.canonicalOwners), OrEmpty(r.reservedFuturePaths);
    var headerFailures := CheckHeader(r);
    var patternFailures, compiled := CompilePatterns(AllPatterns(r));
    var canonicalOwners := CheckOwners("canonical", canonical);
    if canonicalOwners.None? {
      return None;
    }
    var reservedOwners := CheckOwners("reserved", reserved);
    if reservedOwners.None? {
      return None;
    }
    var dead := CheckLiveness(Keys(canonical), compiled, paths, true,
                              "canonical_pattern_matches_no_live_path:");
    var early := CheckLiveness(Keys(reserved), compiled, paths, false, "reserved_path_is_live:");
    var pathFailures := CheckPaths(OwningPatterns(r), compiled, paths);
    CompoundOnlyInRoot(r);
    SafeAreKnown(r, compiled);
    if pathFailures.None? {
      return None;
    }
    if patternFailures == [] {
      PatternsAreCompiled(r, compiled);
    }
    var all := headerFailures + patternFailures + canonicalOwners.value + reservedOwners.value
               + dead + early + pathFailures.value;
    var report := SortDistinct(all);
    assert report == [] <==> all == [] by {
      if all != [] { assert all[0] in report; }
      if report != [] { assert report[0] in all; }
    }
    return Some(report);
  }

  lemma SafeAreKnown(r: Registry, compiled: map<string, seq<Token>>)
    requires forall p :: p in compiled <==> Text(p) in AllPatterns(r) && SafePattern(p)
    ensures forall k | k in Keys(OrEmpty(r.canonicalOwners)) :: k in compiled <==> SafePattern(k)
    ensures forall k | k in Keys(OrEmpty(r.reservedFuturePaths)) :: k in compiled <==> SafePattern(k)
    ensures KnowsSafe(compiled, OwningPatterns(r))
  {
    hide SafePattern;
    var canonical, reserved := Keys(OrEmpty(r.canonicalOwners)), Keys(OrEmpty(r.reservedFuturePaths));
    forall k | k in canonical ensures Text(k) in AllPatterns(r) {
      var i :| 0 <= i < |canonical| && canonical[i] == k;
      assert Texts(canonical)[i] == Text(k);
    }
    forall k | k in reserved ensures Text(k) in AllPatterns(r) {
      var i :| 0 <= i < |reserved| && reserved[i] == k;
      assert Texts(reserved)[i] == Text(k);
    }
  }

  lemma CompoundOnlyInRoot(r: Registry)
    ensures Compound in OwningPatterns(r) <==> Compound in OrEmpty(r.rootOnly)
  {
    var keys := Texts(Keys(OrEmpty(r.canonicalOwners)));
    assert Compound !in keys;
  }

  lemma PatternsAreCompiled(r: Registry, compiled: map<string, seq<Token>>)
    requires PatternsOk(AllPatterns(r))
    requires forall i | 0 <= i < |AllPatterns(r)| :: AllPatterns(r)[i].text in compiled
    ensures forall k | k in Keys(OrEmpty(r.canonicalOwners)) :: k in compiled
    ensures forall k | k in Keys(OrEmpty(r.reservedFuturePaths)) :: k in compiled
    ensures forall p | p in OwningPatterns(r) :: p.Text? && p.text in compiled
  {
    var canonical, reserved := Keys(OrEmpty(r.canonicalOwners)), Keys(OrEmpty(r.reservedFuturePaths));
    var root := OrEmpty(r.rootOnly);
    var all := AllPatterns(r);
    forall i | 0 <= i < |canonical| ensures canonical[i] in compiled {
      assert all[i] == Text(canonical[i]);
    }
    forall i | 0 <= i < |reserved| ensures reserved[i] in compiled {
      assert all[|canonical| + i] == Text(reserved[i]);
    }
    forall i | 0 <= i < |root| ensures root[i].Text? && root[i].text in compiled {
      assert all[|canonical| + |reserved| + i] == root[i];
    }
  }

  /** A registry with a list for an owner: the check raises, whatever the live paths are. */
  lemma ListOwnerRaises(paths: seq<string>)
    ensures var owned := Owned("src/**", Compound);
      Raises(Registry(Some("1.1.0"), true, true, Some([owned]), Some([]), Some([Text("a")])), paths)
  {
    var owned := Owned("src/**", Compound);
    assert owned in [owned] && owned.owner.Compound?;
  }

  /** A pattern is safe exactly if it is a path of parts, none empty or a dot name, and no backslash. */
  lemma SafePatternMeans(pattern: string)
    ensures SafePattern(pattern) <==>
      && '\\' !in pattern
      && exists parts: seq<string> :: parts != [] && JoinParts(parts) == pattern
           && forall part | part in parts ::
                '/' !in part && part != "" && part != "." && part != ".."
  {
    if SafePattern(pattern) { ComponentsJoin(pattern); }
    if exists parts: seq<string> :: parts != [] && JoinParts(parts) == pattern
         && forall part | part in parts ::
              '/' !in part && part != "" && part != "." && part != ".."
    {
      var parts: seq<string> :| parts != [] && JoinParts(parts) == pattern
        && forall part | part in parts ::
             '/' !in part && part != "" && part != "." && part != "..";
      ComponentsOfJoin(parts);
      assert parts[0] in parts && parts[0][0] in parts[0];
      assert pattern[0] == parts[0][0];
    }
  }
}
