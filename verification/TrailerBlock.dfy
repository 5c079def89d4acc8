/** `parse_terminal_block` of tools/verify_r08b_trailer_identity.py. */
module TrailerBlock {

  const KEYS: seq<string> := ["PLAN-ID", "PLAN-VERSION", "AMENDMENT-ID", "SPRINT-ID"]

  /** A bare key among the last four lines makes the value lookup raise IndexError. */
  datatype Outcome = Parsed(values: seq<string>) | Rejected | IndexError

  // ---------------------------------------------------------------- text

  /** Line boundaries of `str.splitlines`. */
  predicate IsBreak(c: char) {
    c in "\n\r\U{000B}\U{000C}\U{001C}\U{001D}\U{001E}\U{0085}\U{2028}\U{2029}"
  }

  /** White space of `str.strip`. */
  predicate IsSpace(c: char) {
    || IsBreak(c)
    || c in " \t\U{001F}\U{00A0}\U{1680}\U{202F}\U{205F}\U{3000}"
    || '\U{2000}' <= c <= '\U{200A}'
  }

  function LineLength(s: string): (n: nat)
    ensures n <= |s|
    ensures forall i | 0 <= i < n :: !IsBreak(s[i])
    ensures n < |s| ==> IsBreak(s[n])
  {
    if s == "" || IsBreak(s[0]) then 0 else 1 + LineLength(s[1..])
  }

  function SplitLines(s: string): seq<string>
    decreases |s|
  {
    if s == "" then []
    else
      var n := LineLength(s);
      if n == |s| then [s]
      else [s[..n]] + SplitLines(s[n + (if "\r\n" <= s[n..] then 2 else 1)..])
  }

  function StripLeft(s: string): string {
    if s != "" && IsSpace(s[0]) then StripLeft(s[1..]) else s
  }

  function StripRight(s: string): string {
    if s != "" && IsSpace(s[|s| - 1]) then StripRight(s[..|s| - 1]) else s
  }

  function Strip(s: string): string {
    StripRight(StripLeft(s))
  }

  /** Position of the first colon, or the length. */
  function Colon(line: string): (n: nat)
    ensures n <= |line|
    ensures forall i | 0 <= i < n :: line[i] != ':'
    ensures n < |line| ==> line[n] == ':'
  {
    if line == "" || line[0] == ':' then 0 else 1 + Colon(line[1..])
  }

  function Head(line: string): string {
    line[..Colon(line)]
  }

  // ---------------------------------------------------------------- the parser's rule

  function WithoutTrailingBlank(lines: seq<string>): seq<string> {
    if lines != [] && Strip(lines[|lines| - 1]) == "" then WithoutTrailingBlank(lines[..|lines| - 1])
    else lines
  }

  function Block(lines: seq<string>): (block: seq<string>)
    requires |lines| >= 4
    ensures |block| == 4 && forall k | 0 <= k < 4 :: block[k] == lines[|lines| - 4 + k]
  {
    lines[|lines| - 4..]
  }

  predicate Carries(line: string, key: string) {
    key + ":" <= line
  }

  function Occurrences(lines: seq<string>, key: string): nat {
    if lines == [] then 0
    else Occurrences(lines[..|lines| - 1], key) + if Carries(lines[|lines| - 1], key) then 1 else 0
  }

  predicate EachKeyOnce(lines: seq<string>) {
    forall k | 0 <= k < |KEYS| :: Occurrences(lines, KEYS[k]) == 1
  }

  predicate EndsInKeys(lines: seq<string>) {
    |lines| >= 4 && forall k | 0 <= k < 4 :: Head(lines[|lines| - 4 + k]) == KEYS[k]
  }

  /** Reads the values of the last lines, from the k-th key on. */
  function Values(block: seq<string>, k: nat, parsed: seq<string>): Outcome
    requires |block| == 4 && k <= 4
    decreases 4 - k
  {
    if k == 4 then Parsed(parsed)
    else
      var colon := Colon(block[k]);
      if colon == |block[k]| then IndexError
      else
        var value := Strip(block[k][colon + 1..]);
        if value == "" then Rejected else Values(block, k + 1, parsed + [value])
  }

  function ParseLines(all: seq<string>): Outcome {
    var lines := WithoutTrailingBlank(all);
    if !EachKeyOnce(lines) || !EndsInKeys(lines) then Rejected
    else Values(Block(lines), 0, [])
  }

  /** The parser as written. */
  method ParseTerminalBlock(message: string) returns (r: Outcome)
    ensures r == ParseLines(SplitLines(message))
  {
    hide Strip, Values, Head, Carries, Occurrences, SplitLines;
    var lines := SplitLines(message);
    while lines != [] && Strip(lines[|lines| - 1]) == ""
      invariant WithoutTrailingBlank(lines) == WithoutTrailingBlank(SplitLines(message))
      decreases |lines|
    {
      lines := lines[..|lines| - 1];
    }
    assert lines == WithoutTrailingBlank(SplitLines(message));
    var occurrences := FindOccurrences(lines);
    if !(forall k | 0 <= k < 4 :: |occurrences[k]| == 1) || !EndsInKeys(lines) {
      return Rejected;
    }
    r := ReadValues(Block(lines));
  }

  /** The line numbers at which each key occurs. */
  method FindOccurrences(lines: seq<string>) returns (occurrences: seq<seq<nat>>)
    ensures |occurrences| == 4
    ensures forall k | 0 <= k < 4 :: |occurrences[k]| == Occurrences(lines, KEYS[k])
  {
    hide Carries;
    occurrences := [[], [], [], []];
    for index := 0 to |lines|
      invariant |occurrences| == 4
      invariant forall k | 0 <= k < 4 :: |occurrences[k]| == Occurrences(lines[..index], KEYS[k])
    {
      assert lines[..index + 1][..index] == lines[..index];
      for k := 0 to 4
        invariant |occurrences| == 4
        invariant forall j | 0 <= j < k :: |occurrences[j]| == Occurrences(lines[..index + 1], KEYS[j])
        invariant forall j | k <= j < 4 :: |occurrences[j]| == Occurrences(lines[..index], KEYS[j])
      {
        if Carries(lines[index], KEYS[k]) {
          occurrences := occurrences[k := occurrences[k] + [index]];
        }
      }
    }
    assert lines[..|lines|] == lines;
  }

  method ReadValues(block: seq<string>) returns (r: Outcome)
    requires |block| == 4
    ensures r == Values(block, 0, [])
  {
    hide Strip;
    var parsed: seq<string> := [];
    for k := 0 to 4
      invariant Values(block, 0, []) == Values(block, k, parsed)
    {
      var colon := Colon(block[k]);
      if colon == |block[k]| {
        return IndexError;
      }
      var value := Strip(block[k][colon + 1..]);
      if value == "" {
        return Rejected;
      }
      parsed := parsed + [value];
    }
    return Parsed(parsed);
  }

  // ---------------------------------------------------------------- what acceptance means

  /** The text after "KEY:", stripped; nothing if the line does not carry the key. */
  function ValueOf(line: string, key: string): string {
    if Carries(line, key) then Strip(line[|key| + 1..]) else ""
  }

  /** The k-th line carries its key and a non-empty value. */
  ghost predicate CarriesValue(block: seq<string>, k: nat)
    requires |block| == 4 && k < 4
  {
    ValueOf(block[k], KEYS[k]) != ""
  }

  lemma KeysHaveNoColon(k: nat)
    requires k < 4
    ensures ':' !in KEYS[k] && KEYS[k] != ""
  {
    assert KEYS[0] == "PLAN-ID" && KEYS[1] == "PLAN-VERSION" && KEYS[2] == "AMENDMENT-ID"
      && KEYS[3] == "SPRINT-ID";
  }

  lemma CarriedColon(line: string, key: string)
    requires ':' !in key && Carries(line, key)
    ensures Colon(line) == |key| < |line| && line[..|key|] == key
  {
    hide Colon;
    assert line[..|key| + 1] == key + ":";
    assert line[|key|] == (key + ":")[|key|];
    assert line[..|key|] == (key + ":")[..|key|] == key;
    assert forall i | 0 <= i < |key| :: line[i] == line[..|key|][i];
  }

  lemma WholeKeyColon(key: string)
    requires ':' !in key
    ensures Colon(key) == |key| && !Carries(key, key)
  {
    hide Colon;
  }

  lemma HeadOnly(line: string, key: string)
    requires Head(line) == key
    ensures Colon(line) < |line| ==> Carries(line, key)
    ensures Colon(line) == |line| ==> line == key
  {
    hide Colon;
    if Colon(line) < |line| {
      assert line[..|key| + 1] == key + ":";
    }
  }

  /** A line whose head is a key either carries the key or is nothing but the key. */
  lemma HeadIsKey(line: string, key: string)
    requires ':' !in key
    ensures Head(line) == key <==> Carries(line, key) || line == key
    ensures Carries(line, key) ==> Colon(line) == |key| < |line|
    ensures line == key ==> Colon(line) == |line| && !Carries(line, key)
  {
    hide Colon, Carries;
    WholeKeyColon(key);
    if Carries(line, key) { CarriedColon(line, key); }
    if Head(line) == key { HeadOnly(line, key); }
    assert line == key ==> line[..|line|] == key;
  }

  /** One round of the reading loop. */
  lemma ReadsOne(block: seq<string>, k: nat, parsed: seq<string>)
    requires |block| == 4 && k < 4 && Head(block[k]) == KEYS[k]
    ensures CarriesValue(block, k) ==>
      Values(block, k, parsed) == Values(block, k + 1, parsed + [ValueOf(block[k], KEYS[k])])
    ensures !CarriesValue(block, k) ==>
      Values(block, k, parsed) == if block[k] == KEYS[k] then IndexError else Rejected
  {
    hide Strip, Head, Colon;
    KeysHaveNoColon(k);
    HeadIsKey(block[k], KEYS[k]);
  }

  lemma {:induction false} ValuesMeaning(block: seq<string>, k: nat, parsed: seq<string>)
    requires |block| == 4 && k <= 4
    requires forall j | 0 <= j < 4 :: Head(block[j]) == KEYS[j]
    ensures var r := Values(block, k, parsed);
      && (r.Parsed? <==> forall j | k <= j < 4 :: CarriesValue(block, j))
      && (r.Parsed? ==> r.values == parsed + ValuesFrom(block, k))
      && (r.IndexError? <==> BareKey(block, k))
    decreases 4 - k
  {
    hide ValueOf, Head, CarriesValue, Values;
    if k < 4 {
      var value := ValueOf(block[k], KEYS[k]);
      ReadsOne(block, k, parsed);
      BareIsNotValued(block, k);
      if CarriesValue(block, k) {
        ValuesMeaning(block, k + 1, parsed + [value]);
        assert parsed + [value] + ValuesFrom(block, k + 1) == parsed + ValuesFrom(block, k);
      }
    } else {
      ValuesDone(block, parsed);
      assert parsed + ValuesFrom(block, k) == parsed;
    }
  }

  lemma ValuesDone(block: seq<string>, parsed: seq<string>)
    requires |block| == 4
    ensures Values(block, 4, parsed) == Parsed(parsed)
  {
  }

  lemma BareIsNotValued(block: seq<string>, k: nat)
    requires |block| == 4 && k < 4
    ensures block[k] == KEYS[k] ==> !CarriesValue(block, k)
  {
    KeysHaveNoColon(k);
    HeadIsKey(block[k], KEYS[k]);
  }

  function ValuesFrom(block: seq<string>, k: nat): (r: seq<string>)
    requires |block| == 4 && k <= 4
    ensures |r| == 4 - k && forall j | 0 <= j < 4 - k :: r[j] == ValueOf(block[k + j], KEYS[k + j])
    decreases 4 - k
  {
    if k == 4 then [] else [ValueOf(block[k], KEYS[k])] + ValuesFrom(block, k + 1)
  }

  /** Some line from the k-th on is nothing but its key, and those before it have values. */
  ghost predicate BareKey(block: seq<string>, k: nat)
    requires |block| == 4 && k <= 4
    decreases 4 - k
  {
    k < 4 && (block[k] == KEYS[k] || (CarriesValue(block, k) && BareKey(block, k + 1)))
  }

  lemma {:induction false} OccurrenceIsThere(lines: seq<string>, key: string)
    ensures Occurrences(lines, key) == 0 <==> forall i | 0 <= i < |lines| :: !Carries(lines[i], key)
  {
    hide Carries;
    if lines != [] { OccurrenceIsThere(lines[..|lines| - 1], key); }
  }

  /** With one occurrence in all, the place that carries the key is the only one. */
  lemma {:induction false} OnlyOccurrence(lines: seq<string>, key: string, i: nat)
    requires i < |lines| && Carries(lines[i], key)
    ensures Occurrences(lines, key) == 1 <==>
      forall j | 0 <= j < |lines| && Carries(lines[j], key) :: j == i
  {
    hide Carries;
    var n := |lines| - 1;
    if i == n {
      OccurrenceIsThere(lines[..n], key);
      assert forall j | 0 <= j < n :: lines[..n][j] == lines[j];
    } else {
      OnlyOccurrence(lines[..n], key, i);
      OccurrenceIsThere(lines[..n], key);
      assert lines[..n][i] == lines[i];
      assert forall j | 0 <= j < n :: lines[..n][j] == lines[j];
    }
  }

  /** The last four lines carry the keys in order, each with a value, and no other line does. */
  ghost predicate IsTerminalBlock(lines: seq<string>) {
    && |lines| >= 4
    && forall k | 0 <= k < 4 :: CarriesValue(Block(lines), k) && KeyAlone(lines, k)
  }

  ghost predicate KeyAlone(lines: seq<string>, k: nat)
    requires |lines| >= 4 && k < 4
  {
    forall i | 0 <= i < |lines| && Carries(lines[i], KEYS[k]) :: i == |lines| - 4 + k
  }

  lemma KeyPlace(lines: seq<string>, k: nat)
    requires |lines| >= 4 && k < 4 && CarriesValue(Block(lines), k)
    ensures Occurrences(lines, KEYS[k]) == 1 <==> KeyAlone(lines, k)
    ensures Head(Block(lines)[k]) == KEYS[k]
  {
    hide Head, Carries, Occurrences, Strip, Block, Colon, CarriesValue, KeyAlone;
    CarriedIsPlaced(lines, k, |lines| - 4 + k, KEYS[k]);
  }

  lemma CarriedIsPlaced(lines: seq<string>, k: nat, i: nat, key: string)
    requires |lines| >= 4 && k < 4 && i == |lines| - 4 + k && key == KEYS[k]
    requires CarriesValue(Block(lines), k)
    ensures Occurrences(lines, key) == 1 <==> KeyAlone(lines, k)
    ensures Head(Block(lines)[k]) == key
  {
    hide Head, Carries, Occurrences, Strip, Block, Colon;
    KeysHaveNoColon(k);
    assert Carries(lines[i], key);
    HeadIsKey(lines[i], key);
    OnlyOccurrence(lines, key, i);
  }

  /** The parser's three tests together say that the lines end in the block. */
  lemma TerminalExactly(lines: seq<string>)
    requires |lines| >= 4
    ensures IsTerminalBlock(lines) <==>
      (EachKeyOnce(lines) && EndsInKeys(lines) && forall k | 0 <= k < 4 :: CarriesValue(Block(lines), k))
  {
    hide CarriesValue, KeyAlone, Carries, Head, Occurrences;
    forall k | 0 <= k < 4
      ensures CarriesValue(Block(lines), k) ==>
        (Occurrences(lines, KEYS[k]) == 1 <==> KeyAlone(lines, k)) && Head(Block(lines)[k]) == KEYS[k]
    {
      if CarriesValue(Block(lines), k) { KeyPlace(lines, k); }
    }
  }

  /** A message is accepted exactly when it ends in the block, and yields the block's values. */
  lemma AcceptedExactly(all: seq<string>)
    ensures ParseLines(all).Parsed? <==> IsTerminalBlock(WithoutTrailingBlank(all))
    ensures ParseLines(all).Parsed? ==>
      var lines := WithoutTrailingBlank(all);
      && |lines| >= 4 && |ParseLines(all).values| == 4
      && forall k | 0 <= k < 4 :: ParseLines(all).values[k] == ValueOf(Block(lines)[k], KEYS[k])
  {
    hide Head, Values, CarriesValue, KeyAlone, EachKeyOnce, WithoutTrailingBlank, ValueOf;
    var lines := WithoutTrailingBlank(all);
    if |lines| >= 4 {
      TerminalExactly(lines);
      if EndsInKeys(lines) {
        ValuesMeaning(Block(lines), 0, []);
      }
    }
  }

  /** The lookup fails exactly on a bare key among the last four lines, reached past good values. */
  lemma IndexErrorExactly(all: seq<string>)
    ensures ParseLines(all).IndexError? <==>
      var lines := WithoutTrailingBlank(all);
      EachKeyOnce(lines) && EndsInKeys(lines) && BareKey(Block(lines), 0)
  {
    hide Strip, Head, Values, CarriesValue, WithoutTrailingBlank, EachKeyOnce, BareKey;
    var lines := WithoutTrailingBlank(all);
    if EndsInKeys(lines) {
      ValuesMeaning(Block(lines), 0, []);
    }
  }

  // ---------------------------------------------------------------- round trip

  predicate OneLine(s: string) {
    forall i | 0 <= i < |s| :: !IsBreak(s[i])
  }

  function Unlines(lines: seq<string>): string {
    if lines == [] then "" else lines[0] + "\n" + Unlines(lines[1..])
  }

  lemma SplitHead(line: string, rest: string)
    requires OneLine(line)
    ensures SplitLines(line + "\n" + rest) == [line] + SplitLines(rest)
  {
    hide LineLength;
    var s, n := line + "\n" + rest, |line|;
    assert s[n] == '\n' && IsBreak(s[n]);
    assert forall i | 0 <= i < n :: s[i] == line[i];
    assert LineLength(s) == n;
    assert s[..n] == line;
    assert s[n..][0] == '\n';
    assert s[n + 1..] == rest;
  }

  /** Lines terminated by a newline, and possibly an unterminated last one, split back. */
  lemma {:induction false} SplitUnlines(lines: seq<string>, last: string)
    requires OneLine(last) && forall i | 0 <= i < |lines| :: OneLine(lines[i])
    ensures SplitLines(Unlines(lines) + last) == lines + if last == "" then [] else [last]
  {
    hide OneLine;
    if lines == [] {
      assert Unlines(lines) + last == last;
      OneLineSplits(last);
    } else {
      var rest := Unlines(lines[1..]) + last;
      assert Unlines(lines) + last == lines[0] + "\n" + rest;
      SplitHead(lines[0], rest);
      SplitUnlines(lines[1..], last);
      assert lines == [lines[0]] + lines[1..];
    }
  }

  lemma OneLineSplits(last: string)
    requires OneLine(last)
    ensures SplitLines(last) == if last == "" then [] else [last]
  {
    hide LineLength;
    assert LineLength(last) == |last|;
  }

  lemma StripPadded(value: string)
    requires value != "" && Strip(value) == value
    ensures Strip(" " + value) == value
  {
    assert (" " + value)[1..] == value;
    StripLeftShort(value);
    StripRightShort(StripLeft(value));
  }

  lemma {:induction false} StripLeftShort(s: string)
    ensures |StripLeft(s)| <= |s|
    ensures |StripLeft(s)| == |s| ==> StripLeft(s) == s
  {
    if s != "" && IsSpace(s[0]) { StripLeftShort(s[1..]); }
  }

  lemma {:induction false} StripRightShort(s: string)
    ensures |StripRight(s)| <= |s|
  {
    if s != "" && IsSpace(s[|s| - 1]) { StripRightShort(s[..|s| - 1]); }
  }

  function Rendered(values: seq<string>): (r: seq<string>)
    requires |values| == 4
    ensures |r| == 4
  {
    [KEYS[0] + ": " + values[0], KEYS[1] + ": " + values[1],
     KEYS[2] + ": " + values[2], KEYS[3] + ": " + values[3]]
  }

  lemma RenderedLine(key: string, value: string)
    requires value != "" && Strip(value) == value
    ensures Carries(key + ": " + value, key) && ValueOf(key + ": " + value, key) == value
  {
    var line := key + ": " + value;
    assert line == (key + ":") + (" " + value);
    assert line[|key| + 1..] == " " + value;
    StripPadded(value);
  }

  /** No two keys can be carried by one line. */
  lemma KeysExclude(line: string, j: nat, k: nat)
    requires j < 4 && k < 4 && Carries(line, KEYS[j]) && Carries(line, KEYS[k])
    ensures j == k
  {
    KeysHaveNoColon(j);
    KeysHaveNoColon(k);
    HeadIsKey(line, KEYS[j]);
    HeadIsKey(line, KEYS[k]);
    assert KEYS[j] == KEYS[k];
    assert |KEYS[0]| == 7 && |KEYS[1]| == 12 && |KEYS[2]| == 12 && |KEYS[3]| == 9;
    assert KEYS[1][0] == 'P' && KEYS[2][0] == 'A';
  }

  lemma DropBlank(lines: seq<string>, blank: string)
    requires Strip(blank) == ""
    ensures WithoutTrailingBlank(lines + [blank]) == WithoutTrailingBlank(lines)
  {
    hide Strip;
    var all := lines + [blank];
    assert all[|all| - 1] == blank && all[..|all| - 1] == lines;
  }

  lemma {:induction false} BlankTail(lines: seq<string>, blanks: seq<string>)
    requires lines != [] && Strip(lines[|lines| - 1]) != ""
    requires forall i | 0 <= i < |blanks| :: Strip(blanks[i]) == ""
    ensures WithoutTrailingBlank(lines + blanks) == lines
  {
    hide Strip;
    if blanks == [] {
      assert lines + blanks == lines;
    } else {
      var n := |blanks| - 1;
      BlankTail(lines, blanks[..n]);
      DropBlank(lines + blanks[..n], blanks[n]);
      assert lines + blanks == (lines + blanks[..n]) + [blanks[n]];
    }
  }

  /** A line that carries a key is not blank: its first character is a letter. */
  lemma CarrierIsNotBlank(line: string, k: nat)
    requires k < 4 && Carries(line, KEYS[k])
    ensures Strip(line) != ""
  {
    assert KEYS[k][0] in "PAS";
    assert line[0] == (KEYS[k] + ":")[0] == KEYS[k][0];
    assert !IsSpace(line[0]);
    assert StripLeft(line) == line;
    KeepsFirst(line);
  }

  lemma {:induction false} KeepsFirst(s: string)
    requires s != "" && !IsSpace(s[0])
    ensures StripRight(s) != ""
  {
    if IsSpace(s[|s| - 1]) { KeepsFirst(s[..|s| - 1]); }
  }

  lemma RenderedBlock(body: seq<string>, values: seq<string>, k: nat)
    requires |values| == 4 && k < 4
    requires values[k] != "" && Strip(values[k]) == values[k]
    ensures var lines := body + Rendered(values);
      && Block(lines)[k] == lines[|body| + k] == Rendered(values)[k]
      && Carries(Block(lines)[k], KEYS[k]) && ValueOf(Block(lines)[k], KEYS[k]) == values[k]
  {
    hide Strip, Carries, ValueOf;
    RenderedLine(KEYS[k], values[k]);
    assert Rendered(values)[k] == KEYS[k] + ": " + values[k];
  }

  lemma KeyOnlyInBlock(body: seq<string>, values: seq<string>, k: nat)
    requires |values| == 4 && k < 4
    requires forall j | 0 <= j < 4 :: values[j] != "" && Strip(values[j]) == values[j]
    requires forall i | 0 <= i < |body| :: !Carries(body[i], KEYS[k])
    ensures KeyAlone(body + Rendered(values), k)
  {
    hide Strip, Carries, ValueOf, Rendered, Block;
    var lines := body + Rendered(values);
    assert forall i | 0 <= i < |body| :: lines[i] == body[i];
    forall i | 0 <= i < |lines| && Carries(lines[i], KEYS[k]) ensures i == |lines| - 4 + k {
      if i >= |body| {
        RenderedBlock(body, values, i - |body|);
        KeysExclude(lines[i], i - |body|, k);
      }
    }
  }

  /** The lines of a body without key lines, four rendered trailers and blank lines. */
  lemma ComposedIsTerminal(body: seq<string>, values: seq<string>)
    requires |values| == 4
    requires forall k | 0 <= k < 4 :: values[k] != "" && Strip(values[k]) == values[k]
    requires forall i, k | 0 <= i < |body| && 0 <= k < 4 :: !Carries(body[i], KEYS[k])
    ensures IsTerminalBlock(body + Rendered(values))
    ensures forall k | 0 <= k < 4 ::
      ValueOf(Block(body + Rendered(values))[k], KEYS[k]) == values[k]
  {
    hide Strip, Carries, ValueOf, KeyAlone, Rendered, Block;
    forall k | 0 <= k < 4
      ensures ValueOf(Block(body + Rendered(values))[k], KEYS[k]) == values[k]
      ensures KeyAlone(body + Rendered(values), k)
    {
      RenderedBlock(body, values, k);
      KeyOnlyInBlock(body, values, k);
    }
  }

  /**
   Round trip: a body without key lines, the four trailers rendered from trimmed non-empty values,
   and any blank lines after them, parse back to exactly those values. `last` is the text after the
   final newline, which may be empty.
   */
  lemma RoundTrip(
    body: seq<string>, values: seq<string>, blanks: seq<string>, lines: seq<string>, last: string)
    requires |values| == 4
    requires forall k | 0 <= k < 4 :: values[k] != "" && Strip(values[k]) == values[k]
    requires forall i, k | 0 <= i < |body| && 0 <= k < 4 :: !Carries(body[i], KEYS[k])
    requires forall i | 0 <= i < |blanks| :: Strip(blanks[i]) == ""
    requires OneLine(last) && forall i | 0 <= i < |lines| :: OneLine(lines[i])
    requires lines + (if last == "" then [] else [last]) == body + Rendered(values) + blanks
    ensures ParseLines(SplitLines(Unlines(lines) + last)) == Parsed(values)
  {
    hide Strip, Carries, SplitLines, Unlines, ParseLines, ValueOf, WithoutTrailingBlank;
    SplitUnlines(lines, last);
    var block := body + Rendered(values);
    ComposedIsTerminal(body, values);
    assert block[|block| - 1] == Rendered(values)[3];
    RenderedLine(KEYS[3], values[3]);
    CarrierIsNotBlank(block[|block| - 1], 3);
    BlankTail(block, blanks);
    AcceptedExactly(block + blanks);
    assert ParseLines(block + blanks).values == values;
  }

  lemma BareKeyCarriesNothing(k: nat)
    requires k < 4
    ensures !Carries(KEYS[0], KEYS[k])
  {
    assert |KEYS[0]| == 7 && |KEYS[1]| == 12 && |KEYS[2]| == 12 && |KEYS[3]| == 9;
  }

  /**
   Lines that are neither accepted nor refused with the parser's own error: the first trailer in
   the body and its key alone at the head of the block.
   */
  lemma BareKeyRaises(values: seq<string>)
    requires |values| == 4
    requires forall k | 0 <= k < 4 :: values[k] != "" && Strip(values[k]) == values[k]
    ensures ParseLines([Rendered(values)[0], KEYS[0]] + Rendered(values)[1..]) == IndexError
  {
    hide Strip, Carries, ValueOf, Head, Occurrences, WithoutTrailingBlank, ParseLines;
    var lines := [Rendered(values)[0], KEYS[0]] + Rendered(values)[1..];
    forall k | 0 <= k < 4 ensures Occurrences(lines, KEYS[k]) == 1 {
      var place := if k == 0 then 0 else k + 1;
      assert lines[place] == Rendered(values)[k] == KEYS[k] + ": " + values[k];
      RenderedLine(KEYS[k], values[k]);
      forall j | 0 <= j < |lines| && Carries(lines[j], KEYS[k]) ensures j == place {
        BareKeyCarriesNothing(k);
        var other := if j <= 1 then 0 else j - 1;
        RenderedLine(KEYS[other], values[other]);
        assert j == 1 || lines[j] == Rendered(values)[other];
        if j != 1 { KeysExclude(lines[j], other, k); }
      }
      OnlyOccurrence(lines, KEYS[k], place);
    }
    forall k | 0 <= k < 4 ensures Head(Block(lines)[k]) == KEYS[k] {
      KeysHaveNoColon(k);
      assert Block(lines)[k] == lines[k + 1];
      assert k == 0 || lines[k + 1] == KEYS[k] + ": " + values[k];
      HeadIsKey(lines[k + 1], KEYS[k]);
      RenderedLine(KEYS[k], values[k]);
    }
    assert Block(lines)[0] == KEYS[0];
    RenderedLine(KEYS[3], values[3]);
    assert lines[4] == Rendered(values)[3];
    CarrierIsNotBlank(lines[4], 3);
    BlankTail(lines, []);
    assert lines + [] == lines;
    IndexErrorExactly(lines);
  }

  lemma RenderedIsOneLine(k: nat, value: string)
    requires k < 4 && OneLine(value)
    ensures OneLine(KEYS[k]) && OneLine(KEYS[k] + ": " + value)
  {
    hide IsBreak;
    var key, line := KEYS[k], KEYS[k] + ": " + value;
    KeyLetters(k);
    forall c: char | ' ' <= c <= 'Z' ensures !IsBreak(c) { PrintableIsNoBreak(c); }
    forall i | 0 <= i < |line| ensures !IsBreak(line[i]) {
      assert i < |key| ==> line[i] == key[i];
      assert i >= |key| + 2 ==> line[i] == value[i - |key| - 2];
    }
  }

  lemma PrintableIsNoBreak(c: char)
    requires ' ' <= c <= 'Z'
    ensures !IsBreak(c)
  {
  }

  lemma KeyLetters(k: nat)
    requires k < 4
    ensures forall i | 0 <= i < |KEYS[k]| :: ' ' <= KEYS[k][i] <= 'Z'
  {
    match k
    case 0 => assert KEYS[k] == "PLAN-ID";
    case 1 => assert KEYS[k] == "PLAN-VERSION";
    case 2 => assert KEYS[k] == "AMENDMENT-ID";
    case _ => assert KEYS[k] == "SPRINT-ID";
  }

  /** The same as messages: each line ended by a newline, so that `splitlines` gives those lines. */
  lemma BareKeyMessageRaises(values: seq<string>)
    requires |values| == 4
    requires forall k | 0 <= k < 4 ::
      values[k] != "" && Strip(values[k]) == values[k] && OneLine(values[k])
    ensures var message := Unlines([Rendered(values)[0], KEYS[0]] + Rendered(values)[1..]);
      ParseLines(SplitLines(message)) == IndexError
  {
    hide Strip, OneLine, SplitLines, Unlines, ParseLines;
    var lines := [Rendered(values)[0], KEYS[0]] + Rendered(values)[1..];
    BareKeyRaises(values);
    RenderedIsOneLine(0, values[0]);
    forall i | 0 <= i < |lines| ensures OneLine(lines[i]) {
      if i != 1 {
        var k := if i == 0 then 0 else i - 1;
        RenderedIsOneLine(k, values[k]);
        assert lines[i] == Rendered(values)[k] == KEYS[k] + ": " + values[k];
      }
    }
    EmptyIsOneLine();
    SplitUnlines(lines, "");
    assert Unlines(lines) + "" == Unlines(lines);
    assert lines + [] == lines;
  }

  lemma EmptyIsOneLine()
    ensures OneLine("")
  {
  }

  // ---------------------------------------------------------------- any white space, any line end

  /** The code points at which a line ends, and those that count as white space. */
  lemma CodePoints(c: char)
    ensures IsBreak(c) <==> c as int in {10, 11, 12, 13, 28, 29, 30, 133, 8232, 8233}
    ensures IsSpace(c) <==>
      c as int in {9, 10, 11, 12, 13, 28, 29, 30, 31, 32, 133, 160, 5760, 8192, 8193, 8194, 8195,
                   8196, 8197, 8198, 8199, 8200, 8201, 8202, 8232, 8233, 8239, 8287, 12288}
  {
  }

  /** `inner` is the part of s between its outer white space. */
  ghost predicate Stripped(s: string, inner: string) {
    exists i, j :: 0 <= i <= j <= |s| && inner == s[i..j]
      && (forall k | 0 <= k < i || j <= k < |s| :: IsSpace(s[k]))
      && (inner == "" || (!IsSpace(inner[0]) && !IsSpace(inner[|inner| - 1])))
  }

  lemma {:induction false} StripLeftIsTail(s: string) returns (i: nat)
    ensures i <= |s| && StripLeft(s) == s[i..] && forall k | 0 <= k < i :: IsSpace(s[k])
    ensures StripLeft(s) == "" || !IsSpace(StripLeft(s)[0])
  {
    hide IsSpace;
    if s != "" && IsSpace(s[0]) {
      var n := StripLeftIsTail(s[1..]);
      i := n + 1;
      assert s[1..][n..] == s[i..];
      assert forall k | 0 < k < i :: s[k] == s[1..][k - 1];
    } else {
      i := 0;
      assert s[0..] == s;
    }
  }

  lemma {:induction false} StripRightIsHead(s: string) returns (j: nat)
    ensures j <= |s| && StripRight(s) == s[..j] && forall k | j <= k < |s| :: IsSpace(s[k])
    ensures StripRight(s) == "" || !IsSpace(StripRight(s)[|StripRight(s)| - 1])
  {
    hide IsSpace;
    if s != "" && IsSpace(s[|s| - 1]) {
      j := StripRightIsHead(s[..|s| - 1]);
      assert s[..|s| - 1][..j] == s[..j];
      assert forall k | j <= k < |s| - 1 :: s[k] == s[..|s| - 1][k];
    } else {
      j := |s|;
      assert s[..|s|] == s;
    }
  }

  lemma StripMeans(s: string)
    ensures Stripped(s, Strip(s))
  {
    hide IsSpace, StripLeft, StripRight;
    var i := StripLeftIsTail(s);
    var tail := StripLeft(s);
    var j := StripRightIsHead(tail);
    assert tail[..j] == s[i..i + j];
    forall k | 0 <= k < i || i + j <= k < |s| ensures IsSpace(s[k]) {
      if k >= i { assert s[k] == tail[k - i]; }
    }
    if Strip(s) != "" { assert Strip(s)[0] == tail[0]; }
  }

  /** Lines with their ends, each a newline or a carriage return and a newline. */
  function Joined(lines: seq<string>, ends: seq<string>): string
    requires |lines| == |ends|
  {
    if lines == [] then "" else lines[0] + ends[0] + Joined(lines[1..], ends[1..])
  }

  lemma SplitCarriage(line: string, rest: string)
    requires OneLine(line)
    ensures SplitLines(line + "\r\n" + rest) == [line] + SplitLines(rest)
  {
    hide LineLength;
    var s, n := line + "\r\n" + rest, |line|;
    assert s[n] == '\r' && IsBreak(s[n]);
    assert forall i | 0 <= i < n :: s[i] == line[i];
    assert LineLength(s) == n;
    assert s[..n] == line;
    assert "\r\n" <= s[n..];
    assert s[n + 2..] == rest;
  }

  lemma {:induction false} SplitJoined(lines: seq<string>, ends: seq<string>, last: string)
    requires |lines| == |ends| && forall i | 0 <= i < |ends| :: ends[i] == "\n" || ends[i] == "\r\n"
    requires OneLine(last) && forall i | 0 <= i < |lines| :: OneLine(lines[i])
    ensures SplitLines(Joined(lines, ends) + last) == lines + if last == "" then [] else [last]
  {
    hide OneLine, SplitLines;
    if lines == [] {
      assert Joined(lines, ends) + last == last;
      OneLineSplits(last);
    } else {
      var rest := Joined(lines[1..], ends[1..]) + last;
      assert Joined(lines, ends) + last == lines[0] + ends[0] + rest;
      if ends[0] == "\n" { SplitHead(lines[0], rest); } else { SplitCarriage(lines[0], rest); }
      SplitJoined(lines[1..], ends[1..], last);
      assert lines == [lines[0]] + lines[1..];
    }
  }

  /** Four trailers with whatever stands after their colons. */
  function Trailers(texts: seq<string>): (r: seq<string>)
    requires |texts| == 4
    ensures |r| == 4 && forall k | 0 <= k < 4 :: r[k] == KEYS[k] + ":" + texts[k]
  {
    [KEYS[0] + ":" + texts[0], KEYS[1] + ":" + texts[1], KEYS[2] + ":" + texts[2],
     KEYS[3] + ":" + texts[3]]
  }

  lemma TrailerCarries(key: string, text: string)
    ensures Carries(key + ":" + text, key) && ValueOf(key + ":" + text, key) == Strip(text)
  {
    hide Strip;
    assert (key + ":" + text)[|key| + 1..] == text;
  }

  lemma TrailersAreTerminal(body: seq<string>, texts: seq<string>)
    requires |texts| == 4 && forall k | 0 <= k < 4 :: Strip(texts[k]) != ""
    requires forall i, k | 0 <= i < |body| && 0 <= k < 4 :: !Carries(body[i], KEYS[k])
    ensures IsTerminalBlock(body + Trailers(texts))
    ensures forall k | 0 <= k < 4 ::
      ValueOf(Block(body + Trailers(texts))[k], KEYS[k]) == Strip(texts[k])
  {
    hide Strip, Carries, ValueOf, KeyAlone, Trailers;
    var lines := body + Trailers(texts);
    forall k | 0 <= k < 4
      ensures ValueOf(Block(lines)[k], KEYS[k]) == Strip(texts[k])
      ensures Carries(Block(lines)[k], KEYS[k]) && KeyAlone(lines, k)
    {
      assert Block(lines)[k] == Trailers(texts)[k];
      TrailerCarries(KEYS[k], texts[k]);
      TrailerAlone(body, texts, k);
    }
  }

  lemma TrailerAlone(body: seq<string>, texts: seq<string>, k: nat)
    requires |texts| == 4 && k < 4
    requires forall i | 0 <= i < |body| :: !Carries(body[i], KEYS[k])
    ensures KeyAlone(body + Trailers(texts), k)
  {
    hide Strip, Carries, ValueOf, Trailers;
    var lines := body + Trailers(texts);
    assert forall i | 0 <= i < |body| :: lines[i] == body[i];
    forall i | 0 <= i < |lines| && Carries(lines[i], KEYS[k]) ensures i == |lines| - 4 + k {
      if i >= |body| {
        var j := i - |body|;
        assert lines[i] == Trailers(texts)[j];
        TrailerCarries(KEYS[j], texts[j]);
        KeysExclude(lines[i], j, k);
      }
    }
  }

  /**
   The round trip at large: whatever white space surrounds the values, whether lines end in a
   newline or a carriage return and a newline, the message yields the values without it.
   */
  lemma PaddedRoundTrip(
    body: seq<string>, texts: seq<string>, blanks: seq<string>, lines: seq<string>,
    ends: seq<string>, last: string)
    requires |texts| == 4 && forall k | 0 <= k < 4 :: Strip(texts[k]) != ""
    requires forall i, k | 0 <= i < |body| && 0 <= k < 4 :: !Carries(body[i], KEYS[k])
    requires forall i | 0 <= i < |blanks| :: Strip(blanks[i]) == ""
    requires |lines| == |ends| && forall i | 0 <= i < |ends| :: ends[i] == "\n" || ends[i] == "\r\n"
    requires OneLine(last) && forall i | 0 <= i < |lines| :: OneLine(lines[i])
    requires lines + (if last == "" then [] else [last]) == body + Trailers(texts) + blanks
    ensures ParseLines(SplitLines(Joined(lines, ends) + last))
      == Parsed([Strip(texts[0]), Strip(texts[1]), Strip(texts[2]), Strip(texts[3])])
  {
    hide Strip, Carries, SplitLines, Joined, ParseLines, OneLine, Trailers;
    SplitJoined(lines, ends, last);
    TrailersParse(body, texts, blanks);
  }

  lemma TrailersParse(body: seq<string>, texts: seq<string>, blanks: seq<string>)
    requires |texts| == 4 && forall k | 0 <= k < 4 :: Strip(texts[k]) != ""
    requires forall i, k | 0 <= i < |body| && 0 <= k < 4 :: !Carries(body[i], KEYS[k])
    requires forall i | 0 <= i < |blanks| :: Strip(blanks[i]) == ""
    ensures ParseLines(body + Trailers(texts) + blanks)
      == Parsed([Strip(texts[0]), Strip(texts[1]), Strip(texts[2]), Strip(texts[3])])
  {
    hide Strip, Carries, ParseLines, ValueOf, WithoutTrailingBlank;
    var block := body + Trailers(texts);
    TrailersAreTerminal(body, texts);
    assert block[|block| - 1] == Trailers(texts)[3];
    TrailerCarries(KEYS[3], texts[3]);
    CarrierIsNotBlank(block[|block| - 1], 3);
    hide IsTerminalBlock;
    BlankTail(block, blanks);
    AcceptedExactly(block + blanks);
    assert ParseLines(block + blanks).values
      == [Strip(texts[0]), Strip(texts[1]), Strip(texts[2]), Strip(texts[3])];
  }
}
