/** Optional values, code-point order on strings, and the sorting and set idioms the tools rely on. */
module Text {

  datatype Option<+T> = None | Some(value: T)

  /** Python's `<` on strings. */
  predicate Less(a: string, b: string) {
    if b == "" then false
    else if a == "" then true
    else a[0] < b[0] || (a[0] == b[0] && Less(a[1..], b[1..]))
  }

  lemma {:induction false} LessIsStrictTotal(a: string, b: string)
    ensures !(Less(a, b) && Less(b, a))
    ensures a == b <==> !Less(a, b) && !Less(b, a)
  {
    if a != "" && b != "" {
      LessIsStrictTotal(a[1..], b[1..]);
      if a[0] == b[0] && a[1..] == b[1..] {
        assert a == [a[0]] + a[1..];
        assert b == [b[0]] + b[1..];
      }
    }
  }

  lemma {:induction false} LessIsTransitive(a: string, b: string, c: string)
    requires Less(a, b) && Less(b, c)
    ensures Less(a, c)
  {
    if a != "" && a[0] == b[0] && b[0] == c[0] {
      LessIsTransitive(a[1..], b[1..], c[1..]);
    }
  }

  /** Sorted and free of duplicates. */
  predicate Increasing(xs: seq<string>) {
    forall i, j :: 0 <= i < j < |xs| ==> Less(xs[i], xs[j])
  }

  function Insert(x: string, xs: seq<string>): (r: seq<string>)
    requires Increasing(xs)
    ensures forall y :: y in r <==> y == x || y in xs
    ensures Increasing(r)
  {
    if xs == [] then [x]
    else if x == xs[0] then xs
    else if Less(x, xs[0]) then
      assert forall j :: 0 < j < |xs| ==> Less(x, xs[j]) by {
        forall j | 0 < j < |xs| ensures Less(x, xs[j]) { LessIsTransitive(x, xs[0], xs[j]); }
      }
      [x] + xs
    else
      LessIsStrictTotal(x, xs[0]);
      var rest := Insert(x, xs[1..]);
      assert forall y :: y in rest ==> Less(xs[0], y);
      [xs[0]] + rest
  }

  /** `sorted(set(xs))`; it is `sorted(xs)` when `xs` has no duplicates. */
  function SortDistinct(xs: seq<string>): (r: seq<string>)
    ensures Increasing(r)
    ensures forall x :: x in r <==> x in xs
  {
    if xs == [] then [] else Insert(xs[0], SortDistinct(xs[1..]))
  }

  lemma ElementsEmpty<T>(xs: seq<T>)
    ensures Elements(xs) == {} <==> xs == []
  {
    if xs != [] { assert xs[0] in Elements(xs); }
  }

  /** A set has one increasing listing, so sorting forgets the input order. */
  lemma {:induction false} IncreasingListingIsUnique(a: seq<string>, b: seq<string>)
    requires Increasing(a) && Increasing(b)
    requires forall x :: x in a <==> x in b
    ensures a == b
  {
    assert Elements(a) == Elements(b);
    ElementsEmpty(a);
    ElementsEmpty(b);
    if a != [] {
      assert a[0] in b && b[0] in a;
      if a[0] != b[0] { LessIsStrictTotal(a[0], b[0]); assert false; }
      forall x ensures x in a[1..] <==> x in b[1..] {
        LessIsStrictTotal(a[0], a[0]);
        if x in a[1..] { assert x in b; }
        if x in b[1..] { assert x in a; }
      }
      IncreasingListingIsUnique(a[1..], b[1..]);
      assert a == [a[0]] + a[1..] && b == [b[0]] + b[1..];
    }
  }

  /** The digest does not confuse these two values. */
  predicate Apart<T(==)>(sha: T -> string, a: T, b: T) {
    sha(a) == sha(b) ==> a == b
  }

  predicate Distinct<T(==)>(xs: seq<T>) {
    forall i, j :: 0 <= i < j < |xs| ==> xs[i] != xs[j]
  }

  function Elements<T>(xs: seq<T>): (s: set<T>) {
    set x | x in xs
  }

  lemma {:induction false} DistinctCardinality<T>(xs: seq<T>)
    requires Distinct(xs)
    ensures |Elements(xs)| == |xs|
  {
    if xs != [] {
      DistinctCardinality(xs[1..]);
      assert Elements(xs) == {xs[0]} + Elements(xs[1..]);
    }
  }

  lemma SubsetSize<T>(small: set<T>, large: set<T>)
    requires small <= large
    ensures |small| <= |large|
  {
    assert large == small + (large - small);
  }

  /** The parts of a slash-separated name. */
  function Components(name: string): (r: seq<string>)
    ensures r != []
  {
    if name == "" then [""]
    else
      var rest := Components(name[1..]);
      if name[0] == '/' then [""] + rest else [[name[0]] + rest[0]] + rest[1..]
  }

  function JoinParts(parts: seq<string>): string {
    if parts == [] then "" else if |parts| == 1 then parts[0] else parts[0] + "/" + JoinParts(parts[1..])
  }

  /** The parts hold no slash, and with slashes between them they are the name. */
  lemma {:induction false} ComponentsJoin(name: string)
    ensures JoinParts(Components(name)) == name
    ensures forall part | part in Components(name) :: '/' !in part
  {
    if name != "" {
      var rest := Components(name[1..]);
      ComponentsJoin(name[1..]);
      assert name == [name[0]] + name[1..];
      if name[0] == '/' {
        assert ([""] + rest)[1..] == rest;
      } else {
        assert ([[name[0]] + rest[0]] + rest[1..])[1..] == rest[1..];
        assert [name[0]] + (rest[0] + "/" + JoinParts(rest[1..]))
          == ([name[0]] + rest[0]) + "/" + JoinParts(rest[1..]);
        assert rest[0] in rest;
        assert forall part | part in rest[1..] :: part in rest;
      }
    }
  }

  /** The parts are determined by the name. */
  lemma {:induction false} ComponentsOfJoin(parts: seq<string>)
    requires parts != [] && forall part | part in parts :: '/' !in part
    ensures Components(JoinParts(parts)) == parts
    decreases |parts|, |parts[0]|
  {
    var name, first := JoinParts(parts), parts[0];
    assert first in parts;
    if first == "" {
      if |parts| > 1 {
        assert forall part | part in parts[1..] :: part in parts;
        ComponentsOfJoin(parts[1..]);
        assert name[1..] == JoinParts(parts[1..]) && name[0] == '/';
        assert parts == [""] + parts[1..];
      } else {
        assert parts == [""];
      }
    } else {
      var shorter := [first[1..]] + parts[1..];
      assert forall part | part in parts[1..] :: part in parts;
      assert shorter[1..] == parts[1..];
      assert '/' !in first[1..];
      ComponentsOfJoin(shorter);
      assert name[0] == first[0] && name[0] != '/';
      assert name[1..] == JoinParts(shorter);
      assert [first[0]] + first[1..] == first && [first] + parts[1..] == parts;
    }
  }

  // ---------------------------------------------------------------- sorting with repetitions

  predicate Ascending(xs: seq<string>) {
    forall i, j :: 0 <= i < j < |xs| ==> !Less(xs[j], xs[i])
  }

  function Place(x: string, xs: seq<string>): (r: seq<string>)
    requires Ascending(xs)
    ensures Ascending(r) && multiset(r) == multiset{x} + multiset(xs)
  {
    if xs == [] then [x]
    else if !Less(xs[0], x) then
      PlacedFirst(x, xs);
      [x] + xs
    else
      assert xs == [xs[0]] + xs[1..];
      var rest := Place(x, xs[1..]);
      PlacedLater(x, xs, rest);
      [xs[0]] + rest
  }

  lemma PlacedFirst(x: string, xs: seq<string>)
    requires xs != [] && Ascending(xs) && !Less(xs[0], x)
    ensures Ascending([x] + xs)
  {
    forall j | 0 <= j < |xs| ensures !Less(xs[j], x) {
      if Less(xs[j], x) && j > 0 {
        assert !Less(xs[j], xs[0]);
        LessIsStrictTotal(xs[0], xs[j]);
        if xs[0] != xs[j] { LessIsTransitive(xs[0], xs[j], x); }
      }
    }
  }

  lemma PlacedLater(x: string, xs: seq<string>, rest: seq<string>)
    requires xs != [] && Ascending(xs) && Less(xs[0], x) && Ascending(rest)
    requires multiset(rest) == multiset{x} + multiset(xs[1..])
    ensures Ascending([xs[0]] + rest)
  {
    forall j | 0 <= j < |rest| ensures !Less(rest[j], xs[0]) {
      assert rest[j] in multiset(rest);
      if rest[j] == x {
        LessIsStrictTotal(xs[0], x);
      } else {
        assert rest[j] in xs[1..];
      }
    }
  }

  /** `sorted(xs)`. */
  function Sort(xs: seq<string>): (r: seq<string>)
    ensures Ascending(r) && multiset(r) == multiset(xs)
  {
    if xs == [] then []
    else
      assert xs == [xs[0]] + xs[1..];
      Place(xs[0], Sort(xs[1..]))
  }
}
