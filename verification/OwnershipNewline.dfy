/**
 The glob meaning one would expect, in which `**` spans anything, against the meaning the compiled
 regex has, in which its dot stops at a newline. Git lists paths with newlines like any others.
 */
module OwnershipNewline {
  import opened OwnershipGlob

  /** `GlobMatch` with `**` spanning any text. */
  ghost predicate Spans(pattern: string, path: string)
    decreases |pattern|
  {
    if pattern == "" then path == ""
    else if "**" <= pattern then
      exists k: nat :: k <= |path| && Spans(pattern[2..], path[k..])
    else if pattern[0] == '*' then
      exists k: nat :: k <= |path| && Run(SegmentRun, path, k) && Spans(pattern[1..], path[k..])
    else if pattern[0] == '?' then
      path != "" && path[0] != '/' && Spans(pattern[1..], path[1..])
    else
      path != "" && path[0] == pattern[0] && Spans(pattern[1..], path[1..])
  }

  /** What the regex matches is always meant to match; on a path without newline it is all of it. */
  lemma {:induction false} MatchIsMeant(pattern: string, path: string)
    ensures GlobMatch(pattern, path) ==> Spans(pattern, path)
    ensures '\n' !in path && Spans(pattern, path) ==> GlobMatch(pattern, path)
    decreases |pattern|
  {
    if pattern == "" {
    } else if "**" <= pattern {
      forall k: nat | k <= |path|
        ensures GlobMatch(pattern[2..], path[k..]) ==> Spans(pattern[2..], path[k..])
        ensures '\n' !in path && Spans(pattern[2..], path[k..]) ==>
          GlobMatch(pattern[2..], path[k..]) && Run(AnyRun, path, k)
      {
        MatchIsMeant(pattern[2..], path[k..]);
      }
    } else if pattern[0] == '*' {
      forall k: nat | k <= |path|
        ensures GlobMatch(pattern[1..], path[k..]) ==> Spans(pattern[1..], path[k..])
        ensures '\n' !in path && Spans(pattern[1..], path[k..]) ==> GlobMatch(pattern[1..], path[k..])
      {
        MatchIsMeant(pattern[1..], path[k..]);
      }
    } else if path != "" {
      MatchIsMeant(pattern[1..], path[1..]);
    }
  }

  lemma {:induction false} WithoutDoubleStarTheyAgree(pattern: string, path: string)
    requires NoDoubleStar(pattern)
    ensures GlobMatch(pattern, path) <==> Spans(pattern, path)
    decreases |pattern|
  {
    if pattern == "" {
    } else if pattern[0] == '*' {
      forall k: nat | k <= |path|
        ensures GlobMatch(pattern[1..], path[k..]) <==> Spans(pattern[1..], path[k..])
      {
        WithoutDoubleStarTheyAgree(pattern[1..], path[k..]);
      }
    } else if path != "" {
      WithoutDoubleStarTheyAgree(pattern[1..], path[1..]);
    }
  }

  // ---------------------------------------------------------------- a path the regex misses

  /** Newlines directly before a slash: only a token other than `**` can match such a newline. */
  function Breaks(path: string): nat {
    if |path| < 2 then 0
    else (if path[0] == '\n' && path[1] == '/' then 1 else 0) + Breaks(path[1..])
  }

  /** Every token matches at most one of them. */
  lemma {:induction false} AcceptedHasFewBreaks(tokens: seq<Token>, path: string)
    requires Accepts(tokens, path)
    ensures Breaks(path) <= |tokens|
    decreases |tokens| + |path|
  {
    if tokens != [] {
      var token := tokens[0];
      if token.Literal? || token.SegmentChar? {
        AcceptedHasFewBreaks(tokens[1..], path[1..]);
      } else if Accepts(tokens[1..], path) {
        AcceptedHasFewBreaks(tokens[1..], path);
      } else {
        AcceptedHasFewBreaks(tokens, path[1..]);
        if token.SegmentRun? && |path| >= 2 && path[0] == '\n' && path[1] == '/' {
          assert !Admits(token, path[1..][0]);
          AcceptedHasFewBreaks(tokens[1..], path[1..]);
        }
      }
    }
  }

  /** n directories named by a newline. */
  function BrokenPath(n: nat): string {
    if n == 0 then "" else "\n/" + BrokenPath(n - 1)
  }

  lemma {:induction false} BrokenPathBreaks(n: nat, rest: string)
    ensures Breaks(BrokenPath(n) + rest) >= n
  {
    if n > 0 {
      var path := BrokenPath(n) + rest;
      var tail := BrokenPath(n - 1) + rest;
      BrokenPathBreaks(n - 1, rest);
      assert path == "\n/" + tail;
      assert path[1..] == "/" + tail;
      assert path[1..][1..] == tail;
      assert Breaks(path[1..]) == Breaks(tail) || |tail| == 0;
    }
  }

  /** A text the pattern is meant to match, with `span` under every `**`. */
  function Sample(pattern: string, span: string): string
    decreases |pattern|
  {
    if pattern == "" then ""
    else if "**" <= pattern then span + Sample(pattern[2..], span)
    else if pattern[0] == '*' then Sample(pattern[1..], span)
    else if pattern[0] == '?' then "x" + Sample(pattern[1..], span)
    else [pattern[0]] + Sample(pattern[1..], span)
  }

  lemma {:induction false} SampleIsMeant(pattern: string, span: string)
    ensures Spans(pattern, Sample(pattern, span))
    decreases |pattern|
  {
    var path := Sample(pattern, span);
    if pattern == "" {
    } else if "**" <= pattern {
      SampleIsMeant(pattern[2..], span);
      assert path[|span|..] == Sample(pattern[2..], span);
    } else {
      SampleIsMeant(pattern[1..], span);
      if pattern[0] == '*' {
        assert path[0..] == path;
        assert Run(SegmentRun, path, 0);
      } else {
        assert path[1..] == Sample(pattern[1..], span);
      }
    }
  }

  lemma BreaksOfTail(c: char, rest: string)
    ensures Breaks([c] + rest) >= Breaks(rest)
  {
    assert ([c] + rest)[1..] == rest;
  }

  lemma {:induction false} SampleBreaks(pattern: string, n: nat)
    requires !NoDoubleStar(pattern)
    ensures Breaks(Sample(pattern, BrokenPath(n))) >= n
    decreases |pattern|
  {
    var span := BrokenPath(n);
    if "**" <= pattern {
      BrokenPathBreaks(n, Sample(pattern[2..], span));
    } else {
      SampleBreaks(pattern[1..], n);
      if pattern[0] != '*' {
        BreaksOfTail(if pattern[0] == '?' then 'x' else pattern[0], Sample(pattern[1..], span));
      }
    }
  }

  /** The path on which a pattern with `**` falls short of its meaning. */
  function MissedPath(pattern: string): string {
    Sample(pattern, BrokenPath(|Tokens(pattern)| + 1))
  }

  lemma MissedPathIsMissed(pattern: string)
    requires !NoDoubleStar(pattern)
    ensures Spans(pattern, MissedPath(pattern)) && !GlobMatch(pattern, MissedPath(pattern))
  {
    SampleIsMeant(pattern, BrokenPath(|Tokens(pattern)| + 1));
    SampleBreaks(pattern, |Tokens(pattern)| + 1);
    if GlobMatch(pattern, MissedPath(pattern)) {
      CompiledMatchIsGlobMatch(pattern, MissedPath(pattern));
      AcceptedHasFewBreaks(Tokens(pattern), MissedPath(pattern));
    }
  }

  // ---------------------------------------------------------------- the exact conditions

  ghost predicate AgreesOnAllPaths(pattern: string) {
    forall path :: GlobMatch(pattern, path) <==> Spans(pattern, path)
  }

  ghost predicate AgreesForAllPatterns(path: string) {
    forall pattern :: GlobMatch(pattern, path) <==> Spans(pattern, path)
  }

  /** A pattern means what it should on every path exactly if it has no `**`. */
  lemma PatternGuarantee(pattern: string)
    ensures AgreesOnAllPaths(pattern) <==> NoDoubleStar(pattern)
  {
    if NoDoubleStar(pattern) {
      forall path ensures GlobMatch(pattern, path) <==> Spans(pattern, path) {
        WithoutDoubleStarTheyAgree(pattern, path);
      }
    } else {
      MissedPathIsMissed(pattern);
    }
  }

  /** Every pattern means what it should on a path exactly if the path has no newline. */
  lemma PathGuarantee(path: string)
    ensures AgreesForAllPatterns(path) <==> '\n' !in path
  {
    if '\n' !in path {
      forall pattern ensures GlobMatch(pattern, path) <==> Spans(pattern, path) {
        MatchIsMeant(pattern, path);
      }
    } else {
      EverythingIsMissed(path);
    }
  }

  lemma EverythingIsMissed(path: string)
    requires '\n' in path
    ensures Spans("**", path) && !GlobMatch("**", path)
  {
    var stars := "**";
    assert stars[2..] == "";
    assert path[|path|..] == "";
    assert Spans(stars[2..], path[|path|..]);
  }

  /** Plain characters are matched by themselves and can be taken off both sides. */
  lemma {:induction false} PlainPrefix(prefix: string, pattern: string, path: string)
    requires '*' !in prefix && '?' !in prefix
    ensures Spans(prefix + pattern, prefix + path) <==> Spans(pattern, path)
    ensures GlobMatch(prefix + pattern, prefix + path) <==> GlobMatch(pattern, path)
  {
    if prefix == "" {
      assert prefix + pattern == pattern && prefix + path == path;
    } else {
      assert (prefix + pattern)[1..] == prefix[1..] + pattern;
      assert (prefix + path)[1..] == prefix[1..] + path;
      assert (prefix + pattern)[0] == prefix[0] && prefix[0] in prefix;
      PlainPrefix(prefix[1..], pattern, path);
    }
  }

  // Below any directory, a path with a newline is missed by the directory's own double star.
  lemma MissedBelow(directory: string, path: string)
    requires '*' !in directory && '?' !in directory && '\n' in path
    ensures Spans(directory + "**", directory + path)
    ensures !GlobMatch(directory + "**", directory + path)
  {
    PlainPrefix(directory, "**", path);
    EverythingIsMissed(path);
  }

  lemma UnownedFile()
    ensures Spans("src/" + "**", "src/a\nb") && !GlobMatch("src/" + "**", "src/a\nb")
  {
    MissedBelow("src/", "a\nb");
    assert "src/" + "a\nb" == "src/a\nb";
  }
}
