/**
 The ownership glob compiler of tools/validate_contracts.py: `re.escape` followed by three textual
 rewrites. Only the regex fragment those rewrites produce is given a meaning here.
 */
module OwnershipGlob {
  import opened Text

  // ---------------------------------------------------------------- the staged rewrite

  const SPECIAL := "()[]{}?*+-|^$\\.&~# \t\n\r\U{000B}\U{000C}"

  function EscapeChar(c: char): string {
    if c in SPECIAL then ['\\', c] else [c]
  }

  /** `re.escape`. */
  function Escape(s: string): string {
    if s == "" then "" else EscapeChar(s[0]) + Escape(s[1..])
  }

  /** `str.replace`: leftmost, non-overlapping. */
  function Replace(s: string, old_: string, new_: string): string
    requires old_ != ""
    decreases |s|
  {
    if s == "" then ""
    else if old_ <= s then new_ + Replace(s[|old_|..], old_, new_)
    else [s[0]] + Replace(s[1..], old_, new_)
  }

  const STAR := "\\*"
  const TWO_STARS := "\\*\\*"
  const QUESTION := "\\?"
  const ANY_RUN := ".*"
  const SEGMENT_RUN := "[^/]*"
  const SEGMENT_CHAR := "[^/]"

  function Staged(pattern: string): string {
    Replace(Replace(Replace(Escape(pattern), TWO_STARS, ANY_RUN), STAR, SEGMENT_RUN),
            QUESTION, SEGMENT_CHAR)
  }

  // ---------------------------------------------------------------- one left-to-right pass

  datatype Token = Literal(c: char) | AnyRun | SegmentRun | SegmentChar

  function Tokens(pattern: string): seq<Token>
    decreases |pattern|
  {
    if pattern == "" then []
    else if "**" <= pattern then [AnyRun] + Tokens(pattern[2..])
    else
      [match pattern[0] case '*' => SegmentRun case '?' => SegmentChar case c => Literal(c)]
      + Tokens(pattern[1..])
  }

  function Render(token: Token): string {
    match token
    case Literal(c) => EscapeChar(c)
    case AnyRun => ANY_RUN
    case SegmentRun => SEGMENT_RUN
    case SegmentChar => SEGMENT_CHAR
  }

  function RenderAll(tokens: seq<Token>): string {
    if tokens == [] then "" else Render(tokens[0]) + RenderAll(tokens[1..])
  }

  /** Text of the intermediate stages: a token is rewritten once its stage has run. */
  function Partial(token: Token, stage: nat): string {
    match token
    case SegmentRun => if stage >= 2 then SEGMENT_RUN else STAR
    case SegmentChar => if stage >= 3 then SEGMENT_CHAR else QUESTION
    case _ => Render(token)
  }

  function PartialAll(tokens: seq<Token>, stage: nat): string {
    if tokens == [] then "" else Partial(tokens[0], stage) + PartialAll(tokens[1..], stage)
  }

  lemma HeadOfPartial(tokens: seq<Token>, stage: nat)
    ensures var s := PartialAll(tokens, stage);
      s == "" || (s[0] != '*' && s[0] != '?')
  {
  }

  lemma HeadOfEscape(s: string)
    ensures Escape(s) == "" || (Escape(s)[0] != '*' && Escape(s)[0] != '?')
  {
  }

  /** A rewrite of an escape sequence passes over text that has no backslash. */
  lemma {:induction false} ReplacePlain(x: string, s: string, old_: string, new_: string)
    requires |old_| > 0 && old_[0] == '\\' && '\\' !in x
    ensures Replace(x + s, old_, new_) == x + Replace(s, old_, new_)
  {
    if x == "" {
      assert x + s == s;
    } else {
      assert (x + s)[0] == x[0] && (x + s)[1..] == x[1..] + s;
      ReplacePlain(x[1..], s, old_, new_);
    }
  }

  /** It also passes over an escaped character other than the one it looks for. */
  lemma ReplaceOther(c: char, s: string, old_: string, new_: string)
    requires |old_| > 1 && old_[0] == '\\' && old_[1] != '\\' && c != old_[1]
    requires s == "" || s[0] != old_[1]
    ensures Replace(['\\', c] + s, old_, new_) == ['\\', c] + Replace(s, old_, new_)
  {
    var whole := ['\\', c] + s;
    assert whole[1] == c && whole[1..] == [c] + s && ([c] + s)[1..] == s;
    assert !(old_ <= whole);
    assert !(old_ <= [c] + s);
  }

  lemma ReplaceHit(s: string, old_: string, new_: string)
    requires old_ != ""
    ensures Replace(old_ + s, old_, new_) == new_ + Replace(s, old_, new_)
  {
    assert (old_ + s)[|old_|..] == s;
  }

  lemma PartialCons(token: Token, tokens: seq<Token>, stage: nat)
    ensures PartialAll([token] + tokens, stage) == Partial(token, stage) + PartialAll(tokens, stage)
  {
    assert ([token] + tokens)[1..] == tokens;
  }

  /** Stages two and three on one token before an already escaped rest. */
  lemma StageOnToken(token: Token, rest: string, stage: nat)
    requires 1 <= stage <= 2
    requires token.Literal? ==> token.c != '*' && token.c != '?'
    requires rest == "" || (rest[0] != '*' && rest[0] != '?')
    ensures Replace(Partial(token, stage) + rest, Rewritten(stage), Replacement(stage))
         == Partial(token, stage + 1) + Replace(rest, Rewritten(stage), Replacement(stage))
  {
    hide Replace;
    var old_, new_ := Rewritten(stage), Replacement(stage);
    match token {
      case Literal(c) =>
        if c in SPECIAL { ReplaceOther(c, rest, old_, new_); } else { ReplacePlain([c], rest, old_, new_); }
      case AnyRun => ReplacePlain(ANY_RUN, rest, old_, new_);
      case SegmentRun =>
        if stage == 1 { ReplaceHit(rest, old_, new_); } else { ReplacePlain(SEGMENT_RUN, rest, old_, new_); }
      case SegmentChar =>
        if stage == 1 { ReplaceOther('?', rest, old_, new_); } else { ReplaceHit(rest, old_, new_); }
    }
  }

  /** What the stage after `stage` looks for, and what it puts there. */
  function Rewritten(stage: nat): (r: string)
    ensures r != ""
  {
    if stage == 1 then STAR else QUESTION
  }

  function Replacement(stage: nat): string {
    if stage == 1 then SEGMENT_RUN else SEGMENT_CHAR
  }

  /** Stages two and three, token by token. */
  lemma {:induction false} StageRewrites(tokens: seq<Token>, stage: nat)
    requires 1 <= stage <= 2
    requires forall t | t in tokens :: t.Literal? ==> t.c != '*' && t.c != '?'
    ensures Replace(PartialAll(tokens, stage), Rewritten(stage), Replacement(stage))
         == PartialAll(tokens, stage + 1)
  {
    hide Partial, Rewritten, Replacement;
    if tokens == [] {
      assert Replace("", Rewritten(stage), Replacement(stage)) == "";
    } else {
      hide Replace;
      StageRewrites(tokens[1..], stage);
      HeadOfPartial(tokens[1..], stage);
      StageOnToken(tokens[0], PartialAll(tokens[1..], stage), stage);
    }
  }

  lemma EscapedStar(s: string)
    requires s != "" && s[0] == '*'
    ensures Escape(s) == STAR + Escape(s[1..])
  {
  }

  lemma TwoStars(pattern: string)
    requires "**" <= pattern
    ensures Escape(pattern) == TWO_STARS + Escape(pattern[2..])
    ensures Tokens(pattern) == [AnyRun] + Tokens(pattern[2..])
  {
    hide Escape;
    var tail := pattern[1..];
    assert pattern[0] == '*' && tail[0] == '*' && tail[1..] == pattern[2..];
    EscapedStar(tail);
    EscapedStar(pattern);
    assert STAR + STAR == TWO_STARS;
  }

  /** Stage one pairs the stars from the left, as the tokens do. */
  lemma {:induction false} StageOne(pattern: string)
    ensures Replace(Escape(pattern), TWO_STARS, ANY_RUN) == PartialAll(Tokens(pattern), 1)
    decreases |pattern|
  {
    hide Replace, PartialAll;
    if pattern == "" {
      NothingToReplace();
    } else if "**" <= pattern {
      TwoStars(pattern);
      ReplaceHit(Escape(pattern[2..]), TWO_STARS, ANY_RUN);
      StageOne(pattern[2..]);
      PartialCons(AnyRun, Tokens(pattern[2..]), 1);
    } else {
      var rest := Escape(pattern[1..]);
      var c := pattern[0];
      StageOne(pattern[1..]);
      HeadOfEscape(pattern[1..]);
      PartialCons(Tokens(pattern)[0], Tokens(pattern[1..]), 1);
      if c == '*' {
        LoneStar(pattern);
      } else if c in SPECIAL {
        ReplaceOther(c, rest, TWO_STARS, ANY_RUN);
      } else {
        ReplacePlain([c], rest, TWO_STARS, ANY_RUN);
      }
    }
  }

  lemma NothingToReplace()
    ensures Replace(Escape(""), TWO_STARS, ANY_RUN) == PartialAll(Tokens(""), 1)
  {
  }

  lemma NotTwoStars(rest: string)
    requires |rest| < 2 || rest[0] != '\\' || rest[1] != '*'
    ensures !(TWO_STARS <= STAR + rest)
  {
    if |rest| >= 2 { assert (STAR + rest)[2] == rest[0] && (STAR + rest)[3] == rest[1]; }
  }

  /** An escape sequence for a star can only stand at the head of the escape of a star. */
  lemma NoStarAtHead(s: string)
    requires s == "" || s[0] != '*'
    ensures |Escape(s)| < 2 || Escape(s)[0] != '\\' || Escape(s)[1] != '*'
  {
    if s != "" {
      hide Escape;
      EscapeUnfolds(s);
      if s[0] !in SPECIAL { assert Escape(s)[0] == s[0]; } else { assert Escape(s)[1] == s[0]; }
    }
  }

  lemma EscapeUnfolds(s: string)
    requires s != ""
    ensures Escape(s) == EscapeChar(s[0]) + Escape(s[1..])
  {
  }

  lemma ReplaceMiss(s: string, old_: string, new_: string)
    requires old_ != "" && s != "" && !(old_ <= s)
    ensures Replace(s, old_, new_) == [s[0]] + Replace(s[1..], old_, new_)
  {
  }

  lemma LoneStar(pattern: string)
    requires pattern != "" && pattern[0] == '*' && !("**" <= pattern)
    ensures Replace(Escape(pattern), TWO_STARS, ANY_RUN)
         == STAR + Replace(Escape(pattern[1..]), TWO_STARS, ANY_RUN)
  {
    hide Escape, Replace;
    var rest := Escape(pattern[1..]);
    EscapedStar(pattern);
    NoStarAtHead(pattern[1..]);
    NotTwoStars(rest);
    ReplaceMiss(STAR + rest, TWO_STARS, ANY_RUN);
    assert (STAR + rest)[1..] == "*" + rest;
    ReplacePlain("*", rest, TWO_STARS, ANY_RUN);
  }

  lemma {:induction false} TokensHaveNoRawWildcard(pattern: string)
    ensures forall t | t in Tokens(pattern) :: t.Literal? ==> t.c != '*' && t.c != '?'
    decreases |pattern|
  {
    if pattern != "" {
      TokensHaveNoRawWildcard(pattern[1..]);
      if "**" <= pattern { TokensHaveNoRawWildcard(pattern[2..]); }
    }
  }

  lemma {:induction false} FullyRewritten(tokens: seq<Token>)
    ensures PartialAll(tokens, 3) == RenderAll(tokens)
  {
    if tokens != [] { FullyRewritten(tokens[1..]); }
  }

  /** The three rewrites together equal one left-to-right compile, for every pattern. */
  lemma StagedIsOnePass(pattern: string)
    ensures Staged(pattern) == RenderAll(Tokens(pattern))
  {
    StageOne(pattern);
    TokensHaveNoRawWildcard(pattern);
    StageRewrites(Tokens(pattern), 1);
    StageRewrites(Tokens(pattern), 2);
    FullyRewritten(Tokens(pattern));
  }

  // ---------------------------------------------------------------- reading the regex back

  /** What has a meaning of its own in a regex, outside a character class. */
  const METACHARACTERS := ".^$*+?{}[]\\|()"

  /** A backslash before anything but an ASCII letter or digit makes it stand for itself. */
  predicate Escapable(c: char) {
    !('a' <= c <= 'z') && !('A' <= c <= 'Z') && !('0' <= c <= '9')
  }

  /** The meaning a regex engine gives the produced fragment; anything else is not in it. */
  function Parse(regex: string): Option<seq<Token>>
    decreases |regex|
  {
    if regex == "" then Some([])
    else if regex[0] == '\\' then
      if |regex| > 1 && Escapable(regex[1]) then Prepend(Literal(regex[1]), Parse(regex[2..])) else None
    else if ANY_RUN <= regex then Prepend(AnyRun, Parse(regex[2..]))
    else if SEGMENT_RUN <= regex then Prepend(SegmentRun, Parse(regex[5..]))
    else if SEGMENT_CHAR <= regex then Prepend(SegmentChar, Parse(regex[4..]))
    else if regex[0] in METACHARACTERS then None
    else Prepend(Literal(regex[0]), Parse(regex[1..]))
  }

  function Prepend(token: Token, rest: Option<seq<Token>>): Option<seq<Token>> {
    if rest.Some? then Some([token] + rest.value) else None
  }

  /** Whatever is escaped may be, and whatever has a meaning is escaped. */
  lemma SpecialIsEnough()
    ensures forall c | c in SPECIAL :: Escapable(c)
    ensures forall c | c in METACHARACTERS :: c in SPECIAL
  {
    assert forall i | 0 <= i < |SPECIAL| :: Escapable(SPECIAL[i]);
    MetacharactersAreSpecial();
  }

  lemma MetacharactersAreSpecial()
    ensures forall c | c in METACHARACTERS :: c in SPECIAL
  {
    var place := [14, 11, 12, 7, 8, 6, 4, 5, 2, 3, 13, 10, 0, 1];
    forall i | 0 <= i < |METACHARACTERS| ensures METACHARACTERS[i] in SPECIAL {
      assert METACHARACTERS[i] == SPECIAL[place[i]];
    }
  }

  /** A rendered token is read back; the text after it never begins with a raw `*`. */
  lemma HeadParsesBack(token: Token, rest: string)
    requires rest == "" || rest[0] != '*'
    ensures Parse(Render(token) + rest) == Prepend(token, Parse(rest))
  {
    var regex := Render(token) + rest;
    SpecialIsEnough();
    match token {
      case Literal(c) =>
        if c in SPECIAL { assert regex[2..] == rest; } else { assert regex[1..] == rest; }
      case AnyRun => assert regex[2..] == rest;
      case SegmentRun => assert regex[5..] == rest;
      case SegmentChar =>
        assert regex[4..] == rest;
        assert !(SEGMENT_RUN <= regex) by { if rest != "" { assert regex[4] == rest[0]; } }
    }
  }

  lemma {:induction false} RenderedParsesBack(tokens: seq<Token>)
    ensures Parse(RenderAll(tokens)) == Some(tokens)
  {
    if tokens != [] {
      hide Parse, Render;
      RenderedParsesBack(tokens[1..]);
      FullyRewritten(tokens[1..]);
      HeadOfPartial(tokens[1..], 3);
      HeadParsesBack(tokens[0], RenderAll(tokens[1..]));
      assert tokens == [tokens[0]] + tokens[1..];
    }
  }

  // ---------------------------------------------------------------- matching

  /** A dot does not match a newline; a negated class does. */
  predicate Admits(token: Token, c: char) {
    match token
    case Literal(l) => c == l
    case AnyRun => c != '\n'
    case _ => c != '/'
  }

  predicate InLanguage(token: Token, piece: string) {
    && (forall i | 0 <= i < |piece| :: Admits(token, piece[i]))
    && (token.Literal? || token.SegmentChar? ==> |piece| == 1)
  }

  function Concat(pieces: seq<string>): string {
    if pieces == [] then "" else pieces[0] + Concat(pieces[1..])
  }

  /** Full match: the text splits into one piece for each token. */
  ghost predicate Splits(tokens: seq<Token>, path: string, pieces: seq<string>) {
    && |pieces| == |tokens| && Concat(pieces) == path
    && forall i | 0 <= i < |tokens| :: InLanguage(tokens[i], pieces[i])
  }

  ghost predicate FullMatch(regex: string, path: string) {
    Parse(regex).Some? && exists pieces :: Splits(Parse(regex).value, path, pieces)
  }

  /** The same by backtracking, one character at a time. */
  predicate Accepts(tokens: seq<Token>, path: string)
    decreases |tokens| + |path|
  {
    if tokens == [] then path == ""
    else
      var token := tokens[0];
      if token.Literal? || token.SegmentChar? then
        path != "" && Admits(token, path[0]) && Accepts(tokens[1..], path[1..])
      else
        || Accepts(tokens[1..], path)
        || (path != "" && Admits(token, path[0]) && Accepts(tokens, path[1..]))
  }

  lemma {:induction false} SplitIsAccepted(tokens: seq<Token>, path: string, pieces: seq<string>)
    requires Splits(tokens, path, pieces)
    ensures Accepts(tokens, path)
    decreases |tokens| + |path|
  {
    if tokens != [] {
      var piece, rest := pieces[0], Concat(pieces[1..]);
      assert InLanguage(tokens[0], piece);
      if piece == "" {
        assert path == rest;
        assert Splits(tokens[1..], path, pieces[1..]);
        SplitIsAccepted(tokens[1..], path, pieces[1..]);
      } else if tokens[0].Literal? || tokens[0].SegmentChar? {
        assert path[1..] == rest;
        assert Splits(tokens[1..], rest, pieces[1..]);
        SplitIsAccepted(tokens[1..], rest, pieces[1..]);
      } else {
        var shorter := [piece[1..]] + pieces[1..];
        assert shorter[1..] == pieces[1..];
        assert path[1..] == piece[1..] + rest;
        assert Splits(tokens, path[1..], shorter);
        SplitIsAccepted(tokens, path[1..], shorter);
      }
    }
  }

  lemma {:induction false} AcceptedSplits(tokens: seq<Token>, path: string) returns (pieces: seq<string>)
    requires Accepts(tokens, path)
    ensures Splits(tokens, path, pieces)
    decreases |tokens| + |path|
  {
    if tokens == [] {
      pieces := [];
    } else if tokens[0].Literal? || tokens[0].SegmentChar? {
      var rest := AcceptedSplits(tokens[1..], path[1..]);
      pieces := [[path[0]]] + rest;
      assert pieces[1..] == rest;
      assert path == [path[0]] + path[1..];
    } else if Accepts(tokens[1..], path) {
      var rest := AcceptedSplits(tokens[1..], path);
      pieces := [""] + rest;
      assert pieces[1..] == rest;
    } else {
      var longer := AcceptedSplits(tokens, path[1..]);
      pieces := [[path[0]] + longer[0]] + longer[1..];
      assert pieces[1..] == longer[1..];
      assert path == [path[0]] + path[1..];
      assert InLanguage(tokens[0], longer[0]);
    }
  }

  /**
   The meaning of a glob, read off the pattern itself: `**` spans any newline-free text, `*` any
   text within a segment, `?` one character of a segment, everything else stands for itself.
   */
  ghost predicate GlobMatch(pattern: string, path: string)
    decreases |pattern|
  {
    if pattern == "" then path == ""
    else if "**" <= pattern then
      exists k: nat :: k <= |path| && Run(AnyRun, path, k) && GlobMatch(pattern[2..], path[k..])
    else if pattern[0] == '*' then
      exists k: nat :: k <= |path| && Run(SegmentRun, path, k) && GlobMatch(pattern[1..], path[k..])
    else if pattern[0] == '?' then
      path != "" && path[0] != '/' && GlobMatch(pattern[1..], path[1..])
    else
      path != "" && path[0] == pattern[0] && GlobMatch(pattern[1..], path[1..])
  }

  ghost predicate Run(token: Token, path: string, k: nat) {
    k <= |path| && forall i | 0 <= i < k :: Admits(token, path[i])
  }

  predicate IsRun(token: Token) {
    token.AnyRun? || token.SegmentRun?
  }

  lemma {:induction false} AcceptedRun(tokens: seq<Token>, path: string) returns (k: nat)
    requires tokens != [] && IsRun(tokens[0]) && Accepts(tokens, path)
    ensures k <= |path| && Run(tokens[0], path, k) && Accepts(tokens[1..], path[k..])
    decreases |path|
  {
    if Accepts(tokens[1..], path) {
      k := 0;
      assert path[0..] == path;
    } else {
      var shorter := AcceptedRun(tokens, path[1..]);
      k := shorter + 1;
      assert path[1..][shorter..] == path[k..];
      assert Admits(tokens[0], path[0]);
      assert forall i | 1 <= i < k :: path[i] == path[1..][i - 1];
    }
  }

  lemma {:induction false} RunIsAccepted(tokens: seq<Token>, path: string, k: nat)
    requires tokens != [] && IsRun(tokens[0]) && k <= |path|
    requires Run(tokens[0], path, k) && Accepts(tokens[1..], path[k..])
    ensures Accepts(tokens, path)
    decreases k
  {
    if k == 0 {
      assert path[0..] == path;
    } else {
      assert path[k..] == path[1..][k - 1..];
      assert Admits(tokens[0], path[0]);
      assert forall i | 0 <= i < k - 1 :: path[1..][i] == path[i + 1];
      RunIsAccepted(tokens, path[1..], k - 1);
    }
  }

  /** Backtracking over a run finds exactly the lengths the run may have. */
  lemma AcceptsRun(tokens: seq<Token>, path: string)
    requires tokens != [] && IsRun(tokens[0])
    ensures Accepts(tokens, path) <==>
      exists k: nat :: k <= |path| && Run(tokens[0], path, k) && Accepts(tokens[1..], path[k..])
  {
    hide Accepts, Run;
    if Accepts(tokens, path) { var _ := AcceptedRun(tokens, path); }
    forall k: nat | k <= |path| && Run(tokens[0], path, k) && Accepts(tokens[1..], path[k..])
      ensures Accepts(tokens, path)
    {
      RunIsAccepted(tokens, path, k);
    }
  }

  lemma {:induction false} TokensMatchLikeTheGlob(pattern: string, path: string)
    ensures Accepts(Tokens(pattern), path) <==> GlobMatch(pattern, path)
    decreases |pattern|
  {
    if pattern != "" {
      var tokens := Tokens(pattern);
      if "**" <= pattern || pattern[0] == '*' {
        var rest := if "**" <= pattern then pattern[2..] else pattern[1..];
        assert tokens[1..] == Tokens(rest);
        AcceptsRun(tokens, path);
        forall k: nat | k <= |path|
          ensures Accepts(Tokens(rest), path[k..]) <==> GlobMatch(rest, path[k..])
        {
          TokensMatchLikeTheGlob(rest, path[k..]);
        }
      } else {
        assert tokens[1..] == Tokens(pattern[1..]);
        if path != "" { TokensMatchLikeTheGlob(pattern[1..], path[1..]); }
      }
    }
  }

  /** Compiling and matching means what the glob means, for every pattern and path. */
  lemma CompiledMatchIsGlobMatch(pattern: string, path: string)
    ensures FullMatch(Staged(pattern), path) <==> GlobMatch(pattern, path)
    ensures Accepts(Tokens(pattern), path) <==> GlobMatch(pattern, path)
  {
    StagedIsOnePass(pattern);
    RenderedParsesBack(Tokens(pattern));
    TokensMatchLikeTheGlob(pattern, path);
    if GlobMatch(pattern, path) { var _ := AcceptedSplits(Tokens(pattern), path); }
    if FullMatch(Staged(pattern), path) {
      var pieces :| Splits(Tokens(pattern), path, pieces);
      SplitIsAccepted(Tokens(pattern), path, pieces);
    }
  }

  // ---------------------------------------------------------------- consequences

  function Slashes(s: string): nat {
    if s == "" then 0 else (if s[0] == '/' then 1 else 0) + Slashes(s[1..])
  }

  lemma {:induction false} RunHasNoSlash(path: string, k: nat)
    requires Run(SegmentRun, path, k)
    ensures Slashes(path) == Slashes(path[k..])
  {
    assert path[0..] == path;
    if k > 0 {
      assert Admits(SegmentRun, path[0]);
      assert forall i | 0 <= i < k - 1 :: path[1..][i] == path[i + 1];
      RunHasNoSlash(path[1..], k - 1);
      assert path[1..][k - 1..] == path[k..];
    }
  }

  predicate NoDoubleStar(pattern: string) {
    pattern == "" || (!("**" <= pattern) && NoDoubleStar(pattern[1..]))
  }

  /** Without `**` a pattern never crosses a directory boundary. */
  lemma {:induction false} SegmentGlobKeepsDepth(pattern: string, path: string)
    requires GlobMatch(pattern, path)
    requires NoDoubleStar(pattern)
    ensures Slashes(pattern) == Slashes(path)
    decreases |pattern|
  {
    if pattern != "" {
      var rest := pattern[1..];
      if pattern[0] == '*' {
        var k: nat :| k <= |path| && Run(SegmentRun, path, k) && GlobMatch(rest, path[k..]);
        RunHasNoSlash(path, k);
        SegmentGlobKeepsDepth(rest, path[k..]);
      } else {
        SegmentGlobKeepsDepth(rest, path[1..]);
      }
    }
  }
}
