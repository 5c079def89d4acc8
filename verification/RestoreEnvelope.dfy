/**
 `_verify_restore_envelope` of tools/release_backup_restore.py on an arbitrary tree left behind by
 the restore subprocess. Paths are component lists. `os.walk` runs with its default error handler,
 so it silently skips a directory it cannot list.
 */
module RestoreEnvelope {
  import opened Text
  import opened TreeManifest

  type Path = seq<string>

  /** `stat`: what a path reaches when links are followed. */
  function Follow(node: Node): Node {
    match node
    case Symlink(destination) => Follow(destination)
    case _ => node
  }

  /** Resolution of a path below `node`: links on the way are followed, the last one is not. */
  function Resolve(node: Node, path: Path): Option<Node>
    decreases |path|
  {
    if path == [] then Some(node)
    else
      var directory := Follow(node);
      if directory.Directory? && path[0] in directory.children
      then Resolve(directory.children[path[0]], path[1..])
      else None
  }

  /** What the tree itself holds at a path, with no link followed. */
  function At(node: Node, path: Path): Option<Node>
    decreases |path|
  {
    if path == [] then Some(node)
    else if node.Directory? && path[0] in node.children
    then At(node.children[path[0]], path[1..])
    else None
  }

  /** The walk's verdict on everything it can list below `node`, which sits at `path`. */
  predicate EnvelopeOk(node: Node, path: Path, source: Path)
    decreases node, 0
  {
    node.Directory? && node.readable ==>
      forall name | name in node.children :: EntryOk(node.children[name], path + [name], source)
  }

  predicate EntryOk(child: Node, candidate: Path, source: Path)
    decreases child, 1
  {
    && !child.Symlink?
    && (source <= candidate || (candidate <= source && child.Directory?))
    && EnvelopeOk(child, candidate, source)
  }

  /** Climbs from the restored source to the target, collecting the directories on the way. */
  method Ancestors(target: Path, restoredSource: Path) returns (ancestors: set<Path>)
    requires target != [] && target <= restoredSource
    ensures ancestors == set k | |target| <= k < |restoredSource| :: restoredSource[..k]
  {
    ancestors := {};
    var current := restoredSource[..|restoredSource| - 1];
    while current != target[..|target| - 1]
      invariant |target| - 1 <= |current| < |restoredSource| && current == restoredSource[..|current|]
      invariant ancestors == set k | |current| < k < |restoredSource| :: restoredSource[..k]
      decreases |current|
    {
      assert |current| >= |target|;
      ancestors := ancestors + {current};
      if current == target {
        break;
      }
      current := current[..|current| - 1];
    }
  }

  /** The `os.walk` loop, from a directory at the absolute path `at`. */
  method WalkEnvelope(
    node: Node, at: Path, target: Path, source: Path, ancestors: set<Path>)
    returns (ok: bool)
    requires node.Directory? && target <= at && source != []
    requires ancestors == set k | |target| <= k < |target + source| :: (target + source)[..k]
    ensures ok <==> EnvelopeOk(node, at[|target|..], source)
    decreases node
  {
    if !node.readable {
      return true;
    }
    var pending := node.children.Keys;
    while pending != {}
      invariant pending <= node.children.Keys
      invariant forall name | name in node.children.Keys - pending ::
        EntryOk(node.children[name], at[|target|..] + [name], source)
      decreases pending
    {
      var name :| name in pending;
      var child := node.children[name];
      var candidate := at + [name];
      CandidateIsRelative(at, name, target, source, ancestors);
      if child.Symlink? {
        return false;
      }
      var withinSource := target + source <= candidate;
      if !withinSource && candidate !in ancestors {
        return false;
      }
      if candidate in ancestors && !child.Directory? {
        return false;
      }
      if child.Directory? {
        var below := WalkEnvelope(child, candidate, target, source, ancestors);
        if !below {
          return false;
        }
      }
      pending := pending - {name};
    }
    return true;
  }

  lemma CandidateIsRelative(at: Path, name: string, target: Path, source: Path, ancestors: set<Path>)
    requires target <= at && source != []
    requires ancestors == set k | |target| <= k < |target + source| :: (target + source)[..k]
    ensures (at + [name])[|target|..] == at[|target|..] + [name]
    ensures target + source <= at + [name] <==> source <= at[|target|..] + [name]
    ensures at + [name] in ancestors <==>
      at[|target|..] + [name] <= source && at[|target|..] + [name] != source
  {
    var whole := target + source;
    var candidate, relative := at + [name], at[|target|..] + [name];
    assert candidate == target + relative;
    assert whole <= candidate ==> source == whole[|target|..] == candidate[|target|..|whole|];
    if relative <= source && relative != source {
      assert whole[..|candidate|] == candidate;
    }
    if candidate in ancestors {
      assert relative == whole[..|candidate|][|target|..] == source[..|relative|];
    }
  }

  /** The check as called: with no component between target and source it refuses. */
  method VerifyRestoreEnvelope(node: Node, target: Path, source: Path) returns (ok: bool)
    requires node.Directory? && target != []
    ensures ok <==> source != [] && EnvelopeOk(node, [], source)
  {
    var ancestors := Ancestors(target, target + source);
    assert target in ancestors <==> source != [] by {
      assert (target + source)[..|target|] == target;
    }
    if target !in ancestors {
      return false;
    }
    ok := WalkEnvelope(node, target, target, source, ancestors);
    assert target[|target|..] == [];
  }

  // ---------------------------------------------------------------- what acceptance means

  /** Only the chain of directories down to the source, the source itself, and no link anywhere. */
  ghost predicate Sealed(node: Node, source: Path) {
    forall path: Path | At(node, path).Some? ::
      && !At(node, path).value.Symlink?
      && (source <= path || path <= source)
  }

  /** Directory k on the way to the source has the given permission to list it. */
  ghost predicate Profile(node: Node, source: Path, readable: seq<bool>)
    requires |readable| == |source|
  {
    forall k | 0 <= k < |source| ::
      var directory := Resolve(node, source[..k]);
      && directory.Some? && Follow(directory.value).Directory?
      && Follow(directory.value).readable == readable[k]
  }

  /** All that the restore checks about the tree it finds at the target. */
  ghost predicate TreeAccepted(node: Node, source: Path) {
    && node.Directory? && source != []
    && Resolve(node, source).Some? && Resolve(node, source).value.Directory?
    && EnvelopeOk(node, [], source)
    && Manifestable(Resolve(node, source).value)
  }

  /** A plain tree has no link and hides nothing from the walk. */
  lemma {:induction false} PlainHasNoLink(node: Node, path: Path)
    requires Plain(node) && At(node, path).Some?
    ensures !At(node, path).value.Symlink?
    decreases |path|
  {
    if path != [] { PlainHasNoLink(node.children[path[0]], path[1..]); }
  }

  /**
   With every directory of the chain listable, acceptance seals the target: induction down the
   chain, where `at` is the part of the source path already walked.
   */
  lemma {:induction false} ReadableChainSeals(node: Node, at: Path, rest: Path, path: Path)
    requires node.Directory?
    requires Resolve(node, rest).Some? && Resolve(node, rest).value.Directory?
    requires Plain(Resolve(node, rest).value)
    requires EnvelopeOk(node, at, at + rest)
    requires Profile(node, rest, seq(|rest|, _ => true))
    requires At(node, path).Some?
    ensures !At(node, path).value.Symlink?
    ensures rest <= path || path <= rest
    ensures At(node, rest) == Resolve(node, rest)
    decreases |rest|
  {
    if rest == [] {
      PlainHasNoLink(node, path);
    } else {
      var source := at + rest;
      assert rest[..0] == [];
      assert Resolve(node, rest[..0]).Some?;
      var next := node.children[rest[0]];
      assert (at + [rest[0]]) + rest[1..] == source;
      assert EntryOk(next, at + [rest[0]], source);
      OneStepOnSource(at, rest);
      ProfileTail(node, rest);
      if path == [] || path[0] == rest[0] {
        var below := if path == [] then [] else path[1..];
        ReadableChainSeals(next, at + [rest[0]], rest[1..], below);
        if path != [] { assert path == [rest[0]] + below && rest == [rest[0]] + rest[1..]; }
      } else {
        assert EntryOk(node.children[path[0]], at + [path[0]], source);
        OffSource(at, rest, path[0]);
        assert false;
      }
    }
  }

  /** The next component of the source path is a directory: itself the source, or an ancestor. */
  lemma OneStepOnSource(at: Path, rest: Path)
    requires rest != []
    ensures at + rest <= at + [rest[0]] ==> rest == [rest[0]]
  {
  }

  lemma OffSource(at: Path, rest: Path, name: string)
    requires rest != [] && name != rest[0]
    ensures !(at + rest <= at + [name]) && !(at + [name] <= at + rest)
  {
    assert (at + [name])[|at|] == name;
    assert (at + rest)[|at|] == rest[0];
  }

  lemma ProfileTail(node: Node, rest: Path)
    requires node.Directory? && rest != [] && rest[0] in node.children
    requires Profile(node, rest, seq(|rest|, _ => true))
    ensures Profile(node.children[rest[0]], rest[1..], seq(|rest| - 1, _ => true))
  {
    forall k | 0 <= k < |rest| - 1
      ensures Resolve(node.children[rest[0]], rest[1..][..k]) == Resolve(node, rest[..k + 1])
    {
      assert rest[..k + 1][0] == rest[0] && rest[..k + 1][1..] == rest[1..][..k];
    }
  }

  /** Restore soundness against any subprocess that leaves a listable chain. */
  lemma AcceptedTreeIsSealed(node: Node, source: Path)
    requires TreeAccepted(node, source)
    requires Profile(node, source, seq(|source|, _ => true))
    ensures Sealed(node, source)
    ensures At(node, source) == Resolve(node, source)
  {
    assert [] + source == source;
    forall path: Path | At(node, path).Some?
      ensures !At(node, path).value.Symlink? && (source <= path || path <= source)
    {
      ReadableChainSeals(node, [], source, path);
    }
    assert At(node, []).Some?;
    ReadableChainSeals(node, [], source, []);
  }

  // ---------------------------------------------------------------- the exact condition

  const SAMPLE := Directory(true, map["f" := File(0, "")])

  function Chain(source: Path, readable: seq<bool>): Node
    requires |readable| == |source|
    decreases |source|
  {
    if source == [] then SAMPLE
    else
      var next := map[source[0] := Chain(source[1..], readable[1..])];
      Directory(readable[0], if !readable[0] then next[source[0] + "x" := File(0, "")] else next)
  }

  lemma {:induction false} ChainIsAccepted(at: Path, source: Path, readable: seq<bool>)
    requires |readable| == |source|
    ensures var node := Chain(source, readable);
      && node.Directory?
      && Resolve(node, source) == Some(SAMPLE)
      && EnvelopeOk(node, at, at + source)
      && Profile(node, source, readable)
    decreases |source|
  {
    var node := Chain(source, readable);
    if source == [] {
      assert EnvelopeOk(SAMPLE, at, at);
    } else {
      var next := node.children[source[0]];
      assert source[0] != source[0] + "x";
      assert next == Chain(source[1..], readable[1..]);
      var here := at + [source[0]];
      assert here + source[1..] == at + source;
      ChainIsAccepted(here, source[1..], readable[1..]);
      forall k | 0 <= k < |source|
        ensures Resolve(node, source[..k]).Some?
        ensures Follow(Resolve(node, source[..k]).value).Directory?
        ensures Follow(Resolve(node, source[..k]).value).readable == readable[k]
      {
        if k > 0 {
          assert source[..k][0] == source[0] && source[..k][1..] == source[1..][..k - 1];
          assert Resolve(node, source[..k]) == Resolve(next, source[1..][..k - 1]);
        }
      }
    }
  }

  lemma SampleIsManifestable()
    ensures Manifestable(SAMPLE)
  {
    var names := Listed({"f"});
    ListedLength({"f"});
    assert names[0] in Elements(names);
    assert names == ["f"];
    assert SAMPLE.children.Keys == {"f"};
    assert Entries(SAMPLE, ["f"], "")[0] == FileEntry("f", 0, "");
    assert FileEntry("f", 0, "") in Listing(SAMPLE, "");
  }

  /** A directory that cannot be listed can hold an entry the walk never sees. */
  lemma {:induction false} ChainHidesAnEntry(source: Path, readable: seq<bool>, k: nat)
    requires |readable| == |source| && k < |source| && !readable[k]
    ensures var hidden := source[..k] + [source[k] + "x"];
      && At(Chain(source, readable), hidden).Some?
      && !(source <= hidden) && !(hidden <= source)
    decreases |source|
  {
    var hidden := source[..k] + [source[k] + "x"];
    assert hidden[k] != source[k];
    if k > 0 {
      ChainHidesAnEntry(source[1..], readable[1..], k - 1);
      assert hidden[0] == source[0];
      assert hidden[1..] == source[1..][..k - 1] + [source[1..][k - 1] + "x"];
      assert source[0] != source[0] + "x";
    }
  }

  /**
   Acceptance guarantees a sealed target exactly when every directory from the target down to the
   parent of the restored source can be listed.
   */
  lemma EnvelopeGuarantee(source: Path, readable: seq<bool>)
    requires source != [] && |readable| == |source|
    ensures (forall node | TreeAccepted(node, source) && Profile(node, source, readable) ::
               Sealed(node, source))
      <==> (forall k | 0 <= k < |readable| :: readable[k])
  {
    if forall k | 0 <= k < |readable| :: readable[k] {
      assert readable == seq(|source|, _ => true);
      forall node | TreeAccepted(node, source) && Profile(node, source, readable)
        ensures Sealed(node, source)
      {
        AcceptedTreeIsSealed(node, source);
      }
    } else {
      var k :| 0 <= k < |readable| && !readable[k];
      UnreadableIsUnsafe(source, readable, k);
    }
  }

  /** The tree that shows it for one profile. */
  lemma UnreadableIsUnsafe(source: Path, readable: seq<bool>, k: nat)
    requires |readable| == |source| && k < |source| && !readable[k]
    ensures var node := Chain(source, readable);
      TreeAccepted(node, source) && Profile(node, source, readable) && !Sealed(node, source)
  {
    hide Chain, EnvelopeOk, Resolve, Manifestable, Profile, At;
    assert [] + source == source;
    ChainIsAccepted([], source, readable);
    SampleIsManifestable();
    ChainHidesAnEntry(source, readable, k);
  }
}
