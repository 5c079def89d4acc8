/**
 The index walk of tools/candidate_image_build.py over the blobs of an image archive, after the
 "Image Index" and "Content Descriptors" parts of the OCI Image Format Specification.
 */
module OciArchive {
  import opened Text

  type Bytes = seq<bv8>

  /** A descriptor is an object with a digest text, if it has one at all. */
  datatype Descriptor = NotAnObject | Descriptor(digest: Option<string>)

  /**
   A parsed blob. `config` is present when the member "config" is an object, and then holds its
   digest text; `manifests` is present when that member is a list.
   */
  datatype Document =
    | NotADocument
    | Document(config: Option<Option<string>>, manifests: Option<seq<Descriptor>>)

  datatype Archive = Archive(
    blobs: map<string, Bytes>, sha: Bytes -> string, parse: Bytes -> Document)

  const PREFIX := "sha256:"
  const HEX := "0123456789abcdef"

  predicate IsHex64(text: string) {
    |text| == 64 && forall i | 0 <= i < |text| :: text[i] in HEX
  }

  predicate IsDigest(text: string) {
    PREFIX <= text && IsHex64(text[|PREFIX|..])
  }

  /** What one descriptor turns out to be, given the digests above it. */
  datatype View =
    | Bad
    | Manifest(digest: string, namesConfig: bool)
    | Index(digest: string, children: seq<Descriptor>)

  function Look(a: Archive, config: string, d: Descriptor, ancestors: seq<string>): (v: View)
    ensures !v.Bad? ==> v.digest in a.blobs && v.digest !in ancestors && a.sha(a.blobs[v.digest]) == v.digest
    ensures v.Index? ==> v.children != []
  {
    if d.NotAnObject? || d.digest.None? || !IsDigest(d.digest.value) then Bad
    else
      var digest := d.digest.value[|PREFIX|..];
      if digest in ancestors || digest !in a.blobs || a.sha(a.blobs[digest]) != digest then Bad
      else
        match a.parse(a.blobs[digest])
        case NotADocument => Bad
        case Document(Some(named), _) => Manifest(digest, named == Some(PREFIX + config))
        case Document(None, Some(children)) =>
          if children == [] then Bad else Index(digest, children)
        case Document(None, None) => Bad
  }

  // ---------------------------------------------------------------- what a descriptor is

  /** `sha256:` and 64 lower-case hexadecimal digits. */
  ghost predicate Names(d: Descriptor, digest: string) {
    && d == Descriptor(Some("sha256:" + digest)) && |digest| == 64
    && forall i | 0 <= i < 64 :: '0' <= digest[i] <= '9' || 'a' <= digest[i] <= 'f'
  }

  /** The descriptor names a blob that is stored, has this digest and is not one of its ancestors. */
  ghost predicate Refers(a: Archive, d: Descriptor, ancestors: seq<string>, digest: string) {
    && Names(d, digest) && digest !in ancestors
    && digest in a.blobs && a.sha(a.blobs[digest]) == digest
  }

  /** The faults the walk raises on: of the descriptor, of its blob, or of the document in it. */
  ghost predicate Faulty(a: Archive, d: Descriptor, ancestors: seq<string>) {
    || (forall digest :: !Names(d, digest))
    || exists digest :: Names(d, digest)
         && (|| digest in ancestors
             || digest !in a.blobs
             || a.sha(a.blobs[digest]) != digest
             || a.parse(a.blobs[digest]) == NotADocument
             || a.parse(a.blobs[digest]) == Document(None, None)
             || a.parse(a.blobs[digest]) == Document(None, Some([])))
  }

  /** A manifest whose config member names `named`, whatever its other members are. */
  ghost predicate ManifestAt(a: Archive, digest: string, named: Option<string>)
    requires digest in a.blobs
  {
    exists m :: a.parse(a.blobs[digest]) == Document(Some(named), m)
  }

  /** A manifest of some other config. */
  ghost predicate OtherManifestAt(a: Archive, digest: string, config: string)
    requires digest in a.blobs
  {
    exists named :: named != Some("sha256:" + config) && ManifestAt(a, digest, named)
  }

  ghost predicate IndexAt(a: Archive, digest: string, children: seq<Descriptor>)
    requires digest in a.blobs
  {
    children != [] && a.parse(a.blobs[digest]) == Document(None, Some(children))
  }

  lemma HexDigits(text: string)
    ensures IsHex64(text) <==>
      |text| == 64 && forall i | 0 <= i < 64 :: '0' <= text[i] <= '9' || 'a' <= text[i] <= 'f'
  {
    if |text| == 64 {
      forall i | 0 <= i < 64
        ensures text[i] in HEX <==> '0' <= text[i] <= '9' || 'a' <= text[i] <= 'f'
      {
        HexDigit(text[i]);
      }
    }
  }

  lemma HexDigit(c: char)
    ensures c in HEX <==> '0' <= c <= '9' || 'a' <= c <= 'f'
  {
    if '0' <= c <= '9' { assert HEX[c as int - '0' as int] == c; }
    if 'a' <= c <= 'f' { assert HEX[10 + c as int - 'a' as int] == c; }
  }

  lemma DigestNames(d: Descriptor, digest: string)
    ensures Names(d, digest) <==>
      && d.Descriptor? && d.digest.Some? && IsDigest(d.digest.value)
      && digest == d.digest.value[|PREFIX|..]
  {
    HexDigits(digest);
    if d.Descriptor? && d.digest.Some? && PREFIX <= d.digest.value {
      assert d.digest.value == "sha256:" + d.digest.value[|PREFIX|..];
    }
    assert ("sha256:" + digest)[|PREFIX|..] == digest;
  }

  /** `Look` answers `Bad` for the faults and nothing else, and tells manifests from indexes. */
  lemma LookMeans(a: Archive, config: string, d: Descriptor, ancestors: seq<string>)
    ensures var v := Look(a, config, d, ancestors);
      && (v.Bad? <==> Faulty(a, d, ancestors))
      && (!v.Bad? ==> Refers(a, d, ancestors, v.digest))
      && (v.Index? ==> IndexAt(a, v.digest, v.children))
      && (v.Manifest? && v.namesConfig ==> ManifestAt(a, v.digest, Some("sha256:" + config)))
      && (v.Manifest? && !v.namesConfig ==> OtherManifestAt(a, v.digest, config))
  {
    forall digest { DigestNames(d, digest); }
    if d.Descriptor? && d.digest.Some? && IsDigest(d.digest.value) {
      var digest := d.digest.value[|PREFIX|..];
      assert Names(d, digest);
      assert forall other | Names(d, other) :: other == digest;
      if digest in a.blobs {
        var document := a.parse(a.blobs[digest]);
        if document.Document? && document.config.Some? {
          assert ManifestAt(a, digest, document.config.value);
        }
      }
    }
  }

  // ---------------------------------------------------------------- the walk as a function

  datatype Outcome = Broken | Miss | Hit(chain: seq<string>)

  ghost function Unvisited(a: Archive, ancestors: seq<string>): nat {
    |a.blobs.Keys - Elements(ancestors)|
  }

  lemma DeeperIsSmaller(a: Archive, ancestors: seq<string>, digest: string)
    requires digest in a.blobs && digest !in ancestors
    ensures Unvisited(a, ancestors + [digest]) < Unvisited(a, ancestors)
  {
    assert Elements(ancestors + [digest]) == Elements(ancestors) + {digest};
    assert digest in a.blobs.Keys - Elements(ancestors);
    assert a.blobs.Keys - Elements(ancestors + [digest])
      == (a.blobs.Keys - Elements(ancestors)) - {digest};
  }

  ghost function Walk(a: Archive, config: string, d: Descriptor, ancestors: seq<string>): Outcome
    decreases Unvisited(a, ancestors), 0
  {
    match Look(a, config, d, ancestors)
    case Bad => Broken
    case Manifest(digest, namesConfig) => if namesConfig then Hit([digest]) else Miss
    case Index(digest, children) =>
      DeeperIsSmaller(a, ancestors, digest);
      match Scan(a, config, children, ancestors + [digest])
      case Hit(chain) => Hit([digest] + chain)
      case other => other
  }

  ghost function Scan(a: Archive, config: string, ds: seq<Descriptor>, ancestors: seq<string>): Outcome
    decreases Unvisited(a, ancestors), 1 + |ds|
  {
    if ds == [] then Miss
    else
      match Walk(a, config, ds[0], ancestors)
      case Miss => Scan(a, config, ds[1..], ancestors)
      case other => other
  }

  // ---------------------------------------------------------------- the walk as the code runs it

  class Walker {
    /** Digests on the way to a matching manifest, collected while the recursion unwinds. */
    var bound: set<string>

    constructor ()
      ensures bound == {}
    {
      bound := {};
    }

    /** None stands for a raised error. */
    method Visit(a: Archive, config: string, d: Descriptor, ancestors: seq<string>)
      returns (matched: Option<bool>)
      modifies this
      ensures matched == match Walk(a, config, d, ancestors)
                         case Broken => None case Miss => Some(false) case Hit(_) => Some(true)
      ensures bound == old(bound) + match Walk(a, config, d, ancestors)
                                    case Hit(chain) => Elements(chain) case _ => {}
      decreases Unvisited(a, ancestors), 0
    {
      var view := Look(a, config, d, ancestors);
      match view {
        case Bad =>
          return None;
        case Manifest(digest, namesConfig) =>
          matched := Some(namesConfig);
          if namesConfig {
            bound := bound + {digest};
            assert Elements([digest]) == {digest};
          }
        case Index(digest, children) =>
          DeeperIsSmaller(a, ancestors, digest);
          matched := AnyChild(a, config, children, ancestors + [digest]);
          if matched == Some(true) {
            bound := bound + {digest};
            ghost var chain := Scan(a, config, children, ancestors + [digest]).chain;
            assert Elements([digest] + chain) == {digest} + Elements(chain);
          }
      }
    }

    /** The short-circuiting `any` over the children. */
    method AnyChild(a: Archive, config: string, ds: seq<Descriptor>, ancestors: seq<string>)
      returns (matched: Option<bool>)
      modifies this
      ensures matched == match Scan(a, config, ds, ancestors)
                         case Broken => None case Miss => Some(false) case Hit(_) => Some(true)
      ensures bound == old(bound) + match Scan(a, config, ds, ancestors)
                                    case Hit(chain) => Elements(chain) case _ => {}
      decreases Unvisited(a, ancestors), 1
    {
      assert ds[0..] == ds;
      for i := 0 to |ds|
        invariant bound == old(bound)
        invariant Scan(a, config, ds, ancestors) == Scan(a, config, ds[i..], ancestors)
      {
        assert ds[i..][0] == ds[i] && ds[i..][1..] == ds[i + 1..];
        matched := Visit(a, config, ds[i], ancestors);
        if matched != Some(false) {
          return;
        }
      }
      matched := Some(false);
    }
  }

  // ---------------------------------------------------------------- routes

  /** What happens at the end of a route of child positions; `Inner` covers everything else. */
  datatype Event = Inner | Breaks | Misses | Matches(chain: seq<string>)

  ghost function EventAt(
    a: Archive, config: string, ds: seq<Descriptor>, ancestors: seq<string>, route: seq<nat>): Event
    decreases |route|
  {
    if route == [] || route[0] >= |ds| then Inner
    else if Faulty(a, ds[route[0]], ancestors) then if |route| == 1 then Breaks else Inner
    else
      var digest := Named(a, ds[route[0]], ancestors);
      if ManifestAt(a, digest, Some("sha256:" + config)) then
        if |route| == 1 then Matches([digest]) else Inner
      else if OtherManifestAt(a, digest, config) then
        if |route| == 1 then Misses else Inner
      else
        Below(digest, EventAt(a, config, Children(a, ds[route[0]], ancestors), ancestors + [digest],
                              route[1..]))
  }

  /** An event seen from the index above it. */
  ghost function Below(digest: string, event: Event): Event {
    if event.Matches? then Matches([digest] + event.chain) else event
  }

  /** The blob a sound descriptor refers to. */
  ghost function Named(a: Archive, d: Descriptor, ancestors: seq<string>): (digest: string)
    requires !Faulty(a, d, ancestors)
    ensures Refers(a, d, ancestors, digest)
  {
    var digest :| Names(d, digest);
    digest
  }

  /** The entries of the index a sound descriptor refers to; a manifest has none. */
  ghost function Children(a: Archive, d: Descriptor, ancestors: seq<string>): seq<Descriptor>
    requires !Faulty(a, d, ancestors)
  {
    var digest := Named(a, d, ancestors);
    if exists children :: IndexAt(a, digest, children) then
      var children :| IndexAt(a, digest, children);
      children
    else []
  }

  lemma NamesOne(d: Descriptor, x: string, y: string)
    requires Names(d, x) && Names(d, y)
    ensures x == y
  {
    assert ("sha256:" + x)[7..] == x && ("sha256:" + y)[7..] == y;
  }

  /** One step of a route, in terms of what `Look` answers. */
  lemma EventByLook(
    a: Archive, config: string, ds: seq<Descriptor>, ancestors: seq<string>, route: seq<nat>)
    requires route != [] && route[0] < |ds|
    ensures var e, v := EventAt(a, config, ds, ancestors, route), Look(a, config, ds[route[0]], ancestors);
      && (v.Bad? ==> e == if |route| == 1 then Breaks else Inner)
      && (v.Manifest? ==>
            e == if |route| > 1 then Inner else if v.namesConfig then Matches([v.digest]) else Misses)
      && (v.Index? ==>
            e == Below(v.digest, EventAt(a, config, v.children, ancestors + [v.digest], route[1..])))
  {
    var d := ds[route[0]];
    var v := Look(a, config, d, ancestors);
    LookMeans(a, config, d, ancestors);
    if !v.Bad? {
      NamesOne(d, v.digest, Named(a, d, ancestors));
      if v.Index? { assert Children(a, d, ancestors) == v.children; }
    }
  }

  ghost predicate Stops(event: Event) {
    event.Breaks? || event.Matches?
  }

  /** Depth-first, left-to-right order of routes. */
  ghost predicate Earlier(r: seq<nat>, s: seq<nat>) {
    s != [] && (r == [] || r[0] < s[0] || (r[0] == s[0] && Earlier(r[1..], s[1..])))
  }

  /** `route` is where the walk stops: a break or a match with none before it. */
  ghost predicate FirstStop(
    a: Archive, config: string, ds: seq<Descriptor>, ancestors: seq<string>, route: seq<nat>)
  {
    && Stops(EventAt(a, config, ds, ancestors, route))
    && forall r: seq<nat> | Earlier(r, route) :: !Stops(EventAt(a, config, ds, ancestors, r))
  }

  ghost function OutcomeOf(event: Event): Outcome {
    match event
    case Matches(chain) => Hit(chain)
    case Breaks => Broken
    case _ => Miss
  }

  /** A subtree that misses holds no stop, and nothing before it in a list that misses does. */
  lemma {:induction false} MissHasNoStop(
    a: Archive, config: string, ds: seq<Descriptor>, ancestors: seq<string>, route: seq<nat>)
    requires route != [] ==> forall i | 0 <= i < |ds| && i <= route[0] :: Walk(a, config, ds[i], ancestors).Miss?
    ensures !Stops(EventAt(a, config, ds, ancestors, route))
    decreases |route|
  {
    if route != [] && route[0] < |ds| {
      EventByLook(a, config, ds, ancestors, route);
      var view := Look(a, config, ds[route[0]], ancestors);
      assert Walk(a, config, ds[route[0]], ancestors).Miss?;
      if view.Index? {
        DeeperIsSmaller(a, ancestors, view.digest);
        ScanMiss(a, config, view.children, ancestors + [view.digest]);
        MissHasNoStop(a, config, view.children, ancestors + [view.digest], route[1..]);
      }
    }
  }

  lemma {:induction false} ScanMiss(a: Archive, config: string, ds: seq<Descriptor>, ancestors: seq<string>)
    ensures Scan(a, config, ds, ancestors).Miss? <==>
      forall i | 0 <= i < |ds| :: Walk(a, config, ds[i], ancestors).Miss?
    decreases |ds|
  {
    if ds != [] {
      ScanMiss(a, config, ds[1..], ancestors);
      if Walk(a, config, ds[0], ancestors).Miss? {
        assert forall i | 0 < i < |ds| :: ds[i] == ds[1..][i - 1];
        assert forall i | 0 <= i < |ds[1..]| :: ds[1..][i] == ds[i + 1];
      }
    }
  }

  /** The position of the first child that does not miss decides the scan. */
  lemma {:induction false} ScanStopsAt(
    a: Archive, config: string, ds: seq<Descriptor>, ancestors: seq<string>) returns (i: nat)
    requires !Scan(a, config, ds, ancestors).Miss?
    ensures i < |ds|
    ensures forall j | 0 <= j < i :: Walk(a, config, ds[j], ancestors).Miss?
    ensures Scan(a, config, ds, ancestors) == Walk(a, config, ds[i], ancestors)
    decreases |ds|
  {
    if Walk(a, config, ds[0], ancestors).Miss? {
      var k := ScanStopsAt(a, config, ds[1..], ancestors);
      i := k + 1;
      forall j | 0 <= j < i ensures Walk(a, config, ds[j], ancestors).Miss? {
        if j > 0 { assert ds[j] == ds[1..][j - 1]; }
      }
    } else {
      i := 0;
    }
  }

  lemma {:induction false} StopExists(
    a: Archive, config: string, ds: seq<Descriptor>, ancestors: seq<string>) returns (route: seq<nat>)
    requires !Scan(a, config, ds, ancestors).Miss?
    ensures FirstStop(a, config, ds, ancestors, route)
    ensures Scan(a, config, ds, ancestors) == OutcomeOf(EventAt(a, config, ds, ancestors, route))
    decreases Unvisited(a, ancestors)
  {
    var i := ScanStopsAt(a, config, ds, ancestors);
    var view := Look(a, config, ds[i], ancestors);
    var rest: seq<nat> := [];
    if view.Index? {
      DeeperIsSmaller(a, ancestors, view.digest);
      rest := StopExists(a, config, view.children, ancestors + [view.digest]);
    }
    route := [i] + rest;
    assert route[1..] == rest;
    EventByLook(a, config, ds, ancestors, route);
    forall r: seq<nat> | Earlier(r, route)
      ensures !Stops(EventAt(a, config, ds, ancestors, r))
    {
      if r != [] {
        if r[0] < i {
          MissHasNoStop(a, config, ds, ancestors, r);
        } else {
          EventByLook(a, config, ds, ancestors, r);
          assert Earlier(r[1..], rest);
          assert view.Index?;
        }
      }
    }
  }

  lemma {:induction false} EarlierIsTotal(r: seq<nat>, s: seq<nat>)
    ensures r == s || Earlier(r, s) || Earlier(s, r)
  {
    if r != [] && s != [] && r[0] == s[0] {
      EarlierIsTotal(r[1..], s[1..]);
      if r[1..] == s[1..] { assert r == [r[0]] + r[1..] && s == [s[0]] + s[1..]; }
    }
  }

  /**
   The walk, for every archive: it ends at the first stopping route in depth-first order, if there
   is one, with that route's event; it misses exactly when no route stops.
   */
  lemma WalkIsFirstStop(a: Archive, config: string, ds: seq<Descriptor>, ancestors: seq<string>)
    ensures Scan(a, config, ds, ancestors).Miss? <==>
      forall route :: !Stops(EventAt(a, config, ds, ancestors, route))
    ensures forall route | FirstStop(a, config, ds, ancestors, route) ::
      Scan(a, config, ds, ancestors) == OutcomeOf(EventAt(a, config, ds, ancestors, route))
    ensures !Scan(a, config, ds, ancestors).Miss? ==>
      exists route :: FirstStop(a, config, ds, ancestors, route)
  {
    if Scan(a, config, ds, ancestors).Miss? {
      ScanMiss(a, config, ds, ancestors);
      forall route ensures !Stops(EventAt(a, config, ds, ancestors, route)) {
        MissHasNoStop(a, config, ds, ancestors, route);
      }
    } else {
      var first := StopExists(a, config, ds, ancestors);
      assert Stops(EventAt(a, config, ds, ancestors, first));
      forall route | FirstStop(a, config, ds, ancestors, route) ensures route == first {
        EarlierIsTotal(route, first);
      }
    }
  }

  /** Verified manifests of other configs at the front of a list change nothing. */
  lemma {:induction false} OtherManifestsAreSkipped(
    a: Archive, config: string, ds: seq<Descriptor>, ancestors: seq<string>, i: nat)
    requires i <= |ds|
    requires forall j | 0 <= j < i :: SkippedAt(a, config, ds[j], ancestors)
    ensures Scan(a, config, ds, ancestors) == Scan(a, config, ds[i..], ancestors)
    decreases i
  {
    if i == 0 {
      assert ds[0..] == ds;
    } else {
      assert SkippedAt(a, config, ds[0], ancestors);
      LookMeans(a, config, ds[0], ancestors);
      SkippedMisses(a, config, ds[0], ancestors);
      assert forall j | 0 <= j < i - 1 :: ds[1..][j] == ds[j + 1];
      OtherManifestsAreSkipped(a, config, ds[1..], ancestors, i - 1);
      assert ds[1..][i - 1..] == ds[i..];
    }
  }

  ghost predicate SkippedAt(a: Archive, config: string, d: Descriptor, ancestors: seq<string>) {
    exists digest :: Refers(a, d, ancestors, digest) && OtherManifestAt(a, digest, config)
  }

  lemma SkippedMisses(a: Archive, config: string, d: Descriptor, ancestors: seq<string>)
    requires SkippedAt(a, config, d, ancestors)
    ensures Walk(a, config, d, ancestors).Miss?
  {
    var digest :| Refers(a, d, ancestors, digest) && OtherManifestAt(a, digest, config);
    var v := Look(a, config, d, ancestors);
    DigestNames(d, digest);
  }

  // ---------------------------------------------------------------- chains

  /** A verified path of blobs from the list `ds` to a manifest that names the config. */
  ghost predicate IsChain(a: Archive, config: string, ds: seq<Descriptor>, chain: seq<string>)
    decreases |chain|
  {
    && chain != []
    && Descriptor(Some(PREFIX + chain[0])) in ds
    && chain[0] in a.blobs && a.sha(a.blobs[chain[0]]) == chain[0]
    && match a.parse(a.blobs[chain[0]])
       case Document(Some(named), _) => |chain| == 1 && named == Some(PREFIX + config)
       case Document(None, Some(children)) => IsChain(a, config, children, chain[1..])
       case _ => false
  }

  /** A match yields a chain without repetition that avoids everything above it. */
  lemma {:induction false} MatchIsChain(
    a: Archive, config: string, ds: seq<Descriptor>, ancestors: seq<string>, route: seq<nat>)
    requires EventAt(a, config, ds, ancestors, route).Matches?
    ensures var chain := EventAt(a, config, ds, ancestors, route).chain;
      && |chain| == |route| && IsChain(a, config, ds, chain) && Distinct(chain)
      && forall c | c in chain :: c !in ancestors && c in a.blobs
    decreases |route|
  {
    var d := ds[route[0]];
    var view := Look(a, config, d, ancestors);
    EventByLook(a, config, ds, ancestors, route);
    assert PREFIX + view.digest == d.digest.value;
    assert d in ds;
    if view.Index? {
      MatchIsChain(a, config, view.children, ancestors + [view.digest], route[1..]);
      var rest := EventAt(a, config, view.children, ancestors + [view.digest], route[1..]).chain;
      assert ([view.digest] + rest)[1..] == rest;
      assert view.digest in ancestors + [view.digest];
    }
  }

  /** What `_archive_identity` reports once the index binds the config. */
  lemma BoundDigestsAreTheFirstChain(a: Archive, config: string, ds: seq<Descriptor>)
    requires Scan(a, config, ds, []).Hit?
    ensures var chain := Scan(a, config, ds, []).chain;
      && IsChain(a, config, ds, chain) && Distinct(chain)
      && |Elements(chain)| == |chain| <= |a.blobs|
      && exists route :: FirstStop(a, config, ds, [], route)
           && EventAt(a, config, ds, [], route) == Matches(chain)
  {
    var route := StopExists(a, config, ds, []);
    var chain := EventAt(a, config, ds, [], route).chain;
    MatchIsChain(a, config, ds, [], route);
    DistinctCardinality(chain);
    assert Elements(chain) <= a.blobs.Keys;
    SubsetSize(Elements(chain), a.blobs.Keys);
  }

  // ---------------------------------------------------------------- archive identity

  datatype IndexFile = NoIndex | InvalidIndex | IndexFile(manifests: Option<seq<Descriptor>>)

  /** The archive as unpacked: its member names, the image manifest list, and the OCI part. */
  datatype ImageArchive = ImageArchive(
    names: seq<string>, configNames: Option<seq<Option<string>>>, files: map<string, Bytes>,
    index: IndexFile, oci: Archive)

  datatype Identity = Identity(configSha: string, bound: set<string>)

  predicate SafeName(name: string) {
    !("/" <= name) && ".." !in Components(name)
  }

  /** A safe member name is not absolute, and no part of it goes up. */
  lemma SafeNameMeans(name: string)
    ensures SafeName(name) <==>
      && (name == "" || name[0] != '/')
      && forall parts: seq<string> |
           parts != [] && JoinParts(parts) == name && (forall part | part in parts :: '/' !in part) ::
           ".." !in parts
  {
    ComponentsJoin(name);
    if SafeName(name) {
      forall parts: seq<string> |
        parts != [] && JoinParts(parts) == name && (forall part | part in parts :: '/' !in part)
        ensures ".." !in parts
      {
        ComponentsOfJoin(parts);
      }
    }
  }

  /** The config digest, if the image manifest names a config stored under its own digest. */
  ghost function ConfigOf(image: ImageArchive, stem: string -> string): Option<string> {
    if Distinct(image.names) && (forall i | 0 <= i < |image.names| :: SafeName(image.names[i]))
       && image.configNames.Some? && |image.configNames.value| == 1
       && image.configNames.value[0].Some?
       && image.configNames.value[0].value in image.files
       && stem(image.configNames.value[0].value)
            == image.oci.sha(image.files[image.configNames.value[0].value])
    then Some(image.oci.sha(image.files[image.configNames.value[0].value]))
    else None
  }

  /** The config digest, with the digests of the chain from the index to it if there is an index. */
  ghost function IdentityOf(image: ImageArchive, stem: string -> string): Option<Identity> {
    var config := ConfigOf(image, stem);
    if config.None? then None else
    match image.index
    case NoIndex => Some(Identity(config.value, {}))
    case InvalidIndex => None
    case IndexFile(manifests) =>
      if manifests.Some? && Scan(image.oci, config.value, manifests.value, []).Hit?
      then Some(Identity(config.value,
                  Elements(Scan(image.oci, config.value, manifests.value, []).chain)))
      else None
  }

  method ArchiveIdentity(image: ImageArchive, stem: string -> string)
    returns (r: Option<Identity>)
    ensures r == IdentityOf(image, stem)
  {
    var names: set<string> := {};
    for i := 0 to |image.names|
      invariant names == Elements(image.names[..i]) && Distinct(image.names[..i])
      invariant forall j | 0 <= j < i :: SafeName(image.names[j])
    {
      assert image.names[..i + 1] == image.names[..i] + [image.names[i]];
      if image.names[i] in names || !SafeName(image.names[i]) {
        return None;
      }
      names := names + {image.names[i]};
    }
    assert image.names[..|image.names|] == image.names;
    if image.configNames.None? || |image.configNames.value| != 1
       || image.configNames.value[0].None? {
      return None;
    }
    var configName := image.configNames.value[0].value;
    if configName !in image.files {
      return None;
    }
    var configSha := image.oci.sha(image.files[configName]);
    if stem(configName) != configSha || image.index.InvalidIndex? {
      return None;
    }
    assert ConfigOf(image, stem) == Some(configSha);
    if image.index.NoIndex? {
      return Some(Identity(configSha, {}));
    }
    if image.index.manifests.None? || image.index.manifests.value == [] {
      return None;
    }
    var walker := new Walker();
    var matched := walker.AnyChild(image.oci, configSha, image.index.manifests.value, []);
    if matched != Some(true) {
      return None;
    }
    assert walker.bound
      == Elements(Scan(image.oci, configSha, image.index.manifests.value, []).chain);
    return Some(Identity(configSha, walker.bound));
  }

  function PortableImageId(local: string, configSha: string, bound: set<string>): Option<string> {
    if !IsDigest(local) || !IsHex64(configSha) then None
    else if local == PREFIX + configSha || local[|PREFIX|..] in bound then Some(PREFIX + configSha)
    else None
  }

  lemma PortableExactly(local: string, configSha: string, bound: set<string>)
    ensures PortableImageId(local, configSha, bound).Some? <==>
      && |configSha| == 64
      && (forall i | 0 <= i < 64 :: '0' <= configSha[i] <= '9' || 'a' <= configSha[i] <= 'f')
      && (local == "sha256:" + configSha
          || exists digest :: Names(Descriptor(Some(local)), digest) && digest in bound)
  {
    HexDigits(configSha);
    forall digest { DigestNames(Descriptor(Some(local)), digest); }
    assert ("sha256:" + configSha)[|PREFIX|..] == configSha;
    if IsDigest(local) { assert Names(Descriptor(Some(local)), local[|PREFIX|..]); }
  }

  /**
   For every archive with an identity, an accepted image id is always the digest of the stored
   config. Without an index only that id is accepted; with one, also a blob of the verified chain
   from the index to a manifest naming the config.
   */
  lemma PortableIdIsBound(image: ImageArchive, stem: string -> string, local: string)
    requires IdentityOf(image, stem).Some?
    ensures var id := IdentityOf(image, stem).value;
      var portable := PortableImageId(local, id.configSha, id.bound);
      && (portable.Some? <==>
            && |id.configSha| == 64
            && (forall i | 0 <= i < 64 ::
                  '0' <= id.configSha[i] <= '9' || 'a' <= id.configSha[i] <= 'f')
            && (local == "sha256:" + id.configSha
                || exists digest :: Names(Descriptor(Some(local)), digest) && digest in id.bound))
      && (portable.Some? ==> portable.value == "sha256:" + id.configSha)
      && ConfigOf(image, stem) == Some(id.configSha)
      && (image.index.NoIndex? && portable.Some? ==> local == PREFIX + id.configSha)
      && (portable.Some? && local != PREFIX + id.configSha ==>
            && image.index.IndexFile? && image.index.manifests.Some?
            && exists chain :: IsChain(image.oci, id.configSha, image.index.manifests.value, chain)
                 && id.bound == Elements(chain) && local[|PREFIX|..] in chain
                 && local[|PREFIX|..] in image.oci.blobs
                 && image.oci.sha(image.oci.blobs[local[|PREFIX|..]]) == local[|PREFIX|..])
  {
    var id := IdentityOf(image, stem).value;
    PortableExactly(local, id.configSha, id.bound);
    if image.index.IndexFile? {
      var a, config, ds := image.oci, id.configSha, image.index.manifests.value;
      var route := StopExists(a, config, ds, []);
      MatchIsChain(a, config, ds, [], route);
      var chain := Scan(a, config, ds, []).chain;
      assert IsChain(a, config, ds, chain);
      if PortableImageId(local, config, id.bound).Some? && local != PREFIX + config {
        ChainIsVerified(a, config, ds, chain, local[|PREFIX|..]);
      }
    }
  }

  lemma {:induction false} ChainIsVerified(
    a: Archive, config: string, ds: seq<Descriptor>, chain: seq<string>, digest: string)
    requires IsChain(a, config, ds, chain) && digest in chain
    ensures digest in a.blobs && a.sha(a.blobs[digest]) == digest
    decreases |chain|
  {
    if digest != chain[0] {
      assert digest in chain[1..];
      ChainIsVerified(a, config, a.parse(a.blobs[chain[0]]).manifests.value, chain[1..], digest);
    }
  }
}
