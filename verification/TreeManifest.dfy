/**
 The recursive directory walk of tools/release_backup_restore.py. A directory is a finite map, so
 it has no order of its own; the order in which a scan returns the names is left arbitrary.
 A file is what `_hash_open_regular` reports of it: its size and its digest.
 */
module TreeManifest {
  import opened Text

  datatype Node =
    | File(size: nat, digest: string)
    | Directory(readable: bool, children: map<string, Node>)
    | Symlink(destination: Node) // what following the link reaches; Symlink(Special) dangles
    | Special

  datatype Entry =
    | DirectoryEntry(path: string)
    | FileEntry(path: string, size: nat, digest: string)

  /** Names a directory scan can return. */
  predicate ValidName(name: string) {
    name != "" && name != "." && name != ".." && '/' !in name
  }

  predicate WellNamed(node: Node) {
    match node
    case Directory(_, children) =>
      forall name | name in children :: ValidName(name) && WellNamed(children[name])
    case Symlink(destination) => WellNamed(destination)
    case _ => true
  }

  /** Only readable directories and regular files, at every depth. */
  predicate Plain(node: Node) {
    match node
    case File(_, _) => true
    case Directory(readable, children) =>
      readable && forall name | name in children :: Plain(children[name])
    case _ => false
  }

  function Join(prefix: string, name: string): string {
    if prefix == "" then name else prefix + "/" + name
  }

  /** The one increasing listing of a set of names. */
  ghost function Listed(names: set<string>): (r: seq<string>)
    ensures Increasing(r) && Elements(r) == names
  {
    if names == {} then []
    else
      var name :| name in names;
      var r := Insert(name, Listed(names - {name}));
      assert forall x :: x in Elements(r) <==> x == name || x in names - {name};
      r
  }

  /** Entries of the children `names` of `directory`, each directory followed by its contents. */
  ghost function Entries(directory: Node, names: seq<string>, prefix: string): seq<Entry>
    requires directory.Directory? && Elements(names) <= directory.children.Keys
    decreases directory, |names|
  {
    if names == [] then []
    else
      assert names[0] in Elements(names);
      assert Elements(names[1..]) <= Elements(names);
      var path := Join(prefix, names[0]);
      var child := directory.children[names[0]];
      EntriesAt(child, path) + Entries(directory, names[1..], prefix)
  }

  ghost function EntriesAt(child: Node, path: string): seq<Entry>
    decreases child
  {
    match child
    case File(size, digest) => [FileEntry(path, size, digest)]
    case Directory(_, children) =>
      [DirectoryEntry(path)] + Entries(child, Listed(children.Keys), path)
    case _ => []
  }

  ghost function Listing(directory: Node, prefix: string): seq<Entry>
    requires directory.Directory?
  {
    Entries(directory, Listed(directory.children.Keys), prefix)
  }

  // ---------------------------------------------------------------- counts

  function FileCount(entries: seq<Entry>): nat {
    if entries == [] then 0
    else FileCount(entries[..|entries| - 1]) + if entries[|entries| - 1].FileEntry? then 1 else 0
  }

  function DirectoryCount(entries: seq<Entry>): nat {
    if entries == [] then 0
    else
      DirectoryCount(entries[..|entries| - 1])
      + if entries[|entries| - 1].DirectoryEntry? then 1 else 0
  }

  function TotalBytes(entries: seq<Entry>): nat {
    if entries == [] then 0
    else
      TotalBytes(entries[..|entries| - 1])
      + if entries[|entries| - 1].FileEntry? then entries[|entries| - 1].size else 0
  }

  lemma {:induction false} CountsPartitionTheList(entries: seq<Entry>)
    ensures FileCount(entries) + DirectoryCount(entries) == |entries|
    ensures FileCount(entries) > 0 <==> exists e :: e in entries && e.FileEntry?
  {
    if entries != [] {
      var last := entries[|entries| - 1];
      CountsPartitionTheList(entries[..|entries| - 1]);
      assert entries == entries[..|entries| - 1] + [last];
      if last.FileEntry? { assert last in entries; }
    }
  }

  // ---------------------------------------------------------------- the walk

  /** Any enumeration of the names of a directory. */
  method ScanDirectory(children: map<string, Node>) returns (names: seq<string>)
    ensures Elements(names) == children.Keys
  {
    names := [];
    var rest := children.Keys;
    while rest != {}
      invariant Elements(names) + rest == children.Keys
      decreases rest
    {
      var name :| name in rest;
      names := names + [name];
      rest := rest - {name};
    }
  }

  class ManifestBuilder {
    var entries: seq<Entry>
    var files: nat
    var directories: nat
    var totalBytes: nat

    constructor ()
      ensures entries == [] && Counted()
    {
      entries, files, directories, totalBytes := [], 0, 0, 0;
    }

    /** The running totals always describe the entries collected so far. */
    ghost predicate Counted()
      reads this
    {
      && files == FileCount(entries) && directories == DirectoryCount(entries)
      && totalBytes == TotalBytes(entries)
    }

    method Append(entry: Entry)
      requires Counted()
      modifies this
      ensures Counted() && entries == old(entries) + [entry]
    {
      assert (entries + [entry])[..|entries|] == entries;
      match entry {
        case DirectoryEntry(_) => directories := directories + 1;
        case FileEntry(_, size, _) => files, totalBytes := files + 1, totalBytes + size;
      }
      entries := entries + [entry];
    }

    /** Succeeds exactly on plain trees, and then appends the canonical listing. */
    method Visit(directory: Node, prefix: string) returns (ok: bool)
      requires directory.Directory? && Counted()
      modifies this
      ensures Counted()
      ensures ok <==> Plain(directory)
      ensures ok ==> entries == old(entries) + Listing(directory, prefix)
      decreases directory, 0
    {
      hide Entries, EntriesAt, Listed, FileCount, DirectoryCount, TotalBytes, Increasing;
      if !directory.readable {
        return false;
      }
      var scan := ScanDirectory(directory.children);
      var names := SortDistinct(scan);
      SortedScanIsListed(directory, scan, prefix);
      ghost var collected := entries;
      for i := 0 to |names|
        invariant Counted()
        invariant forall j | 0 <= j < i :: Plain(directory.children[names[j]])
        invariant Elements(names[i..]) <= directory.children.Keys
        invariant entries + Entries(directory, names[i..], prefix)
               == collected + Listing(directory, prefix)
      {
        var name := names[i];
        EntriesUnfold(directory, names, i, prefix);
        var child := directory.children[name];
        var ok' := VisitChild(child, Join(prefix, name));
        if !ok' {
          return false;
        }
      }
      AllNamed(directory, names);
      EntriesOfNothing(directory, names, prefix);
      return true;
    }

    /** The branches of the walk for one child. */
    method VisitChild(child: Node, path: string) returns (ok: bool)
      requires Counted()
      modifies this
      ensures Counted()
      ensures ok <==> Plain(child)
      ensures ok ==> entries == old(entries) + EntriesAt(child, path)
      decreases child, 1
    {
      hide Entries, Listed, FileCount, DirectoryCount, TotalBytes;
      match child {
        case Symlink(_) => return false;
        case Special => return false;
        case File(size, digest) =>
          Append(FileEntry(path, size, digest));
          return true;
        case Directory(_, _) =>
          Append(DirectoryEntry(path));
          ok := Visit(child, path);
      }
    }
  }

  /** Sorting any scan of a directory gives its one increasing listing. */
  lemma SortedScanIsListed(directory: Node, scan: seq<string>, prefix: string)
    requires directory.Directory? && Elements(scan) == directory.children.Keys
    ensures SortDistinct(scan) == Listed(directory.children.Keys)
    ensures SortDistinct(scan)[0..] == SortDistinct(scan)
    ensures Elements(SortDistinct(scan)) == directory.children.Keys
    ensures Entries(directory, SortDistinct(scan), prefix) == Listing(directory, prefix)
  {
    var names, listed := SortDistinct(scan), Listed(directory.children.Keys);
    assert forall x :: x in Elements(scan) <==> x in scan;
    assert forall x :: x in Elements(listed) <==> x in listed;
    IncreasingListingIsUnique(names, listed);
  }

  lemma EntriesUnfold(directory: Node, names: seq<string>, i: nat, prefix: string)
    requires directory.Directory? && i < |names|
    requires Elements(names[i..]) <= directory.children.Keys
    ensures names[i] in directory.children
    ensures Elements(names[i + 1..]) <= directory.children.Keys
    ensures Entries(directory, names[i..], prefix)
         == EntriesAt(directory.children[names[i]], Join(prefix, names[i]))
            + Entries(directory, names[i + 1..], prefix)
  {
    var rest := names[i..];
    assert rest[0] == names[i] && rest[1..] == names[i + 1..];
    assert rest[0] in Elements(rest);
    assert Elements(rest[1..]) <= Elements(rest);
  }

  lemma EntriesOfNothing(directory: Node, names: seq<string>, prefix: string)
    requires directory.Directory?
    ensures Elements(names[|names|..]) == {}
    ensures Entries(directory, names[|names|..], prefix) == []
  {
    assert names[|names|..] == [];
  }

  lemma AllNamed(directory: Node, names: seq<string>)
    requires directory.Directory? && Elements(names) == directory.children.Keys
    ensures (forall j | 0 <= j < |names| :: Plain(directory.children[names[j]]))
         <==> (forall name | name in directory.children :: Plain(directory.children[name]))
  {
    assert forall j | 0 <= j < |names| :: names[j] in Elements(names);
    forall name | name in directory.children
      ensures exists j :: 0 <= j < |names| && names[j] == name
    {
      assert name in Elements(names);
    }
  }

  datatype Manifest = Manifest(
    sha256: string, entries: seq<Entry>, fileCount: nat, directoryCount: nat, totalBytes: nat)

  datatype Result<+T> = Ok(value: T) | Failed

  /** A root the walk accepts: a plain directory that holds at least one file. */
  ghost predicate Manifestable(root: Node) {
    && root.Directory? && Plain(root)
    && exists e :: e in Listing(root, "") && e.FileEntry?
  }

  ghost function ManifestOf(sha: seq<Entry> -> string, root: Node): Manifest
    requires root.Directory?
  {
    var entries := Listing(root, "");
    Manifest(sha(entries), entries, FileCount(entries), DirectoryCount(entries), TotalBytes(entries))
  }

  method CanonicalTreeManifest(sha: seq<Entry> -> string, root: Node)
    returns (r: Result<Manifest>)
    ensures r.Ok? <==> Manifestable(root)
    ensures r.Ok? ==> r.value == ManifestOf(sha, root)
  {
    if !root.Directory? {
      return Failed;
    }
    var builder := new ManifestBuilder();
    hide Listing, Entries, FileCount, DirectoryCount, TotalBytes, Plain;
    var visited := builder.Visit(root, "");
    CountsPartitionTheList(builder.entries);
    assert visited ==> builder.entries == Listing(root, "");
    if !visited || builder.files == 0 {
      return Failed;
    }
    return Ok(Manifest(sha(builder.entries), builder.entries, builder.files, builder.directories,
                       builder.totalBytes));
  }

  // ---------------------------------------------------------------- the listing loses nothing

  function Base(prefix: string): string {
    if prefix == "" then "" else prefix + "/"
  }

  function FirstPart(path: string): string {
    if path == "" || path[0] == '/' then "" else [path[0]] + FirstPart(path[1..])
  }

  lemma {:induction false} FirstPartOfName(name: string, rest: string)
    requires '/' !in name && (rest == "" || rest[0] == '/')
    ensures FirstPart(name + rest) == name
  {
    if name == "" {
      assert name + rest == rest;
    } else {
      FirstPartOfName(name[1..], rest);
      assert (name + rest)[1..] == name[1..] + rest;
    }
  }

  /** `path` lies at or below the child `name` of `prefix`. */
  ghost predicate Below(path: string, prefix: string, name: string) {
    && Base(prefix) <= path
    && FirstPart(path[|Base(prefix)|..]) == name
  }

  lemma BelowChild(prefix: string, name: string, rest: string)
    requires ValidName(name) && (rest == "" || rest[0] == '/')
    ensures Below(Join(prefix, name) + rest, prefix, name)
  {
    var path := Join(prefix, name) + rest;
    assert path == Base(prefix) + (name + rest);
    assert path[|Base(prefix)|..] == name + rest;
    FirstPartOfName(name, rest);
  }

  /** Every entry of a subtree lies below the name it was reached by. */
  lemma {:induction false} EntriesBelow(directory: Node, names: seq<string>, prefix: string, e: Entry)
    requires directory.Directory? && WellNamed(directory)
    requires Elements(names) <= directory.children.Keys
    requires e in Entries(directory, names, prefix)
    ensures exists name :: name in names && Below(e.path, prefix, name)
    ensures Base(prefix) <= e.path
    decreases directory, |names|
  {
    assert names[0] in Elements(names);
    assert Elements(names[1..]) <= Elements(names);
    var child := directory.children[names[0]];
    if e in EntriesAt(child, Join(prefix, names[0])) {
      EntriesAtBelow(child, prefix, names[0], e);
    } else {
      EntriesBelow(directory, names[1..], prefix, e);
    }
  }

  lemma {:induction false} EntriesAtBelow(child: Node, prefix: string, name: string, e: Entry)
    requires WellNamed(child) && ValidName(name)
    requires e in EntriesAt(child, Join(prefix, name))
    ensures Below(e.path, prefix, name)
    decreases child
  {
    var path := Join(prefix, name);
    if e.path == path {
      BelowChild(prefix, name, "");
      assert path + "" == path;
    } else {
      EntriesBelow(child, Listed(child.children.Keys), path, e);
      assert Base(path) == path + "/";
      var rest := e.path[|path|..];
      assert e.path == path + rest && rest[0] == '/';
      BelowChild(prefix, name, rest);
    }
  }

  function Inside<T>(xs: seq<T>, inside: T -> bool): nat {
    if xs == [] then 0 else (if inside(xs[0]) then 1 else 0) + Inside(xs[1..], inside)
  }

  lemma {:induction false} InsideAdds<T>(xs: seq<T>, ys: seq<T>, inside: T -> bool)
    ensures Inside(xs + ys, inside) == Inside(xs, inside) + Inside(ys, inside)
  {
    if xs == [] {
      assert xs + ys == ys;
    } else {
      assert (xs + ys)[1..] == xs[1..] + ys;
      InsideAdds(xs[1..], ys, inside);
    }
  }

  lemma {:induction false} InsideAll<T>(xs: seq<T>, inside: T -> bool)
    ensures (forall x | x in xs :: inside(x)) ==> Inside(xs, inside) == |xs|
    ensures (forall x | x in xs :: !inside(x)) ==> Inside(xs, inside) == 0
  {
    if xs != [] { InsideAll(xs[1..], inside); }
  }

  /** Two lists that switch from "in" to "out" once split at the same place. */
  lemma SplitAgrees<T>(xs: seq<T>, r: seq<T>, ys: seq<T>, s: seq<T>, inside: T -> bool)
    requires xs + r == ys + s
    requires forall x | x in xs :: inside(x)
    requires forall y | y in ys :: inside(y)
    requires forall x | x in r :: !inside(x)
    requires forall y | y in s :: !inside(y)
    ensures xs == ys && r == s
  {
    InsideAdds(xs, r, inside);
    InsideAdds(ys, s, inside);
    InsideAll(xs, inside); InsideAll(r, inside);
    InsideAll(ys, inside); InsideAll(s, inside);
    assert |xs| == |ys|;
    assert xs == (xs + r)[..|xs|] && ys == (ys + s)[..|ys|];
    assert r == (xs + r)[|xs|..] && s == (ys + s)[|ys|..];
  }

  /** The first entry names the first child and tells its kind. */
  lemma FirstEntry(directory: Node, names: seq<string>, prefix: string)
    requires directory.Directory? && Plain(directory)
    requires Elements(names) <= directory.children.Keys && names != []
    ensures names[0] in directory.children
    ensures |Entries(directory, names, prefix)| > 0
    ensures Entries(directory, names, prefix)[0].path == Join(prefix, names[0])
    ensures Entries(directory, names, prefix)[0].DirectoryEntry?
        <==> directory.children[names[0]].Directory?
  {
    assert names[0] in Elements(names);
  }

  lemma JoinIsInjective(prefix: string, a: string, b: string)
    requires Join(prefix, a) == Join(prefix, b)
    ensures a == b
  {
    assert Join(prefix, a)[|Base(prefix)|..] == a;
    assert Join(prefix, b)[|Base(prefix)|..] == b;
  }

  lemma {:induction false} EntriesDetermineChildren(
    a: Node, na: seq<string>, b: Node, nb: seq<string>, prefix: string)
    requires a.Directory? && WellNamed(a) && Plain(a) && Elements(na) <= a.children.Keys
    requires b.Directory? && WellNamed(b) && Plain(b) && Elements(nb) <= b.children.Keys
    requires Increasing(na) && Increasing(nb)
    requires Entries(a, na, prefix) == Entries(b, nb, prefix)
    ensures na == nb
    ensures forall name | name in na :: a.children[name] == b.children[name]
    decreases a, |na|
  {
    if na != [] { FirstEntry(a, na, prefix); }
    if nb != [] { FirstEntry(b, nb, prefix); }
    if na != [] && nb != [] {
      var name := na[0];
      JoinIsInjective(prefix, na[0], nb[0]);
      var path := Join(prefix, name);
      var ca, cb := a.children[name], b.children[name];
      var inside := (e: Entry) => e.path == path || Below(e.path, prefix, name);
      TailOutside(a, na, prefix, inside);
      TailOutside(b, nb, prefix, inside);
      HeadInside(ca, prefix, name, inside);
      HeadInside(cb, prefix, name, inside);
      SplitAgrees(EntriesAt(ca, path), Entries(a, na[1..], prefix),
                  EntriesAt(cb, path), Entries(b, nb[1..], prefix), inside);
      EntriesDetermineChildren(a, na[1..], b, nb[1..], prefix);
      EntriesAtDetermineNode(ca, cb, path);
      assert na == [name] + na[1..] && nb == [name] + nb[1..];
    }
  }

  lemma HeadInside(child: Node, prefix: string, name: string, inside: Entry -> bool)
    requires WellNamed(child) && ValidName(name)
    requires forall e: Entry ::
      inside(e) == (e.path == Join(prefix, name) || Below(e.path, prefix, name))
    ensures forall e | e in EntriesAt(child, Join(prefix, name)) :: inside(e)
  {
    forall e | e in EntriesAt(child, Join(prefix, name)) ensures inside(e) {
      EntriesAtBelow(child, prefix, name, e);
    }
  }

  lemma TailOutside(directory: Node, names: seq<string>, prefix: string, inside: Entry -> bool)
    requires directory.Directory? && WellNamed(directory) && names != []
    requires Increasing(names) && Elements(names) <= directory.children.Keys
    requires forall e: Entry ::
      inside(e) == (e.path == Join(prefix, names[0]) || Below(e.path, prefix, names[0]))
    ensures Elements(names[1..]) <= directory.children.Keys && Increasing(names[1..])
    ensures forall e | e in Entries(directory, names[1..], prefix) :: !inside(e)
  {
    assert Elements(names[1..]) <= Elements(names);
    assert names[0] in Elements(names);
    forall e | e in Entries(directory, names[1..], prefix) ensures !inside(e) {
      EntriesBelow(directory, names[1..], prefix, e);
      var other :| other in names[1..] && Below(e.path, prefix, other);
      LessIsStrictTotal(names[0], other);
      assert names[0] != other;
      BelowChild(prefix, names[0], "");
      assert Join(prefix, names[0]) + "" == Join(prefix, names[0]);
    }
  }

  lemma {:induction false} EntriesAtDetermineNode(a: Node, b: Node, path: string)
    requires WellNamed(a) && Plain(a) && WellNamed(b) && Plain(b)
    requires EntriesAt(a, path) == EntriesAt(b, path)
    ensures a == b
    decreases a
  {
    assert EntriesAt(a, path)[0] == EntriesAt(b, path)[0];
    if a.Directory? {
      assert EntriesAt(a, path)[1..] == Listing(a, path);
      assert EntriesAt(b, path)[1..] == Listing(b, path);
      ListingDeterminesTree(a, b, path);
    }
  }

  /** Equal listings come from equal trees: names, kinds, sizes, digests and empty directories. */
  lemma {:induction false} ListingDeterminesTree(a: Node, b: Node, prefix: string)
    requires a.Directory? && WellNamed(a) && Plain(a)
    requires b.Directory? && WellNamed(b) && Plain(b)
    requires Listing(a, prefix) == Listing(b, prefix)
    ensures a == b
    decreases a, |a.children| + 1
  {
    var na, nb := Listed(a.children.Keys), Listed(b.children.Keys);
    ListedLength(a.children.Keys);
    EntriesDetermineChildren(a, na, b, nb, prefix);
    assert a.children.Keys == Elements(na) == Elements(nb) == b.children.Keys;
    assert a.children == b.children;
  }

  lemma ListedLength(names: set<string>)
    ensures |Listed(names)| == |names|
  {
    var r := Listed(names);
    forall i, j | 0 <= i < j < |r| ensures r[i] != r[j] { LessIsStrictTotal(r[i], r[j]); }
    DistinctCardinality(r);
  }

  /** Unless the two listings collide, equal manifest digests come from equal trees only. */
  lemma ManifestIdentifiesTree(sha: seq<Entry> -> string, a: Node, b: Node)
    requires WellNamed(a) && WellNamed(b) && Manifestable(a) && Manifestable(b)
    requires Apart(sha, Listing(a, ""), Listing(b, ""))
    ensures ManifestOf(sha, a).sha256 == ManifestOf(sha, b).sha256 <==> a == b
  {
    if ManifestOf(sha, a).sha256 == ManifestOf(sha, b).sha256 {
      ListingDeterminesTree(a, b, "");
    }
  }
}
