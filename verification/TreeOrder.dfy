/**
 The entry list without the walk: every node below the root contributes one entry, and the entries
 stand in the order of their component lists, a directory before what it holds.
 */
module TreeOrder {
  import opened Text
  import opened TreeManifest

  type Route = seq<string>

  /** The node a list of names leads to, through directories only. */
  ghost function NodeAt(node: Node, route: Route): Option<Node>
    decreases |route|
  {
    if route == [] then Some(node)
    else if node.Directory? && route[0] in node.children then
      NodeAt(node.children[route[0]], route[1..])
    else None
  }

  function PathBelow(prefix: string, route: Route): string
    decreases |route|
  {
    if route == [] then prefix else PathBelow(Join(prefix, route[0]), route[1..])
  }

  /** The entry of the node at a route, if it is a file or a directory. */
  ghost predicate IsEntryOf(e: Entry, root: Node, prefix: string, route: Route) {
    && route != []
    && match NodeAt(root, route)
       case Some(File(size, digest)) => e == FileEntry(PathBelow(prefix, route), size, digest)
       case Some(Directory(_, _)) => e == DirectoryEntry(PathBelow(prefix, route))
       case _ => false
  }

  /** Component by component, a shorter list before its extensions. */
  ghost predicate Precedes(r: Route, s: Route)
    decreases |r|
  {
    s != [] && (r == [] || Less(r[0], s[0]) || (r[0] == s[0] && Precedes(r[1..], s[1..])))
  }

  // ---------------------------------------------------------------- the routes of a listing

  ghost function Below(name: string, routes: seq<Route>): (r: seq<Route>)
    ensures |r| == |routes| && forall i | 0 <= i < |r| :: r[i] == [name] + routes[i]
  {
    if routes == [] then [] else [[name] + routes[0]] + Below(name, routes[1..])
  }

  ghost function RoutesAt(child: Node, name: string): seq<Route>
    decreases child
  {
    match child
    case File(_, _) => [[name]]
    case Directory(_, children) => [[name]] + Below(name, Routes(child, Listed(children.Keys)))
    case _ => []
  }

  /** The routes the entries of a directory come from, in the order of the listing. */
  ghost function Routes(directory: Node, names: seq<string>): seq<Route>
    requires directory.Directory? && Elements(names) <= directory.children.Keys
    decreases directory, |names|
  {
    if names == [] then []
    else
      assert names[0] in Elements(names);
      assert Elements(names[1..]) <= Elements(names);
      RoutesAt(directory.children[names[0]], names[0]) + Routes(directory, names[1..])
  }

  ghost predicate Lists(
    entries: seq<Entry>, routes: seq<Route>, root: Node, prefix: string)
  {
    && |entries| == |routes|
    && forall i | 0 <= i < |routes| :: IsEntryOf(entries[i], root, prefix, routes[i])
  }

  lemma {:induction false} ChildIsListed(child: Node, name: string, root: Node, prefix: string)
    requires root.Directory? && name in root.children && root.children[name] == child
    ensures Lists(EntriesAt(child, Join(prefix, name)), RoutesAt(child, name), root, prefix)
    decreases child
  {
    if child.Directory? {
      var path := Join(prefix, name);
      var names := Listed(child.children.Keys);
      NamesAreListed(child, names, path);
      var inner, routes := Entries(child, names, path), Routes(child, names);
      forall i | 0 <= i < |routes| ensures IsEntryOf(inner[i], root, prefix, [name] + routes[i]) {
        OneDown(inner[i], child, name, root, prefix, routes[i]);
      }
      assert NodeAt(child, []) == Some(child);
      assert [name][1..] == [];
      assert IsEntryOf(DirectoryEntry(path), root, prefix, [name]);
    } else {
      assert NodeAt(child, []) == Some(child);
      assert [name][1..] == [];
      assert NodeAt(root, [name]) == Some(child);
      assert PathBelow(prefix, [name]) == Join(prefix, name);
    }
  }

  lemma OneDown(e: Entry, child: Node, name: string, root: Node, prefix: string, route: Route)
    requires root.Directory? && name in root.children && root.children[name] == child
    requires IsEntryOf(e, child, Join(prefix, name), route)
    ensures IsEntryOf(e, root, prefix, [name] + route)
  {
    assert ([name] + route)[1..] == route;
  }

  /** Entry i of a listing is the entry of the node at route i. */
  lemma {:induction false} NamesAreListed(directory: Node, names: seq<string>, prefix: string)
    requires directory.Directory? && Elements(names) <= directory.children.Keys
    ensures Lists(Entries(directory, names, prefix), Routes(directory, names), directory, prefix)
    decreases directory, |names|
  {
    if names != [] {
      assert names[0] in Elements(names) && Elements(names[1..]) <= Elements(names);
      ChildIsListed(directory.children[names[0]], names[0], directory, prefix);
      NamesAreListed(directory, names[1..], prefix);
    }
  }

  // ---------------------------------------------------------------- order

  ghost predicate Ordered(routes: seq<Route>) {
    forall i, j | 0 <= i < j < |routes| :: Precedes(routes[i], routes[j])
  }

  lemma {:induction false} ChildIsOrdered(child: Node, name: string)
    ensures Ordered(RoutesAt(child, name))
    ensures forall r | r in RoutesAt(child, name) :: r != [] && r[0] == name
    decreases child
  {
    if child.Directory? {
      var names := Listed(child.children.Keys);
      NamesAreOrdered(child, names);
      var inner := Routes(child, names);
      var all := RoutesAt(child, name);
      forall i, j | 0 <= i < j < |all| ensures Precedes(all[i], all[j]) {
        assert all[j] == [name] + inner[j - 1] && all[j][1..] == inner[j - 1];
        assert inner[j - 1] in inner;
        if i > 0 {
          assert all[i][1..] == inner[i - 1];
        } else {
          assert all[0][1..] == [];
        }
      }
    }
  }

  lemma {:induction false} NamesAreOrdered(directory: Node, names: seq<string>)
    requires directory.Directory? && Elements(names) <= directory.children.Keys && Increasing(names)
    ensures Ordered(Routes(directory, names))
    ensures forall r | r in Routes(directory, names) :: r != [] && r[0] in names
    decreases directory, |names|
  {
    if names != [] {
      assert names[0] in Elements(names) && Elements(names[1..]) <= Elements(names);
      var child := directory.children[names[0]];
      ChildIsOrdered(child, names[0]);
      NamesAreOrdered(directory, names[1..]);
      var first, rest := RoutesAt(child, names[0]), Routes(directory, names[1..]);
      var all := first + rest;
      forall i, j | 0 <= i < j < |all| ensures Precedes(all[i], all[j]) {
        if i < |first| && j >= |first| {
          assert all[i] in first && all[j] in rest;
          var k :| 0 <= k < |names[1..]| && names[1..][k] == all[j][0];
          assert Less(names[0], names[k + 1]);
        }
      }
    }
  }

  // ---------------------------------------------------------------- completeness

  ghost predicate Listable(node: Option<Node>) {
    node.Some? && (node.value.File? || node.value.Directory?)
  }

  lemma {:induction false} EveryRouteIsListed(directory: Node, names: seq<string>, route: Route)
    requires directory.Directory? && Elements(names) <= directory.children.Keys
    requires route != [] && route[0] in names && Listable(NodeAt(directory, route))
    ensures route in Routes(directory, names)
    decreases |route|, |names|
  {
    assert names[0] in Elements(names) && Elements(names[1..]) <= Elements(names);
    var child := directory.children[names[0]];
    if route[0] != names[0] {
      EveryRouteIsListed(directory, names[1..], route);
    } else if |route| == 1 {
      assert route == [names[0]] && NodeAt(child, route[1..]) == Some(child);
      assert RoutesAt(child, names[0])[0] == route;
    } else {
      assert NodeAt(directory, route) == NodeAt(child, route[1..]);
      var inner := Listed(child.children.Keys);
      assert route[1..][0] in Elements(inner);
      EveryRouteIsListed(child, inner, route[1..]);
      var routes := Routes(child, inner);
      var k :| 0 <= k < |routes| && routes[k] == route[1..];
      assert Below(names[0], routes)[k] == [names[0]] + route[1..] == route;
      assert route in Below(names[0], routes);
    }
  }

  /** The routes of everything below a directory. */
  ghost function AllRoutes(directory: Node): seq<Route>
    requires directory.Directory?
  {
    Routes(directory, Listed(directory.children.Keys))
  }

  /**
   The canonical listing is the entries of all nodes below the root, each once, ordered by their
   component lists.
   */
  lemma ListingIsAllInOrder(directory: Node)
    requires directory.Directory?
    ensures Lists(Listing(directory, ""), AllRoutes(directory), directory, "")
    ensures Ordered(AllRoutes(directory)) && Distinct(AllRoutes(directory))
    ensures forall route ::
      route in AllRoutes(directory) <==> route != [] && Listable(NodeAt(directory, route))
  {
    var names := Listed(directory.children.Keys);
    NamesAreListed(directory, names, "");
    NamesAreOrdered(directory, names);
    var routes := AllRoutes(directory);
    forall i, j | 0 <= i < j < |routes| ensures routes[i] != routes[j] {
      PrecedesIsStrict(routes[i], routes[j]);
    }
    forall route
      ensures route in routes <==> route != [] && Listable(NodeAt(directory, route))
    {
      if route in routes {
        var i :| 0 <= i < |routes| && routes[i] == route;
        assert IsEntryOf(Listing(directory, "")[i], directory, "", route);
      }
      if route != [] && Listable(NodeAt(directory, route)) {
        assert route[0] in Elements(names);
        EveryRouteIsListed(directory, names, route);
      }
    }
  }

  lemma {:induction false} PrecedesIsStrict(r: Route, s: Route)
    requires Precedes(r, s)
    ensures r != s
    decreases |r|
  {
    if r != [] {
      if Less(r[0], s[0]) { LessIsStrictTotal(r[0], s[0]); } else { PrecedesIsStrict(r[1..], s[1..]); }
    }
  }

  // ---------------------------------------------------------------- totals

  /** Counts and bytes of a list are those of its parts; a file counts for its size. */
  lemma {:induction false} TotalsAdd(a: seq<Entry>, b: seq<Entry>)
    ensures TotalBytes(a + b) == TotalBytes(a) + TotalBytes(b)
    ensures FileCount(a + b) == FileCount(a) + FileCount(b)
    ensures DirectoryCount(a + b) == DirectoryCount(a) + DirectoryCount(b)
  {
    if b == [] {
      assert a + b == a;
    } else {
      var n := |b| - 1;
      assert (a + b)[..|a + b| - 1] == a + b[..n];
      TotalsAdd(a, b[..n]);
    }
  }

  /** The bytes of a node: its own size, or those of everything below it. */
  ghost function Bytes(node: Node): nat
    decreases node
  {
    match node
    case File(size, _) => size
    case Directory(_, children) => BytesOf(node, Listed(children.Keys))
    case _ => 0
  }

  ghost function BytesOf(directory: Node, names: seq<string>): nat
    requires directory.Directory? && Elements(names) <= directory.children.Keys
    decreases directory, |names|
  {
    if names == [] then 0
    else
      assert names[0] in Elements(names);
      assert Elements(names[1..]) <= Elements(names);
      Bytes(directory.children[names[0]]) + BytesOf(directory, names[1..])
  }

  lemma {:induction false} TotalIsBytesOf(directory: Node, names: seq<string>, prefix: string)
    requires directory.Directory? && Elements(names) <= directory.children.Keys
    ensures TotalBytes(Entries(directory, names, prefix)) == BytesOf(directory, names)
    decreases directory, |names|
  {
    if names != [] {
      assert names[0] in Elements(names) && Elements(names[1..]) <= Elements(names);
      var path, child := Join(prefix, names[0]), directory.children[names[0]];
      TotalIsBytes(child, path);
      TotalIsBytesOf(directory, names[1..], prefix);
      TotalsAdd(EntriesAt(child, path), Entries(directory, names[1..], prefix));
    }
  }

  lemma {:induction false} TotalIsBytes(node: Node, path: string)
    ensures TotalBytes(EntriesAt(node, path)) == Bytes(node)
    decreases node
  {
    match node {
      case File(size, digest) => assert [FileEntry(path, size, digest)][..0] == [];
      case Directory(_, children) =>
        var names := Listed(children.Keys);
        TotalIsBytesOf(node, names, path);
        TotalsAdd([DirectoryEntry(path)], Entries(node, names, path));
        assert [DirectoryEntry(path)][..0] == [];
      case _ =>
    }
  }

  /** The manifest's total is the sum of all file sizes in the tree. */
  lemma ManifestTotalsTheTree(sha: seq<Entry> -> string, tree: Node)
    requires Manifestable(tree)
    ensures ManifestOf(sha, tree).totalBytes == Bytes(tree)
    ensures ManifestOf(sha, tree).fileCount
      == |set i | 0 <= i < |Listing(tree, "")| && Listing(tree, "")[i].FileEntry?|
  {
    TotalIsBytesOf(tree, Listed(tree.children.Keys), "");
    FilesCounted(Listing(tree, ""));
  }

  lemma {:induction false} FilesCounted(entries: seq<Entry>)
    ensures FileCount(entries) == |set i | 0 <= i < |entries| && entries[i].FileEntry?|
  {
    if entries != [] {
      var n := |entries| - 1;
      FilesCounted(entries[..n]);
      assert (set i | 0 <= i < |entries| && entries[i].FileEntry?)
        == (set i | 0 <= i < n && entries[..n][i].FileEntry?)
           + if entries[n].FileEntry? then {n} else {};
    }
  }
}
