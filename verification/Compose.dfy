// An absolute redirect is a good substitute for walking down from the parent: the
// layer-by-layer search for a whole path finds the same directories, in the same
// layers, as the name-by-name search through the stack of every ancestor.  The two
// loops are nested the other way round, and either may be cut short by an opaque
// directory or whiteout, or sent elsewhere by a redirect on a lower layer.

module Compose {
  import opened Tree
  import opened Frame

  /** One layer: walking path + [n] is walking path and then looking up n. */
  lemma {:induction false} WalkSnoc(base: Node, pre: Path, path: AbsPath, n: Name, isDir: bool, stop: bool)
    ensures var f := Walk(base, pre, path, true, stop);
            var g := Walk(base, pre, path + [n], isDir, stop);
            && (f.next.Go? ==> f.next.target.Abs?)
            && (f.node.None? ==>
                  g == Found(None, if f.next.Stop? then Stop else Go(Abs(f.next.target.path + [n]))))
            && (f.node.Some? ==>
                  f.node.value.Dir? &&
                  var h := Single(f.node.value, n, isDir);
                  && g.node == h.node
                  && g.next ==
                     match h.next
                     case Go(Rel(m)) => if f.next.Stop? then Stop else Go(Abs(f.next.target.path + [m]))
                     case other => other)
    decreases |path|
  {
    assert (path + [n])[1..] == path[1..] + [n];
    assert (path + [n])[0] == path[0];
    var e := EntryOf(base, path[0]);
    if e.None? {
      assert pre + (path + [n]) == (pre + path) + [n];
    } else if e.value.Dir? {
      var d := e.value;
      var pre', stop' := NextPrefix(d, pre, path[0]), NextStop(d, stop);
      if |path| == 1 {
        assert (path + [n])[1..] == [n];
        WalkOne(d, pre', n, isDir, stop');
      } else {
        WalkSnoc(d, pre', path[1..], n, isDir, stop');
      }
    }
  }

  lemma WalkOne(base: Node, pre: Path, n: Name, isDir: bool, stop: bool)
    ensures var g := Walk(base, pre, [n], isDir, stop);
            var h := Single(base, n, isDir);
            && g.node == h.node
            && g.next ==
               match h.next
               case Go(Rel(m)) => if stop then Stop else Go(Abs(pre + [m]))
               case other => other
  {
  }

  /** All layers from k + 1 down: the search for path + [n] is the search for n below
      what the search for path found. */
  lemma {:induction false} RootsSnoc(roots: seq<Node>, k: nat, path: AbsPath, n: Name, isDir: bool)
    ensures LookupStack(roots, LookupRoots(roots, k, path, true), n, isDir)
         == LookupRoots(roots, k, path + [n], isDir)
    decreases |roots| - k, 1
  {
    if k < |roots| {
      if Walk(roots[k], [], path, true, false).node.None? {
        RootsSnocMissed(roots, k, path, n, isDir);
      } else {
        RootsSnocFound(roots, k, path, n, isDir);
      }
    }
  }

  /** Layer k + 1 does not have the path. */
  lemma {:induction false} RootsSnocMissed(roots: seq<Node>, k: nat, path: AbsPath, n: Name, isDir: bool)
    requires k < |roots| && Walk(roots[k], [], path, true, false).node.None?
    ensures LookupStack(roots, LookupRoots(roots, k, path, true), n, isDir)
         == LookupRoots(roots, k, path + [n], isDir)
    decreases |roots| - k, 0
  {
    WalkSnoc(roots[k], [], path, n, isDir, false);
    var f := Walk(roots[k], [], path, true, false);
    if f.next.Go? {
      RootsSnoc(roots, k + 1, f.next.target.path, n, isDir);
      assert LookupRoots(roots, k, path, true) == LookupRoots(roots, k + 1, f.next.target.path, true);
      assert LookupRoots(roots, k, path + [n], isDir)
          == LookupRoots(roots, k + 1, f.next.target.path + [n], isDir);
    }
  }

  /** Layer k + 1 has a directory there. */
  lemma {:induction false} RootsSnocFound(roots: seq<Node>, k: nat, path: AbsPath, n: Name, isDir: bool)
    requires k < |roots| && Walk(roots[k], [], path, true, false).node.Some?
    ensures LookupStack(roots, LookupRoots(roots, k, path, true), n, isDir)
         == LookupRoots(roots, k, path + [n], isDir)
    decreases |roots| - k, 0
  {
    WalkSnoc(roots[k], [], path, n, isDir, false);
    var f, g := Walk(roots[k], [], path, true, false), Walk(roots[k], [], path + [n], isDir, false);
    var h := Single(f.node.value, n, isDir);
    var rest := if f.next.Go? then LookupRoots(roots, k + 1, f.next.target.path, true) else [];
    FoundFirst(roots, k, path);
    SearchBelow(roots, Entry(k + 1, f.node.value), rest, n, isDir);
    assert IsDirNow(g, isDir) == IsDirNow(h, isDir);
    match h.next {
      case Go(Rel(m)) =>
        if f.next.Go? {
          RootsSnoc(roots, k + 1, f.next.target.path, m, IsDirNow(h, isDir));
        }
      case _ =>
    }
  }

  lemma FoundFirst(roots: seq<Node>, k: nat, path: AbsPath)
    requires k < |roots| && Walk(roots[k], [], path, true, false).node.Some?
    ensures var f := Walk(roots[k], [], path, true, false);
            && (f.next.Go? ==> f.next.target.Abs?)
            && LookupRoots(roots, k, path, true) ==
               [Entry(k + 1, f.node.value)] +
               (if f.next.Go? then LookupRoots(roots, k + 1, f.next.target.path, true) else [])
  {
    WalkSnoc(roots[k], [], path, "a", true, false);
  }

  /** What a search that met e goes on to find. */
  function FoundLater(roots: seq<Node>, e: Entry, rest: seq<Entry>, h: Found, isDir: bool): seq<Entry> {
    match h.next
    case Stop => []
    case Go(Rel(m)) => LookupStack(roots, rest, m, IsDirNow(h, isDir))
    case Go(Abs(p)) => LookupRoots(roots, e.layer, p, IsDirNow(h, isDir))
  }

  lemma SearchBelow(roots: seq<Node>, e: Entry, rest: seq<Entry>, n: Name, isDir: bool)
    ensures var h := Single(e.node, n, isDir);
            LookupStack(roots, [e] + rest, n, isDir) == Hit(h, e.layer) + FoundLater(roots, e, rest, h, isDir)
  {
    assert ([e] + rest)[1..] == rest;
  }

  lemma {:induction false} RootEntriesSnoc(roots: seq<Node>, k: nat, n: Name, isDir: bool)
    ensures LookupStack(roots, RootEntries(roots, k), n, isDir) == LookupRoots(roots, k, [n], isDir)
    decreases |roots| - k
  {
    if k < |roots| {
      WalkOne(roots[k], [], n, isDir, false);
      var h := Single(roots[k], n, isDir);
      var entries := RootEntries(roots, k);
      assert entries[0] == Entry(k + 1, roots[k]) && entries[1..] == RootEntries(roots, k + 1);
      if h.next.Go? && h.next.target.Rel? {
        assert [] + [h.next.target.name] == [h.next.target.name];
        RootEntriesSnoc(roots, k + 1, h.next.target.name, IsDirNow(h, isDir));
      }
    }
  }

  /** The redirect an overlay inode holds: one under an opaque mark is never read. */
  function HeldRedirect(d: Node): Option<Redirect> {
    if d.Dir? && !d.isOpaque then d.redirect else None
  }

  function HeldAt(u: Node, p: Path): Option<Redirect> {
    if UpperAt(u, p).Some? then HeldRedirect(UpperAt(u, p).value) else None
  }

  /** The path, on the lower layers, of the directory at p. */
  function LowerPath(u: Node, p: AbsPath): AbsPath
    decreases |p|
  {
    var parent := p[..|p| - 1];
    var last := p[|p| - 1];
    match HeldAt(u, p)
    case Some(Abs(a)) => a
    case Some(Rel(r)) => if parent == [] then [r] else LowerPath(u, parent) + [r]
    case None => if parent == [] then [last] else LowerPath(u, parent) + [last]
  }

  /** The upper directories hold the redirects they held, but at and below a path. */
  ghost predicate HeldElsewhere(u: Node, u': Node, x: Path) {
    forall q: Path :: !(x <= q) ==> HeldAt(u', q) == HeldAt(u, q)
  }

  ghost predicate SameHeld(u: Node, u': Node) {
    forall q: Path :: HeldAt(u', q) == HeldAt(u, q)
  }

  /** A change of one entry does not change the marks above it. */
  lemma {:induction false} PutHeld(u: Node, p: Path, n: Name, v: Option<Node>, q: Path)
    requires UpperDir(u, p) && !(p + [n] <= q)
    ensures HeldAt(Put(u, p, n, v), q) == HeldAt(u, q)
    decreases |p|
  {
    PutOther(u, p, n, v, q);
    if q <= p {
      PutMarks(u, p, n, v);
      if q != [] {
        UpperStep(u, p);
        assert q == [q[0]] + q[1..] && p == [p[0]] + p[1..];
        assert !(p[1..] + [n] <= q[1..]);
        PutHeld(u.children[p[0]], p[1..], n, v, q[1..]);
      }
    }
  }

  /** The lower path hangs on the redirects on the way there only. */
  lemma {:induction false} LowerPathSame(u: Node, u': Node, x: Path, p: AbsPath)
    requires HeldElsewhere(u, u', x) && !(x <= p)
    ensures LowerPath(u', p) == LowerPath(u, p)
    decreases |p|
  {
    if |p| > 1 {
      var parent := p[..|p| - 1];
      assert parent <= p;
      LowerPathSame(u, u', x, parent);
    }
  }

  /** Searching every layer root for the lower path of a merged directory finds the
      very directories merged under it. */
  lemma {:induction false} LowerPathFindsStack(u: Node, roots: seq<Node>, p: AbsPath)
    requires UpperDir(u, p)
    requires StackAt(u, roots, p).lowers != []
    ensures LookupRoots(roots, 0, LowerPath(u, p), true) == StackAt(u, roots, p).lowers
    decreases |p|
  {
    var s := Stack(Some(u), RootEntries(roots, 0));
    var parent := p[..|p| - 1];
    var last := p[|p| - 1];
    assert parent + [last] == p;
    UpperAtPrefix(u, parent, [last]);
    UpperAtConcat(u, parent, [last]);
    DescendUpper(roots, s, u, parent);
    DescendSnoc(roots, s, parent, last);
    var above := StackAt(u, roots, parent);
    var d := UpperAt(u, p).value;
    assert UpperEntry(above.upper, last) == Some(d);
    assert !d.isOpaque;
    match NextName(d, last)
    case Abs(a) =>
    case Rel(r) =>
      if parent == [] {
        RootEntriesSnoc(roots, 0, r, true);
      } else {
        assert above.lowers != [];
        LowerPathFindsStack(u, roots, parent);
        RootsSnoc(roots, 0, LowerPath(u, parent), r, true);
      }
  }

}
