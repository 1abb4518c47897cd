// Decoding a directory handle: from a real directory on one layer back to a connected
// overlay directory, while others may rename.

module Export {
  import opened Seqs
  import opened Tree
  import opened Frame

  datatype Answer<O> = NotThere | Connected(dentry: O) | Failed(errno: int)

  const EIO := -5
  const EXDEV := -18
  const ENOENT := -2
  const ESTALE := -116
  const ECHILD := -10

  /** One layer and the overlay at one moment.  cached is what the inode cache and the index
      answer for a real directory; child looks up the name of a real directory in an overlay
      directory. */
  datatype World<!R, !O> = World(
    root: R, parent: R -> R, depth: R -> nat,
    top: O, realAt: O -> Option<R>, cached: R -> Answer<O>, child: (O, R) -> Option<O>)

  /** Parents are less deep, and the root of the overlay has the root of the layer. */
  ghost predicate Sane<R(!new), O(!new)>(w: World<R, O>) {
    && (forall r :: w.parent(r) == r || w.depth(w.parent(r)) < w.depth(r))
    && w.realAt(w.top) == Some(w.root)
  }

  /** a is r or above it. */
  ghost predicate IsAbove<R(!new), O(!new)>(w: World<R, O>, a: R, r: R)
    requires Sane(w)
    decreases w.depth(r)
  {
    a == r || (w.parent(r) != r && IsAbove(w, a, w.parent(r)))
  }

  ghost function Distance<R(!new), O(!new)>(w: World<R, O>, a: R, r: R): nat
    requires Sane(w) && IsAbove(w, a, r)
    decreases w.depth(r)
  {
    if a == r then 0 else 1 + Distance(w, a, w.parent(r))
  }

  lemma {:induction false} AboveAbove<R(!new), O(!new)>(w: World<R, O>, a: R, b: R, r: R)
    requires Sane(w) && IsAbove(w, a, b) && IsAbove(w, b, r)
    ensures IsAbove(w, a, r) && Distance(w, a, r) == Distance(w, a, b) + Distance(w, b, r)
    decreases w.depth(r)
  {
    if b != r {
      AboveAbove(w, a, b, w.parent(r));
      AboveIsLessDeep(w, a, b);
      AboveIsLessDeep(w, b, w.parent(r));
    }
  }

  lemma {:induction false} AboveIsLessDeep<R(!new), O(!new)>(w: World<R, O>, a: R, r: R)
    requires Sane(w) && IsAbove(w, a, r)
    ensures a == r || w.depth(a) < w.depth(r)
    decreases w.depth(r)
  {
    if a != r {
      AboveIsLessDeep(w, a, w.parent(r));
    }
  }

  lemma OneUp<R(!new), O(!new)>(w: World<R, O>, r: R)
    requires Sane(w) && w.parent(r) != r
    ensures IsAbove(w, w.parent(r), r) && Distance(w, w.parent(r), r) == 1
  {
    assert IsAbove(w, w.parent(r), w.parent(r)) && Distance(w, w.parent(r), w.parent(r)) == 0;
  }

  /** ovl_lookup_real_inode: what the cache answers is checked. */
  function LookupRealInode<R(==), O>(w: World<R, O>, dir: R): Answer<O> {
    match w.cached(dir)
    case Connected(d) => if w.realAt(d) == Some(dir) then Connected(d) else Failed(EIO)
    case other => other
  }

  /** The cache has nothing for x and the directories above it up to, but not including, r. */
  ghost predicate NoneBelow<R(!new), O(!new)>(w: World<R, O>, r: R, x: R)
    requires Sane(w)
    decreases w.depth(x)
  {
    x == r || (LookupRealInode(w, x).NotThere? && w.parent(x) != x && NoneBelow(w, r, w.parent(x)))
  }

  /** r is the first directory from dir upwards that the cache has an answer for, and a is this
      answer; the root of the layer has the root of the overlay. */
  ghost predicate Nearest<R(!new), O(!new)>(w: World<R, O>, r: R, dir: R, a: Answer<O>)
    requires Sane(w)
  {
    && NoneBelow(w, r, dir) && (IsAbove(w, w.root, dir) ==> IsAbove(w, w.root, r))
    && if r == w.root then a == Answer.Connected(w.top) else LookupRealInode(w, r) == a && !a.NotThere?
  }

  lemma {:induction false} NoneBelowIsAbove<R(!new), O(!new)>(w: World<R, O>, r: R, x: R)
    requires Sane(w) && NoneBelow(w, r, x)
    ensures IsAbove(w, r, x)
    decreases w.depth(x)
  {
    if x != r {
      NoneBelowIsAbove(w, r, w.parent(x));
    }
  }

  lemma {:induction false} NoneBelowNext<R(!new), O(!new)>(w: World<R, O>, r: R, x: R)
    requires Sane(w) && NoneBelow(w, r, x) && LookupRealInode(w, r).NotThere? && w.parent(r) != r
    ensures NoneBelow(w, w.parent(r), x)
    decreases w.depth(x)
  {
    if x != r {
      NoneBelowNext(w, r, w.parent(x));
    } else {
      assert NoneBelow(w, w.parent(r), w.parent(r));
    }
  }

  /** There is one such directory at most. */
  lemma {:induction false} NearestIsOne<R(!new), O(!new)>(w: World<R, O>, dir: R, r: R, a: Answer<O>,
                                                              r': R, a': Answer<O>)
    requires Sane(w) && IsAbove(w, w.root, dir) && Nearest(w, r, dir, a) && Nearest(w, r', dir, a')
    ensures r == r' && a == a'
    decreases w.depth(dir)
  {
    if dir == w.root {
      RootHasNoOther(w, r);
      RootHasNoOther(w, r');
    } else if dir != r && dir != r' {
      NearestIsOne(w, w.parent(dir), r, a, r', a');
    }
  }

  lemma RootHasNoOther<R(!new), O(!new)>(w: World<R, O>, r: R)
    requires Sane(w) && NoneBelow(w, r, w.root) && IsAbove(w, w.root, r)
    ensures r == w.root
  {
    NoneBelowIsAbove(w, r, w.root);
    AboveIsLessDeep(w, r, w.root);
    AboveIsLessDeep(w, w.root, r);
  }

  /** ovl_lookup_real_ancestor: the nearest directory that is known, be it one renamed in the
      overlay; the root of the overlay only if nothing in between is known. */
  method LookupRealAncestor<R(==, !new), O(!new)>(w: World<R, O>, dir: R) returns (a: Answer<O>)
    requires Sane(w)
    ensures (exists r :: Nearest(w, r, dir, a)) || (a == Failed(EXDEV) && !IsAbove(w, w.root, dir))
    ensures !a.NotThere? && (dir == w.root ==> a == Answer.Connected(w.top))
    ensures a.Connected? ==>
        w.realAt(a.dentry).Some? && (IsAbove(w, w.realAt(a.dentry).value, dir) || a.dentry == w.top)
    ensures IsAbove(w, w.root, dir) && a.Connected? ==>
        IsAbove(w, w.realAt(a.dentry).value, dir) && IsAbove(w, w.root, w.realAt(a.dentry).value)
    ensures IsAbove(w, w.root, dir) && a.Failed? ==>
        exists r :: IsAbove(w, r, dir) && LookupRealInode(w, r) == a
  {
    if dir == w.root {
      assert Nearest(w, dir, dir, Answer.Connected(w.top));
      return Connected(w.top);
    }
    var next := dir;
    while true
      invariant IsAbove(w, next, dir) && next != w.root
      invariant IsAbove(w, w.root, dir) ==> IsAbove(w, w.root, next)
      invariant NoneBelow(w, next, dir)
      decreases w.depth(next)
    {
      var parent := w.parent(next);
      a := LookupRealInode(w, next);
      if !a.NotThere? {
        assert Nearest(w, next, dir, a);
        return;
      }
      if parent != next {
        NoneBelowNext(w, next, dir);
      }
      if parent == w.root {
        assert Nearest(w, parent, dir, Answer.Connected(w.top));
        return Connected(w.top);
      }
      if parent == next {
        return Failed(EXDEV);
      }
      OneUp(w, next);
      AboveAbove(w, parent, next, dir);
      next := parent;
    }
  }

  /** ovl_lookup_real_one */
  function LookupRealOne<R(==), O>(w: World<R, O>, connected: O, dir: R): Answer<O> {
    if w.realAt(connected) != Some(w.parent(dir)) then Failed(ECHILD)
    else
      match w.child(connected, dir)
      case None => Failed(ENOENT)
      case Some(d) => if w.realAt(d) == Some(dir) then Connected(d) else Failed(ESTALE)
  }

  /** The inner loop of ovl_lookup_real: the topmost directory not yet connected, below the
      connected one, or below the root if dir is not under that any more. */
  method FindNext<R(==, !new), O(!new)>(w: World<R, O>, dir: R, connected: O)
    returns (next: R, from: O, error: int)
    requires Sane(w) && w.realAt(connected) != Some(dir) && dir != w.root
    ensures error == 0 || error == EXDEV
    ensures IsAbove(w, w.root, dir) && w.realAt(connected).Some?
            && IsAbove(w, w.realAt(connected).value, dir) && IsAbove(w, w.root, w.realAt(connected).value) ==>
        && error == 0 && from == connected && IsAbove(w, next, dir) && w.parent(next) != next
        && Some(w.parent(next)) == w.realAt(connected)
        && Distance(w, next, dir) + 1 == Distance(w, w.realAt(connected).value, dir)
  {
    ghost var good := IsAbove(w, w.root, dir) && w.realAt(connected).Some?
      && IsAbove(w, w.realAt(connected).value, dir) && IsAbove(w, w.root, w.realAt(connected).value);
    var target := w.realAt(connected);
    next, from, error := dir, connected, 0;
    while true
      invariant IsAbove(w, next, dir) && error == 0 && from == connected
      invariant good ==> IsAbove(w, target.value, next) && target != Some(next)
      invariant good ==> Distance(w, target.value, dir) == Distance(w, target.value, next) + Distance(w, next, dir)
      decreases w.depth(next)
    {
      var parent := w.parent(next);
      if Some(parent) == target {
        if good {
          assert w.parent(next) != next;
          assert Distance(w, target.value, next) == 1 + Distance(w, target.value, parent);
        }
        return;
      }
      if parent == w.root {
        if good {
          AboveIsLessDeep(w, w.root, target.value);
          AboveIsLessDeep(w, target.value, parent);
        }
        from := w.top;
        return;
      }
      if parent == next {
        error := EXDEV;
        return;
      }
      OneUp(w, next);
      AboveAbove(w, parent, next, dir);
      next := parent;
    }
  }

  /** What looking up name after name leads to, from d, which has r, down to x. */
  ghost function NameWalk<R(!new), O(!new)>(w: World<R, O>, d: O, r: R, x: R): Answer<O>
    requires Sane(w)
    decreases w.depth(x)
  {
    if x == r || w.parent(x) == x then Answer.Connected(d)
    else
      match NameWalk(w, d, r, w.parent(x))
      case Connected(c) => LookupRealOne(w, c, x)
      case other => other
  }

  /** From the nearest directory that is known, name after name. */
  ghost predicate Reconnects<R(!new), O(!new)>(w: World<R, O>, dir: R, a: Answer<O>)
    requires Sane(w)
  {
    exists r, known: Answer<O> :: Nearest(w, r, dir, known)
      && a == if known.Connected? then NameWalk(w, known.dentry, r, dir) else known
  }

  /** A lookup that fails on the way is what comes of it. */
  lemma {:induction false} WalkFails<R(!new), O(!new)>(w: World<R, O>, d: O, r: R, next: R, x: R)
    requires Sane(w) && IsAbove(w, r, next) && r != next && IsAbove(w, next, x)
    requires !NameWalk(w, d, r, next).Connected?
    ensures NameWalk(w, d, r, x) == NameWalk(w, d, r, next)
    decreases w.depth(x)
  {
    if x != next {
      WalkFails(w, d, r, next, w.parent(x));
      AboveIsLessDeep(w, r, next);
      AboveIsLessDeep(w, next, w.parent(x));
    }
  }

  /** A directory that lookup by name does not lead to, although its parent is connected. */
  ghost predicate Broken<R(!new), O(!new)>(w: World<R, O>, dir: R)
    requires Sane(w)
  {
    exists connected, next :: IsAbove(w, next, dir) && w.parent(next) != next
      && w.realAt(connected) == Some(w.parent(next))
      && !LookupRealOne(w, connected, next).Connected?
  }

  ghost predicate CacheFails<R(!new), O(!new)>(w: World<R, O>, dir: R)
    requires Sane(w)
  {
    exists r :: IsAbove(w, r, dir) && LookupRealInode(w, r).Failed?
  }

  /** connected is where looking up name after name has led, for a directory at or above dir. */
  ghost predicate OnTheWay<R(!new), O(!new)>(w: World<R, O>, dir: R, connected: O, r: R, known: Answer<O>)
    requires Sane(w)
  {
    && Nearest(w, r, dir, known) && known.Connected? && w.realAt(connected).Some?
    && var at := w.realAt(connected).value;
       && IsAbove(w, at, dir) && IsAbove(w, w.root, at) && IsAbove(w, r, at)
       && NameWalk(w, known.dentry, r, at) == Answer.Connected(connected)
  }

  lemma SetsOut<R(!new), O(!new)>(w: World<R, O>, dir: R, r: R, known: Answer<O>)
    requires Sane(w) && IsAbove(w, w.root, dir) && Nearest(w, r, dir, known) && known.Connected?
    ensures OnTheWay(w, dir, known.dentry, r, known) && w.realAt(known.dentry) == Some(r)
  {
    NoneBelowIsAbove(w, r, dir);
  }

  /** One more name. */
  lemma OneMoreName<R(!new), O(!new)>(w: World<R, O>, dir: R, connected: O, r: R, known: Answer<O>, next: R)
    requires Sane(w) && OnTheWay(w, dir, connected, r, known) && IsAbove(w, next, dir)
    requires w.parent(next) != next && w.realAt(connected) == Some(w.parent(next))
    ensures var a := LookupRealOne(w, connected, next);
            && a != Failed(ECHILD) && !a.NotThere?
            && (a.Connected? ==> OnTheWay(w, dir, a.dentry, r, known) && w.realAt(a.dentry) == Some(next))
            && (a.Failed? ==> a == NameWalk(w, known.dentry, r, dir) && Broken(w, dir))
  {
    var at := w.parent(next);
    OneUp(w, next);
    AboveAbove(w, w.root, at, next);
    AboveAbove(w, r, at, next);
    AboveIsLessDeep(w, r, at);
    var a := LookupRealOne(w, connected, next);
    assert NameWalk(w, known.dentry, r, next) == a;
    if a.Failed? {
      WalkFails(w, known.dentry, r, next, dir);
    }
  }

  /** ovl_lookup_real.  Each look at the layers and the overlay sees the world of its moment;
      looks is the number of the last one.  Whatever the others do, a directory that is returned
      has just been seen, in this last look, to have the real directory at its layer.  If nobody
      changes anything, every round brings it one step nearer, and it fails only where a lookup
      by name fails or the cache does.  Nothing is returned only if the rounds run out, which the
      code would not notice. */
  method LookupReal<R(==, !new), O(!new)>(worlds: nat -> World<R, O>, dir: R, rounds: nat)
    returns (a: Answer<O>, ghost looks: nat)
    requires forall n :: Sane(worlds(n)) && worlds(n).root == worlds(0).root && worlds(n).top == worlds(0).top
    ensures a.Connected? ==> 0 < looks && worlds(looks).realAt(a.dentry) == Some(dir)
    ensures looks <= 3 * rounds
    ensures a.NotThere? ==> looks >= 2 * rounds
    ensures (forall n :: worlds(n) == worlds(0)) && IsAbove(worlds(0), worlds(0).root, dir) ==>
        && (rounds > Distance(worlds(0), worlds(0).root, dir) ==> !a.NotThere?)
        && (a.Failed? ==> Broken(worlds(0), dir) || CacheFails(worlds(0), dir))
        && (!a.NotThere? ==> Reconnects(worlds(0), dir, a))
  {
    ghost var w0 := worlds(0);
    ghost var still := (forall n :: worlds(n) == w0) && IsAbove(w0, w0.root, dir);
    var turn, left := 0, rounds;
    looks := 0;
    a := LookupRealAncestor(worlds(turn), dir);
    ghost var known, r := a, dir;
    if still {
      r :| Nearest(w0, r, dir, known);
    }
    if a.Failed? {
      return;
    }
    var connected := a.dentry;
    if still {
      SetsOut(w0, dir, r, known);
      AboveAbove(w0, w0.root, w0.realAt(connected).value, dir);
    }
    while left > 0
      invariant dir == w0.root ==> connected == w0.top
      invariant 0 <= left && 2 * (rounds - left) <= turn <= 3 * (rounds - left) && looks == turn
      invariant still ==> OnTheWay(w0, dir, connected, r, known)
      invariant still && rounds > Distance(w0, w0.root, dir) ==> left > Distance(w0, w0.realAt(connected).value, dir)
    {
      turn, left := turn + 1, left - 1;
      looks := turn;
      var w := worlds(turn);
      if w.realAt(connected) == Some(dir) {
        return Answer.Connected(connected), looks;
      }
      var next, from, error := FindNext(w, dir, connected);
      if error != 0 {
        return Failed(error), looks;
      }
      connected, turn := from, turn + 1;
      a := LookupRealOne(worlds(turn), connected, next);
      if still {
        OneMoreName(w0, dir, connected, r, known, next);
      }
      if a == Failed(ECHILD) {
        turn := turn + 1;
        a := LookupRealAncestor(worlds(turn), dir);
      }
      looks := turn;
      if a.Failed? {
        return;
      }
      connected := a.dentry;
    }
    a := NotThere;
  }

  /** The same when nobody changes anything. */
  method LookupRealStill<R(==, !new), O(!new)>(w: World<R, O>, dir: R) returns (a: Answer<O>)
    requires Sane(w) && IsAbove(w, w.root, dir)
    ensures a.Connected? ==> w.realAt(a.dentry) == Some(dir)
    ensures Reconnects(w, dir, a)
    ensures !a.Connected? ==> Broken(w, dir) || CacheFails(w, dir)
  {
    ghost var looks;
    var worlds := (n: nat) => w;
    a, looks := LookupReal(worlds, dir, w.depth(dir) + 1);
    assert worlds(looks) == w;
    DistanceBounded(w, w.root, dir);
  }

  lemma {:induction false} DistanceBounded<R(!new), O(!new)>(w: World<R, O>, a: R, r: R)
    requires Sane(w) && IsAbove(w, a, r)
    ensures Distance(w, a, r) <= w.depth(r)
    decreases w.depth(r)
  {
    if a != r {
      DistanceBounded(w, a, w.parent(r));
    }
  }

  // ------------------------------------------------------------------- the upper layer

  function Up(p: Path): Path {
    if p == [] then [] else p[..|p| - 1]
  }

  /** The upper layer, whose directories are called by their paths. */
  function UpperWorld(u: Node, roots: seq<Node>, cached: Path -> Answer<Path>): World<Path, Path> {
    World([], Up, (p: Path) => |p|, [],
      (p: Path) =>
        var up := StackAt(u, roots, p).upper;
        if up.Some? && up.value.Dir? then Some(p) else None,
      cached,
      (c: Path, r: Path) =>
        if r == [] then None
        else
          var child := c + [r[|r| - 1]];
          if View(u, roots, child) == Absent then None else Some(child))
  }

  lemma UpperDirIsShown(u: Node, roots: seq<Node>, p: Path)
    requires UpperDir(u, p)
    ensures View(u, roots, p) == ADir && StackAt(u, roots, p).upper == UpperAt(u, p)
  {
    DescendUpper(roots, Stack(Some(u), RootEntries(roots, 0)), u, p);
  }

  lemma {:induction false} AboveIsPrefix(w: World<Path, Path>, a: Path, p: Path)
    requires Sane(w) && w.parent == Up && w.root == []
    ensures IsAbove(w, a, p) ==> a <= p
    ensures IsAbove(w, [], p)
    decreases w.depth(p)
  {
    if p != [] {
      AboveIsPrefix(w, a, Up(p));
    }
  }

  lemma UpperIsSane(u: Node, roots: seq<Node>, cached: Path -> Answer<Path>)
    requires u.Dir?
    ensures Sane(UpperWorld(u, roots, cached))
  {
    var w := UpperWorld(u, roots, cached);
    assert StackAt(u, roots, []).upper == Some(u);
    assert w.realAt(w.top) == Some(w.root);
    forall r ensures w.parent(r) == r || w.depth(w.parent(r)) < w.depth(r) {
    }
  }

  /** Lookup finds each upper directory under its own path. */
  lemma UpperFinds(u: Node, roots: seq<Node>, cached: Path -> Answer<Path>, c: Path, next: Path)
    requires UpperDir(u, next) && next != []
    requires UpperWorld(u, roots, cached).realAt(c) == Some(Up(next))
    ensures LookupRealOne(UpperWorld(u, roots, cached), c, next) == Answer.Connected(next)
  {
    UpperDirIsShown(u, roots, next);
    UpToLast(next);
    assert c == Up(next);
  }

  lemma AboveIsUpper(u: Node, a: Path, dir: Path)
    requires UpperDir(u, dir) && a <= dir
    ensures UpperDir(u, a)
  {
    assert dir == a + dir[|a|..];
    if a != dir {
      UpperAtPrefix(u, a, dir[|a|..]);
    }
  }

  lemma UpperIsNotBroken(u: Node, roots: seq<Node>, cached: Path -> Answer<Path>, dir: Path)
    requires UpperDir(u, dir) && Sane(UpperWorld(u, roots, cached))
    ensures !Broken(UpperWorld(u, roots, cached), dir)
  {
    var w := UpperWorld(u, roots, cached);
    forall c, next | IsAbove(w, next, dir) && w.parent(next) != next && w.realAt(c) == Some(w.parent(next))
      ensures LookupRealOne(w, c, next).Connected?
    {
      AboveIsPrefix(w, next, dir);
      AboveIsUpper(u, next, dir);
      UpperFinds(u, roots, cached, c, next);
    }
  }

  lemma UpperCacheHolds(u: Node, roots: seq<Node>, cached: Path -> Answer<Path>, dir: Path)
    requires Sane(UpperWorld(u, roots, cached))
    requires forall r: Path :: cached(r) == NotThere || (cached(r) == Answer.Connected(r) && UpperDir(u, r))
    ensures !CacheFails(UpperWorld(u, roots, cached), dir)
  {
    forall r: Path ensures !LookupRealInode(UpperWorld(u, roots, cached), r).Failed? {
      if cached(r).Connected? {
        UpperDirIsShown(u, roots, r);
      }
    }
  }

  /** A handle of an upper directory decodes to the overlay directory at the same path, if
      nobody changes anything and the cache does not lie. */
  method DecodeUpper(u: Node, roots: seq<Node>, cached: Path -> Answer<Path>, dir: Path) returns (a: Answer<Path>)
    requires u.Dir? && UpperDir(u, dir)
    requires forall r: Path :: cached(r) == NotThere || (cached(r) == Answer.Connected(r) && UpperDir(u, r))
    ensures a == Answer.Connected(dir) && View(u, roots, dir) == ADir
  {
    var w := UpperWorld(u, roots, cached);
    UpperIsSane(u, roots, cached);
    UpperIsNotBroken(u, roots, cached, dir);
    UpperCacheHolds(u, roots, cached, dir);
    UpperDirIsShown(u, roots, dir);
    AboveIsPrefix(w, dir, dir);
    a := LookupRealStill(w, dir);
    RealIsPath(u, roots, cached, a.dentry);
  }

  lemma RealIsPath(u: Node, roots: seq<Node>, cached: Path -> Answer<Path>, c: Path)
    ensures var at := UpperWorld(u, roots, cached).realAt(c); at.Some? ==> at.value == c
  {
  }
}
