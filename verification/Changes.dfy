// The changes of the upper tree the namespace operations are made of, each with what
// it does to the merged tree.

module Changes {
  import opened Tree
  import opened Frame
  import opened MergedDir

  ghost predicate LayersOk(u: Node, roots: seq<Node>) {
    u.Dir? && forall r | r in roots :: r.Dir?
  }

  lemma StackAtConcat(u: Node, roots: seq<Node>, p: Path, q: Path)
    ensures StackAt(u, roots, p + q) == Descend(roots, StackAt(u, roots, p), q)
  {
    DescendConcat(roots, Stack(Some(u), RootEntries(roots, 0)), p, q);
  }

  lemma StackAtChild(u: Node, roots: seq<Node>, p: Path, n: Name)
    ensures StackAt(u, roots, p + [n]) == Child(roots, StackAt(u, roots, p), n)
  {
    StackAtConcat(u, roots, p, [n]);
  }

  lemma StackAtUpper(u: Node, roots: seq<Node>, p: Path)
    requires UpperDir(u, p)
    ensures StackAt(u, roots, p).upper == UpperAt(u, p)
  {
    DescendUpper(roots, Stack(Some(u), RootEntries(roots, 0)), u, p);
  }

  lemma StackAtWellStacked(u: Node, roots: seq<Node>, p: Path)
    requires LayersOk(u, roots)
    ensures WellStacked(StackAt(u, roots, p))
  {
    RootsWellStacked(u, roots, 0);
    DescendWellStacked(roots, Stack(Some(u), RootEntries(roots, 0)), p);
  }

  /** The stack below entry n of the upper directory at p, when v is that entry. */
  function Below(u: Node, roots: seq<Node>, p: Path, n: Name, v: Option<Node>, rest: Path): Stack {
    Descend(roots, Resolve(roots, StackAt(u, roots, p).lowers, n, v), rest)
  }

  function UpperEntryAt(u: Node, p: Path, n: Name): Option<Node>
    requires UpperDir(u, p)
  {
    EntryOf(UpperAt(u, p).value, n)
  }

  lemma BelowCurrent(u: Node, roots: seq<Node>, p: Path, n: Name, q: Path)
    requires UpperDir(u, p) && p + [n] <= q
    ensures StackAt(u, roots, q) == Below(u, roots, p, n, UpperEntryAt(u, p, n), q[|p| + 1..])
  {
    assert q == (p + [n]) + q[|p| + 1..];
    StackAtConcat(u, roots, p + [n], q[|p| + 1..]);
    StackAtChild(u, roots, p, n);
    StackAtUpper(u, roots, p);
  }

  lemma PutStackAt(u: Node, roots: seq<Node>, p: Path, n: Name, v: Option<Node>, q: Path)
    requires UpperDir(u, p)
    ensures var u' := Put(u, p, n, v);
            if p + [n] <= q then StackAt(u', roots, q) == Below(u, roots, p, n, v, q[|p| + 1..])
            else Unaffected(StackAt(u', roots, q), StackAt(u, roots, q))
  {
    PutView(roots, Stack(Some(u), RootEntries(roots, 0)), u, p, n, v, q);
  }

  // --------------------------------------------------- changes that do not show

  /** The same object and, for a directory, the same lower directories. */
  predicate Alike(s: Stack, t: Stack) {
    Kind(s) == Kind(t) && (Kind(s) == ADir ==> s.lowers == t.lowers)
  }

  ghost predicate SameTree(u: Node, u': Node, roots: seq<Node>) {
    forall q: Path :: Alike(StackAt(u', roots, q), StackAt(u, roots, q))
  }

  /** A change of one entry does not show if nothing below that entry does. */
  lemma PutSameTree(u: Node, roots: seq<Node>, p: Path, n: Name, v: Option<Node>)
    requires UpperDir(u, p)
    requires forall rest: Path ::
               Alike(Below(u, roots, p, n, v, rest), Below(u, roots, p, n, UpperEntryAt(u, p, n), rest))
    ensures SameTree(u, Put(u, p, n, v), roots)
  {
    forall q: Path ensures Alike(StackAt(Put(u, p, n, v), roots, q), StackAt(u, roots, q)) {
      PutStackAt(u, roots, p, n, v, q);
      if p + [n] <= q {
        BelowCurrent(u, roots, p, n, q);
      }
    }
  }

  /** Two stacks that differ only in the marks of their upper directory. */
  predicate EqualButMarks(s: Stack, t: Stack) {
    && s.lowers == t.lowers
    && s.upper.Some? && s.upper.value.Dir? && t.upper.Some? && t.upper.value.Dir?
    && s.upper.value.children == t.upper.value.children
  }

  lemma MarksDoNotShow(roots: seq<Node>, s: Stack, t: Stack, rest: Path)
    requires EqualButMarks(s, t)
    ensures Alike(Descend(roots, s, rest), Descend(roots, t, rest))
  {
    if rest != [] {
      assert Child(roots, s, rest[0]) == Child(roots, t, rest[0]);
    }
  }

  /** What copy-up makes of a lower object. */
  function CopyOf(kind: Obj): Node
    requires kind != Absent
  {
    match kind
    case AFile(id) => File(id)
    case ADir => Dir(false, None, true, map[])
  }

  lemma CopyDoesNotShow(roots: seq<Node>, poe: seq<Entry>, n: Name, rest: Path)
    requires Kind(Resolve(roots, poe, n, None)) != Absent
    ensures var before := Resolve(roots, poe, n, None);
            Alike(Descend(roots, Resolve(roots, poe, n, Some(CopyOf(Kind(before)))), rest),
                  Descend(roots, before, rest))
  {
    var before := Resolve(roots, poe, n, None);
    var after := Resolve(roots, poe, n, Some(CopyOf(Kind(before))));
    ResolveWellStacked(roots, poe, n, None);
    if Kind(before) == ADir {
      DirWhileSearching(roots, poe, n);
      if rest != [] {
        assert Child(roots, before, rest[0]) == Child(roots, after, rest[0]);
      }
    } else if rest != [] {
      FileHasNothingBelow(roots, before, rest[0]);
      assert Child(roots, after, rest[0]) == Stack(None, []);
    }
  }

  /** If a search finds directories, it finds the same ones when it is known from the
      start that a directory is wanted. */
  lemma {:induction false} DirWhileSearching(roots: seq<Node>, poe: seq<Entry>, n: Name)
    requires var es := LookupStack(roots, poe, n, false);
             es != [] && es[0].node.Dir?
    ensures LookupStack(roots, poe, n, true) == LookupStack(roots, poe, n, false)
    decreases |poe|
  {
    var f := Single(poe[0].node, n, false);
    if f.node.None? {
      assert f.next == Go(Rel(n));
      DirWhileSearching(roots, poe[1..], n);
    }
  }

  lemma FileHasNothingBelow(roots: seq<Node>, s: Stack, n: Name)
    requires s.upper.None? && |s.lowers| == 1 && !s.lowers[0].node.Dir?
    ensures Child(roots, s, n) == Stack(None, [])
  {
    assert s.lowers[1..] == [];
    assert Single(s.lowers[0].node, n, false) == Found(None, Go(Rel(n)));
    assert LookupStack(roots, s.lowers, n, false) == [] + LookupStack(roots, s.lowers[1..], n, false);
  }

  // -------------------------------------------------------------- absent and empty

  lemma {:induction false} NothingBelowNothing(roots: seq<Node>, rest: Path)
    ensures Descend(roots, Stack(None, []), rest) == Stack(None, [])
    decreases |rest|
  {
    if rest != [] {
      NothingBelowNothing(roots, rest[1..]);
    }
  }

  lemma AbsentIsNothing(s: Stack)
    requires WellStacked(s) && Kind(s) == Absent
    ensures s == Stack(None, [])
  {
  }

  lemma AbsentBelow(roots: seq<Node>, s: Stack, rest: Path)
    requires WellStacked(s) && Kind(s) == Absent
    ensures Kind(Descend(roots, s, rest)) == Absent
  {
    AbsentIsNothing(s);
    NothingBelowNothing(roots, rest);
  }

  /** Below anything but a directory there is nothing. */
  lemma NotDirChild(roots: seq<Node>, s: Stack, n: Name)
    requires WellStacked(s) && Kind(s) != ADir
    ensures Kind(Child(roots, s, n)) == Absent
  {
    if s.upper.None? {
      if s.lowers == [] {
      } else {
        assert s.lowers[0] in s.lowers;
        FileHasNothingBelow(roots, s, n);
      }
    }
  }

  /** Every ancestor of something is a directory. */
  lemma AncestorIsDir(u: Node, roots: seq<Node>, p: Path, n: Name, q: Path)
    requires LayersOk(u, roots)
    requires p + [n] <= q && View(u, roots, q) != Absent
    ensures View(u, roots, p) == ADir
  {
    StackAtWellStacked(u, roots, p);
    StackAtWellStacked(u, roots, p + [n]);
    StackAtChild(u, roots, p, n);
    if View(u, roots, p) != ADir {
      NotDirChild(roots, StackAt(u, roots, p), n);
      AbsentBelow(roots, StackAt(u, roots, p + [n]), q[|p| + 1..]);
      assert q == (p + [n]) + q[|p| + 1..];
      StackAtConcat(u, roots, p + [n], q[|p| + 1..]);
    }
  }

  ghost predicate EmptyDir(u: Node, roots: seq<Node>, p: Path) {
    View(u, roots, p) == ADir && forall m: Name :: View(u, roots, p + [m]) == Absent
  }

  lemma EmptyDirBelow(u: Node, roots: seq<Node>, p: Path, rest: Path)
    requires LayersOk(u, roots) && EmptyDir(u, roots, p) && rest != []
    ensures View(u, roots, p + rest) == Absent
  {
    assert View(u, roots, p + [rest[0]]) == Absent;
    assert p + rest == (p + [rest[0]]) + rest[1..];
    StackAtWellStacked(u, roots, p + [rest[0]]);
    StackAtConcat(u, roots, p + [rest[0]], rest[1..]);
    AbsentBelow(roots, StackAt(u, roots, p + [rest[0]]), rest[1..]);
  }

  const EmptyOpaque := Dir(true, None, false, map[])

  lemma EmptyOpaqueBelow(roots: seq<Node>, poe: seq<Entry>, n: Name, d: Node, rest: Path)
    requires d.Dir? && d.children == map[]
    requires Resolve(roots, poe, n, Some(d)).lowers == []
    ensures Kind(Descend(roots, Resolve(roots, poe, n, Some(d)), rest)) == (if rest == [] then ADir else Absent)
    ensures Descend(roots, Resolve(roots, poe, n, Some(d)), rest).lowers == []
  {
    if rest != [] {
      assert Child(roots, Resolve(roots, poe, n, Some(d)), rest[0]) == Stack(None, []);
      NothingBelowNothing(roots, rest[1..]);
    }
  }

  ghost predicate SameView(u: Node, u': Node, roots: seq<Node>) {
    forall q: Path :: View(u', roots, q) == View(u, roots, q)
  }

  /** Replacing an empty directory by an empty opaque one does not show. */
  lemma ClearedSameView(u: Node, roots: seq<Node>, p: Path, n: Name)
    requires LayersOk(u, roots) && UpperDir(u, p) && EmptyDir(u, roots, p + [n])
    ensures SameView(u, Put(u, p, n, Some(EmptyOpaque)), roots)
  {
    forall q: Path ensures View(Put(u, p, n, Some(EmptyOpaque)), roots, q) == View(u, roots, q) {
      PutStackAt(u, roots, p, n, Some(EmptyOpaque), q);
      if p + [n] <= q {
        var rest := q[|p| + 1..];
        assert q == (p + [n]) + rest;
        EmptyOpaqueBelow(roots, StackAt(u, roots, p).lowers, n, EmptyOpaque, rest);
        if rest == [] {
          assert q == p + [n];
        } else {
          EmptyDirBelow(u, roots, p + [n], rest);
        }
      }
    }
  }

  // ------------------------------------------------------------- moving an entry

  /** The entry has the same stack under name nn of the new parent as under name on of
      the old one. */
  predicate Portable(roots: seq<Node>, e: Node, oldPoe: seq<Entry>, on: Name, newPoe: seq<Entry>, nn: Name) {
    Resolve(roots, newPoe, nn, Some(e)) == Resolve(roots, oldPoe, on, Some(e))
  }

  /** A directory can be moved once it is opaque, or has a redirect that means the same
      in both places, or has nothing below it in either. */
  lemma WhenPortable(roots: seq<Node>, e: Node, oldPoe: seq<Entry>, on: Name, newPoe: seq<Entry>, nn: Name)
    requires e != Whiteout
    requires e.Dir? && !e.isOpaque ==>
               || (e.redirect.Some? && (e.redirect.value.Abs? || oldPoe == newPoe))
               || (newPoe == [] && Resolve(roots, oldPoe, on, Some(e)).lowers == [])
    ensures Portable(roots, e, oldPoe, on, newPoe, nn)
  {
  }

  /** Two entries of two upper directories are given new values; neither entry lies below
      the other. */
  lemma PutTwoStackAt(u: Node, roots: seq<Node>, op: Path, on: Name, v1: Option<Node>,
                      np: Path, nn: Name, v2: Option<Node>, q: Path)
    requires UpperDir(u, op) && UpperDir(u, np)
    requires !(op + [on] <= np) && !(np + [nn] <= op) && op + [on] != np + [nn]
    ensures UpperDir(Put(u, op, on, v1), np)
    ensures var u' := Put(Put(u, op, on, v1), np, nn, v2);
            if np + [nn] <= q then StackAt(u', roots, q) == Below(u, roots, np, nn, v2, q[|np| + 1..])
            else if op + [on] <= q then
              Unaffected(StackAt(u', roots, q), Below(u, roots, op, on, v1, q[|op| + 1..]))
            else Unaffected(StackAt(u', roots, q), StackAt(u, roots, q))
  {
    var u1 := Put(u, op, on, v1);
    PutOther(u, op, on, v1, np);
    PutStackAt(u1, roots, np, nn, v2, q);
    PutStackAt(u, roots, op, on, v1, np);
    PutStackAt(u, roots, op, on, v1, q);
  }

  // ------------------------------------------------------------- the ordinary tree

  /** An ordinary tree, as what is found at each path. */
  type PlainTree = Path -> Obj

  function TreeOf(u: Node, roots: seq<Node>): PlainTree {
    (q: Path) => View(u, roots, q)
  }

  ghost predicate Shows(u: Node, roots: seq<Node>, t: PlainTree) {
    forall q: Path :: View(u, roots, q) == t(q)
  }

  function PlainCreate(t: PlainTree, p: Path, obj: Obj): PlainTree {
    (q: Path) => if q == p then obj else t(q)
  }

  function PlainRemove(t: PlainTree, p: Path): PlainTree {
    (q: Path) => if p <= q then Absent else t(q)
  }

  /** Everything at and below old is found at and below new, and only there. */
  function PlainRename(t: PlainTree, old_: Path, new_: Path): PlainTree {
    (q: Path) =>
      if new_ <= q then t(old_ + q[|new_|..])
      else if old_ <= q then Absent
      else t(q)
  }

  function PlainExchange(t: PlainTree, old_: Path, new_: Path): PlainTree {
    (q: Path) =>
      if new_ <= q then t(old_ + q[|new_|..])
      else if old_ <= q then t(new_ + q[|old_|..])
      else t(q)
  }

  // ------------------------------------------------------- changes that do show

  /** The entry for something of which nothing shows. */
  predicate Hides(roots: seq<Node>, poe: seq<Entry>, n: Name, v: Option<Node>) {
    v == Some(Whiteout) || (v == None && LookupStack(roots, poe, n, false) == [])
  }

  lemma HiddenBelow(roots: seq<Node>, poe: seq<Entry>, n: Name, v: Option<Node>, rest: Path)
    requires Hides(roots, poe, n, v)
    ensures Descend(roots, Resolve(roots, poe, n, v), rest) == Stack(None, [])
  {
    NothingBelowNothing(roots, rest);
  }

  lemma HideShows(u: Node, roots: seq<Node>, p: Path, n: Name, v: Option<Node>)
    requires UpperDir(u, p) && Hides(roots, StackAt(u, roots, p).lowers, n, v)
    ensures Shows(Put(u, p, n, v), roots, PlainRemove(TreeOf(u, roots), p + [n]))
  {
    forall q: Path
      ensures View(Put(u, p, n, v), roots, q) == PlainRemove(TreeOf(u, roots), p + [n])(q)
    {
      PutStackAt(u, roots, p, n, v, q);
      if p + [n] <= q {
        HiddenBelow(roots, StackAt(u, roots, p).lowers, n, v, q[|p| + 1..]);
      }
    }
  }

  /** A new object with nothing below it, where there was none. */
  lemma CreateShows(u: Node, roots: seq<Node>, p: Path, n: Name, d: Node)
    requires LayersOk(u, roots) && UpperDir(u, p) && View(u, roots, p + [n]) == Absent
    requires d.File? || (d.Dir? && d.children == map[]
                         && Resolve(roots, StackAt(u, roots, p).lowers, n, Some(d)).lowers == [])
    ensures Shows(Put(u, p, n, Some(d)), roots, PlainCreate(TreeOf(u, roots), p + [n], NodeKind(d)))
  {
    var poe := StackAt(u, roots, p).lowers;
    forall q: Path
      ensures View(Put(u, p, n, Some(d)), roots, q) == PlainCreate(TreeOf(u, roots), p + [n], NodeKind(d))(q)
    {
      PutStackAt(u, roots, p, n, Some(d), q);
      if p + [n] <= q {
        var rest := q[|p| + 1..];
        assert q == (p + [n]) + rest;
        if rest == [] {
          assert q == p + [n];
        } else {
          assert Child(roots, Resolve(roots, poe, n, Some(d)), rest[0]) == Stack(None, []);
          NothingBelowNothing(roots, rest[1..]);
          StackAtWellStacked(u, roots, p + [n]);
          StackAtConcat(u, roots, p + [n], rest);
          AbsentBelow(roots, StackAt(u, roots, p + [n]), rest);
        }
      }
    }
  }

  predicate Apart(a: Path, b: Path) {
    !(a <= b) && !(b <= a)
  }

  lemma ApartParents(op: Path, on: Name, np: Path, nn: Name)
    requires Apart(op + [on], np + [nn])
    ensures !(op + [on] <= np) && !(np + [nn] <= op) && op + [on] != np + [nn]
  {
  }

  lemma MovedBelow(u: Node, roots: seq<Node>, op: Path, on: Name, e: Node, np: Path, nn: Name, rest: Path)
    requires UpperDir(u, op) && UpperEntryAt(u, op, on) == Some(e)
    requires Portable(roots, e, StackAt(u, roots, op).lowers, on, StackAt(u, roots, np).lowers, nn)
    ensures Below(u, roots, np, nn, Some(e), rest) == StackAt(u, roots, (op + [on]) + rest)
  {
    var q := (op + [on]) + rest;
    assert q[|op| + 1..] == rest && op + [on] <= q;
    BelowCurrent(u, roots, op, on, q);
  }

  lemma MoveAt(u: Node, roots: seq<Node>, op: Path, on: Name, e: Node, v: Option<Node>, np: Path, nn: Name, q: Path)
    requires UpperDir(u, op) && UpperDir(u, np) && Apart(op + [on], np + [nn]) && UpperDir(Put(u, op, on, v), np)
    requires UpperEntryAt(u, op, on) == Some(e)
    requires Portable(roots, e, StackAt(u, roots, op).lowers, on, StackAt(u, roots, np).lowers, nn)
    requires Hides(roots, StackAt(u, roots, op).lowers, on, v)
    ensures View(Put(Put(u, op, on, v), np, nn, Some(e)), roots, q) ==
            if np + [nn] <= q then View(u, roots, (op + [on]) + q[|np| + 1..])
            else if op + [on] <= q then Absent
            else View(u, roots, q)
  {
    ApartParents(op, on, np, nn);
    PutTwoStackAt(u, roots, op, on, v, np, nn, Some(e), q);
    if np + [nn] <= q {
      MovedBelow(u, roots, op, on, e, np, nn, q[|np| + 1..]);
    } else if op + [on] <= q {
      HiddenBelow(roots, StackAt(u, roots, op).lowers, on, v, q[|op| + 1..]);
    }
  }

  lemma MoveShows(u: Node, roots: seq<Node>, op: Path, on: Name, e: Node, v: Option<Node>, np: Path, nn: Name)
    requires UpperDir(u, op) && UpperDir(u, np) && Apart(op + [on], np + [nn])
    requires UpperEntryAt(u, op, on) == Some(e)
    requires Portable(roots, e, StackAt(u, roots, op).lowers, on, StackAt(u, roots, np).lowers, nn)
    requires Hides(roots, StackAt(u, roots, op).lowers, on, v)
    ensures UpperDir(Put(u, op, on, v), np)
    ensures Shows(Put(Put(u, op, on, v), np, nn, Some(e)), roots,
                  PlainRename(TreeOf(u, roots), op + [on], np + [nn]))
  {
    ApartParents(op, on, np, nn);
    PutOther(u, op, on, v, np);
    var u' := Put(Put(u, op, on, v), np, nn, Some(e));
    forall q: Path ensures View(u', roots, q) == PlainRename(TreeOf(u, roots), op + [on], np + [nn])(q) {
      MoveAt(u, roots, op, on, e, v, np, nn, q);
      RenamedAt(u, roots, op + [on], np, nn, q);
    }
  }

  /** The plain rename at one path. */
  lemma RenamedAt(u: Node, roots: seq<Node>, src: Path, np: Path, nn: Name, q: Path)
    ensures PlainRename(TreeOf(u, roots), src, np + [nn])(q) ==
            if np + [nn] <= q then View(u, roots, src + q[|np| + 1..])
            else if src <= q then Absent
            else View(u, roots, q)
  {
    assert |np + [nn]| == |np| + 1;
  }

  ghost predicate Swappable(u: Node, roots: seq<Node>, op: Path, on: Name, e: Node, np: Path, nn: Name, t: Node) {
    && UpperDir(u, op) && UpperDir(u, np) && Apart(op + [on], np + [nn])
    && UpperEntryAt(u, op, on) == Some(e) && UpperEntryAt(u, np, nn) == Some(t)
    && Portable(roots, e, StackAt(u, roots, op).lowers, on, StackAt(u, roots, np).lowers, nn)
    && Portable(roots, t, StackAt(u, roots, np).lowers, nn, StackAt(u, roots, op).lowers, on)
  }

  lemma SwapAtNew(u: Node, roots: seq<Node>, op: Path, on: Name, e: Node, np: Path, nn: Name, t: Node, q: Path)
    requires Swappable(u, roots, op, on, e, np, nn, t) && np + [nn] <= q
    requires UpperDir(Put(u, op, on, Some(t)), np)
    ensures View(Put(Put(u, op, on, Some(t)), np, nn, Some(e)), roots, q)
         == View(u, roots, (op + [on]) + q[|np| + 1..])
  {
    ApartParents(op, on, np, nn);
    PutTwoStackAt(u, roots, op, on, Some(t), np, nn, Some(e), q);
    MovedBelow(u, roots, op, on, e, np, nn, q[|np| + 1..]);
  }

  lemma SwapAtOld(u: Node, roots: seq<Node>, op: Path, on: Name, e: Node, np: Path, nn: Name, t: Node, q: Path)
    requires Swappable(u, roots, op, on, e, np, nn, t) && !(np + [nn] <= q) && op + [on] <= q
    requires UpperDir(Put(u, op, on, Some(t)), np)
    ensures View(Put(Put(u, op, on, Some(t)), np, nn, Some(e)), roots, q)
         == View(u, roots, (np + [nn]) + q[|op| + 1..])
  {
    ApartParents(op, on, np, nn);
    PutTwoStackAt(u, roots, op, on, Some(t), np, nn, Some(e), q);
    MovedBelow(u, roots, np, nn, t, op, on, q[|op| + 1..]);
  }

  lemma SwapShows(u: Node, roots: seq<Node>, op: Path, on: Name, e: Node, np: Path, nn: Name, t: Node)
    requires Swappable(u, roots, op, on, e, np, nn, t)
    ensures UpperDir(Put(u, op, on, Some(t)), np)
    ensures Shows(Put(Put(u, op, on, Some(t)), np, nn, Some(e)), roots,
                  PlainExchange(TreeOf(u, roots), op + [on], np + [nn]))
  {
    ApartParents(op, on, np, nn);
    PutOther(u, op, on, Some(t), np);
    var u' := Put(Put(u, op, on, Some(t)), np, nn, Some(e));
    forall q: Path ensures View(u', roots, q) == PlainExchange(TreeOf(u, roots), op + [on], np + [nn])(q) {
      SwapAt(u, roots, op, on, e, np, nn, t, q);
    }
  }

  lemma SwapAt(u: Node, roots: seq<Node>, op: Path, on: Name, e: Node, np: Path, nn: Name, t: Node, q: Path)
    requires Swappable(u, roots, op, on, e, np, nn, t) && UpperDir(Put(u, op, on, Some(t)), np)
    ensures View(Put(Put(u, op, on, Some(t)), np, nn, Some(e)), roots, q)
         == PlainExchange(TreeOf(u, roots), op + [on], np + [nn])(q)
  {
    ApartParents(op, on, np, nn);
    if np + [nn] <= q {
      SwapAtNew(u, roots, op, on, e, np, nn, t, q);
    } else if op + [on] <= q {
      SwapAtOld(u, roots, op, on, e, np, nn, t, q);
    } else {
      PutTwoStackAt(u, roots, op, on, Some(t), np, nn, Some(e), q);
    }
  }

  lemma {:induction false} NothingToMerge(roots: seq<Node>, poe: seq<Entry>, n: Name)
    requires LookupStack(roots, poe, n, false) == []
    ensures LookupStack(roots, poe, n, true) == []
    decreases |poe|
  {
    if poe != [] && EntryOf(poe[0].node, n).None? {
      NothingToMerge(roots, poe[1..], n);
    }
  }

  /** Taking away again what was created. */
  lemma UndoCreate(u: Node, u1: Node, roots: seq<Node>, p: Path, n: Name, obj: Obj)
    requires LayersOk(u, roots) && View(u, roots, p + [n]) == Absent
    requires UpperDir(u1, p) && Shows(u1, roots, PlainCreate(TreeOf(u, roots), p + [n], obj))
    requires Hides(roots, StackAt(u1, roots, p).lowers, n, None)
    ensures SameView(u, Put(u1, p, n, None), roots)
  {
    HideShows(u1, roots, p, n, None);
    forall q: Path ensures View(Put(u1, p, n, None), roots, q) == View(u, roots, q) {
      if p + [n] <= q {
        var rest := q[|p| + 1..];
        assert q == (p + [n]) + rest;
        StackAtWellStacked(u, roots, p + [n]);
        StackAtConcat(u, roots, p + [n], rest);
        AbsentBelow(roots, StackAt(u, roots, p + [n]), rest);
      }
    }
  }

  lemma RemoveOfSameView(u0: Node, u: Node, u': Node, roots: seq<Node>, p: Path)
    requires SameView(u0, u, roots)
    ensures Shows(u', roots, PlainRemove(TreeOf(u, roots), p)) ==> Shows(u', roots, PlainRemove(TreeOf(u0, roots), p))
    ensures EmptyDir(u, roots, p) <==> EmptyDir(u0, roots, p)
    ensures SameView(u, u', roots) ==> SameView(u0, u', roots)
  {
  }

  lemma RenameOfSameView(u0: Node, u: Node, u': Node, roots: seq<Node>, old_: Path, new_: Path)
    requires SameView(u0, u, roots) && Shows(u', roots, PlainRename(TreeOf(u, roots), old_, new_))
    ensures Shows(u', roots, PlainRename(TreeOf(u0, roots), old_, new_))
  {
  }

  lemma ExchangeOfSameView(u0: Node, u: Node, u': Node, roots: seq<Node>, old_: Path, new_: Path)
    requires SameView(u0, u, roots) && Shows(u', roots, PlainExchange(TreeOf(u, roots), old_, new_))
    ensures Shows(u', roots, PlainExchange(TreeOf(u0, roots), old_, new_))
  {
  }

}
