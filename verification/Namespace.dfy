// The namespace operations of a mounted overlay: copy-up, create, remove, rename.
// Each changes only the upper tree, and is proved to act on the merged tree as the
// ordinary operation acts on an ordinary tree.  Any step on the upper filesystem may
// fail; an operation that fails leaves the merged tree as it was, but for a creation that
// fails once the new object is in place.

module Namespace {
  import opened Seqs
  import opened Tree
  import opened Frame
  import opened Compose
  import opened RedirectText
  import opened SearchTree
  import opened MergedDir
  import opened EmptyCheck
  import opened Changes
  import opened Presence
  import opened Marks
  import opened Inodes
  import opened Whiteouts

  /** EInst is whatever setting up the overlay inode of a new object fails with. */
  datatype Errno = Ok | EInval | EXDev | EStale | ENotEmpty | ENotDir | EIsDir | EIo | EInst

  /** How the upper filesystem is told to rename. */
  datatype Mode = Plain | LeaveWhiteout | Swap

  /** What a rename is going to do; list is what has to be cleared from its target. */
  datatype Plan = Plan(newIsThere: bool, newIsWhiteout: bool, list: seq<CacheEntry>, mode: Mode, cleanup: bool)

  datatype RenameFlags = RenameFlags(exchange: bool, noReplace: bool, whiteout: bool)

  /** Copies up one object whose parent has an upper directory. */
  lemma CopyUpIsHarmless(u: Node, roots: seq<Node>, p: Path, n: Name)
    requires LayersOk(u, roots) && UpperDir(u, p) && !UpperPresent(u, p + [n])
    requires View(u, roots, p + [n]) != Absent
    ensures var u' := Put(u, p, n, Some(CopyOf(View(u, roots, p + [n]))));
            && Harmless(u, u', roots) && UpperPresent(u', p + [n])
            && UpperAt(u', p + [n]) == Some(CopyOf(View(u, roots, p + [n])))
            && SameHeld(u, u')
  {
    var obj := View(u, roots, p + [n]);
    var poe := StackAt(u, roots, p).lowers;
    UpperEntryIsAt(u, p, n);
    StackAtChild(u, roots, p, n);
    StackAtUpper(u, roots, p);
    assert UpperEntryAt(u, p, n) == None;
    forall rest: Path
      ensures Alike(Below(u, roots, p, n, Some(CopyOf(obj)), rest), Below(u, roots, p, n, None, rest))
    {
      CopyDoesNotShow(roots, poe, n, rest);
    }
    PutSameTree(u, roots, p, n, Some(CopyOf(obj)));
    PutGrows(u, p, n, CopyOf(obj));
    forall q: Path ensures IsWhiteout(Put(u, p, n, Some(CopyOf(obj))), q) <==> IsWhiteout(u, q) {
      PutKeepsWhiteout(u, p, n, CopyOf(obj), q);
    }
    forall q: Path ensures HeldAt(Put(u, p, n, Some(CopyOf(obj))), q) == HeldAt(u, q) {
      CopyHoldsNothing(u, p, n, CopyOf(obj), q);
    }
    PutMarks(u, p, n, Some(CopyOf(obj)));
  }

  /** A copy holds no redirect, nor did what was not there. */
  lemma CopyHoldsNothing(u: Node, p: Path, n: Name, c: Node, q: Path)
    requires UpperDir(u, p) && UpperAt(u, p + [n]) == None
    requires UpperAt(Put(u, p, n, Some(c)), p + [n]) == Some(c)
    requires c.Dir? ==> c.children == map[] && c.redirect == None
    ensures HeldAt(Put(u, p, n, Some(c)), q) == HeldAt(u, q)
  {
    if p + [n] <= q {
      var rest := q[|p| + 1..];
      SplitAfter(p, n, q);
      UpperAtConcat(Put(u, p, n, Some(c)), p + [n], rest);
      if UpperAt(u, q).Some? {
        UpperAtPrefix(u, p + [n], rest);
      }
    } else {
      PutHeld(u, p, n, Some(c), q);
    }
  }

  /** An object that has been created is seen, and nothing else has changed. */
  lemma CreatedShows(u: Node, u': Node, roots: seq<Node>, p: Path, n: Name, obj: Obj)
    requires obj != Absent && View(u, roots, p + [n]) == Absent
    requires Shows(u', roots, PlainCreate(TreeOf(u, roots), p + [n], obj))
    ensures !SameView(u, u', roots)
    ensures forall q: Path :: !(p + [n] <= q) ==> View(u', roots, q) == View(u, roots, q)
  {
    assert View(u', roots, p + [n]) == PlainCreate(TreeOf(u, roots), p + [n], obj)(p + [n]) == obj;
    forall q: Path | !(p + [n] <= q) ensures View(u', roots, q) == View(u, roots, q) {
      assert View(u', roots, q) == PlainCreate(TreeOf(u, roots), p + [n], obj)(q);
    }
  }

  class Overlay {
    var upper: Node
    /** What the inodes of directories keep for readdir. */
    var inodes: Inodes
    const roots: seq<Node>
    /** redirect_dir=on, and the upper filesystem stores extended attributes. */
    const redirectDir: bool
    /** The module parameter redirect_max. */
    const redirectMax: nat
    /** None of the features that depend on unchanged lower layers is on. */
    const offlineChanges: bool
    /** No step on the upper filesystem fails.  Then an operation fails only for a reason. */
    const reliable: bool

    ghost predicate Valid()
      reads this
    {
      LayersOk(upper, roots)
    }

    /** No whiteout that hides nothing has been left behind. */
    twostate predicate StaysClean()
      reads this
    {
      NoStray(old(upper), roots) ==> NoStray(upper, roots)
    }

    // ------------------------------------------------------------------- copy-up

    method HasUpper(p: Path) returns (r: bool)
      ensures r <==> UpperPresent(upper, p)
    {
      return UpperPresent(upper, p);
    }

    method CopyUpOne(p: Path, n: Name) returns (err: Errno)
      requires Valid() && UpperDir(upper, p) && !UpperPresent(upper, p + [n])
      requires View(upper, roots, p + [n]) != Absent
      modifies `upper, `inodes
      ensures Valid() && Harmless(old(upper), upper, roots) && Kept(old(inodes), inodes)
      ensures err.Ok? ==> UpperAt(upper, p + [n]) == Some(CopyOf(old(View(upper, roots, p + [n]))))
      ensures err.Ok? && old(View(upper, roots, p + [n])) == ADir ==> inodes(p + [n]).whiteouts
      ensures SameHeld(old(upper), upper)
      ensures !err.Ok? ==> upper == old(upper) && !reliable
    {
      CopyUpIsHarmless(upper, roots, p, n);
      var fails: bool := *;
      if fails && !reliable {
        return EIo;
      }
      var obj := View(upper, roots, p + [n]);
      upper := Put(upper, p, n, Some(CopyOf(obj)));
      if obj.ADir? {
        FlaggedKeeps(inodes, p + [n]);
        inodes := Flagged(inodes, p + [n]);
      }
      return Ok;
    }

    /** ovl_dir_modified: a new version, unless the directory is not listed as a merged one and
        nothing with a copy-up origin is concerned. */
    method DirModified(p: Path, impurity: bool)
      modifies `inodes
      ensures Noted(old(inodes), inodes, Stay, {p})
      ensures inodes(p).version > old(inodes)(p).version <==> old(inodes)(p).whiteouts || impurity
      ensures inodes(p).whiteouts == old(inodes)(p).whiteouts
      ensures forall q: Path :: q != p ==> inodes(q) == old(inodes)(q)
    {
      if inodes(p).whiteouts || impurity {
        var was := inodes;
        inodes := (q: Path) => if q == p then was(q).(version := was(q).version + 1) else was(q);
      }
    }

    /** Finds the topmost object not yet copied up. */
    method TopmostMissing(p: Path) returns (k: nat)
      requires Valid() && !UpperPresent(upper, p)
      ensures k < |p| && UpperPresent(upper, p[..k]) && !UpperPresent(upper, p[..k + 1])
    {
      assert p[..|p|] == p;
      k := |p| - 1;
      while !UpperPresent(upper, p[..k])
        invariant 0 <= k < |p|
        invariant !UpperPresent(upper, p[..k + 1])
        decreases k
      {
        k := k - 1;
      }
    }

    /** One round: the topmost object on the path that has no upper one is copied up. */
    method CopyUpTopmost(p: Path) returns (err: Errno)
      requires Valid() && View(upper, roots, p) != Absent && !UpperPresent(upper, p)
      modifies `upper, `inodes
      ensures Valid() && Harmless(old(upper), upper, roots) && Kept(old(inodes), inodes) && SameHeld(old(upper), upper)
      ensures UpperPresent(upper, p) ==> UpperAt(upper, p) == Some(CopyOf(old(View(upper, roots, p))))
      ensures err.Ok? ==> Depth(old(upper), p) < Depth(upper, p) <= |p|
      ensures !err.Ok? ==> upper == old(upper) && !reliable
    {
      var k := TopmostMissing(p);
      var parent, n := p[..k], p[k];
      assert p[..k + 1] == parent + [n];
      AncestorIsDir(upper, roots, parent, n, p);
      PresentDir(upper, roots, parent);
      NextIsThere(p, k);
      ghost var before := upper;
      err := CopyUpOne(parent, n);
      if err.Ok? {
        if k + 1 == |p| {
          assert p == parent + [n];
        } else {
          CopiedAncestor(before, parent, n, p);
        }
        DepthIs(before, p, k + 1);
        DepthIs(upper, p, k + 1);
      }
    }

    /** Copies up everything on the path that has no upper object, from the top. */
    method CopyUp(p: Path) returns (err: Errno)
      requires Valid() && View(upper, roots, p) != Absent
      modifies `upper, `inodes
      ensures Valid() && Harmless(old(upper), upper, roots) && Kept(old(inodes), inodes)
      ensures err.Ok? ==> UpperPresent(upper, p)
      ensures err.Ok? && !UpperPresent(old(upper), p) ==> UpperAt(upper, p) == Some(CopyOf(old(View(upper, roots, p))))
      ensures UpperPresent(old(upper), p) ==> upper == old(upper)
      ensures SameHeld(old(upper), upper)
      ensures !err.Ok? ==> !reliable
    {
      DepthIs(upper, p, |p|);
      while true
        invariant Valid() && Harmless(old(upper), upper, roots) && Kept(old(inodes), inodes)
        invariant Depth(upper, p) <= |p| && SameHeld(old(upper), upper)
        invariant UpperPresent(old(upper), p) ==> upper == old(upper)
        invariant UpperPresent(upper, p) && !UpperPresent(old(upper), p) ==>
                    UpperAt(upper, p) == Some(CopyOf(old(View(upper, roots, p))))
        decreases |p| - Depth(upper, p)
      {
        var done := HasUpper(p);
        if done {
          return Ok;
        }
        SameTreeSameView(old(upper), upper, roots);
        assert View(upper, roots, p) == old(View(upper, roots, p));
        ghost var before, was := upper, inodes;
        err := CopyUpTopmost(p);
        HarmlessTwice(old(upper), before, upper, roots);
        KeptTwice(old(inodes), was, inodes);
        SameHeldTwice(old(upper), before, upper);
        if !err.Ok? {
          return;
        }
      }
    }

    /** What has no upper object before an ancestor is copied up has none after. */
    lemma CopiedAncestor(before: Node, parent: Path, n: Name, p: Path)
      requires UpperDir(before, parent) && parent + [n] <= p && parent + [n] != p
      requires View(before, roots, parent + [n]) != Absent && !UpperPresent(before, p)
      requires upper == before || UpperAt(upper, parent + [n]) == Some(CopyOf(View(before, roots, parent + [n])))
      ensures !UpperPresent(upper, p)
    {
      if upper != before {
        var rest := p[|parent| + 1..];
        assert p == (parent + [n]) + rest;
        UpperAtConcat(upper, parent + [n], rest);
        assert EntryOf(CopyOf(View(before, roots, parent + [n])), rest[0]).None?;
      }
    }

    lemma HeldThen(u: Node, u1: Node, u2: Node, x: Path)
      requires SameHeld(u, u1) && HeldElsewhere(u1, u2, x)
      ensures HeldElsewhere(u, u2, x)
    {
      forall q: Path | !(x <= q) ensures HeldAt(u2, q) == HeldAt(u, q) {
        assert HeldAt(u1, q) == HeldAt(u, q);
      }
    }

    lemma SameHeldTwice(u: Node, u1: Node, u2: Node)
      requires SameHeld(u, u1) && SameHeld(u1, u2)
      ensures SameHeld(u, u2)
    {
      forall q: Path ensures HeldAt(u2, q) == HeldAt(u, q) {
        assert HeldAt(u1, q) == HeldAt(u, q);
      }
    }

    lemma NextIsThere(p: Path, k: nat)
      requires Valid() && k < |p| && View(upper, roots, p) != Absent
      ensures View(upper, roots, p[..k] + [p[k]]) != Absent
    {
      assert p[..k] + [p[k]] == p[..k + 1];
      if k + 1 < |p| {
        assert p[..k + 1] + [p[k + 1]] <= p;
        AncestorIsDir(upper, roots, p[..k + 1], p[k + 1], p);
      } else {
        assert p[..k + 1] == p;
      }
    }

    // -------------------------------------------------------------------- create

    /** The name is a whiteout, and there is something below it. */
    static ghost predicate Covered(u: Node, roots: seq<Node>, p: Path, n: Name) {
      && UpperAt(u, p + [n]) == Some(Whiteout)
      && Positive(FirstEntry(Nodes(StackAt(u, roots, p).lowers), n))
    }

    /** Nothing has changed but at and below a path. */
    ghost predicate SameElsewhere(u: Node, u': Node, p: Path) {
      forall q: Path :: !(p <= q) ==> View(u', roots, q) == View(u, roots, q)
    }

    /** What an instantiation, done or failed, leaves of the inodes; before it nothing is
        touched. */
    static ghost predicate InstantiateNoted(i: Inodes, i': Inodes, p: Path, n: Name, err: Errno) {
      if err.Ok? || err.EInst? then
        Noted(i, i', Gone(p + [n]), {p}) && (err.Ok? ==> i'(p + [n]) == Inode(0, false))
      else Kept(i, i')
    }

    /** ovl_instantiate: the parent is modified, and then the inode set up. */
    method Instantiate(p: Path, n: Name, instantiates: bool)
      modifies `inodes
      ensures InstantiateNoted(old(inodes), inodes, p, n, if instantiates then Ok else EInst)
    {
      ghost var was := inodes;
      DirModified(p, false);
      if instantiates {
        BornIsNoted(was, inodes, p, p + [n]);
        inodes := Born(inodes, p + [n]);
      } else {
        NotedThenGone(was, inodes, {p}, p + [n]);
      }
    }

    method CreateUpper(p: Path, n: Name, obj: Obj, instantiates: bool, undoes: bool) returns (err: Errno)
      requires Valid() && obj != Absent && UpperDir(upper, p) && UpperAt(upper, p + [n]) == None
      requires View(upper, roots, p + [n]) == Absent
      modifies `upper, `inodes
      ensures Valid() && StaysClean()
      ensures err.Ok? ==> Shows(upper, roots, PlainCreate(TreeOf(old(upper), roots), p + [n], obj))
      ensures !err.Ok? && !err.EInst? ==> upper == old(upper)
      ensures err.EInst? && undoes ==> SameView(old(upper), upper, roots)
      ensures err.EInst? && !undoes ==> Shows(upper, roots, PlainCreate(TreeOf(old(upper), roots), p + [n], obj))
      ensures InstantiateNoted(old(inodes), inodes, p, n, err)
      ensures !instantiates ==> !err.Ok?
      ensures err.EInst? ==> !instantiates
      ensures reliable && instantiates ==> err.Ok?
    {
      var fails: bool := *;
      if fails && !reliable {
        return EIo;
      }
      ghost var poe := StackAt(upper, roots, p).lowers;
      StackAtChild(upper, roots, p, n);
      StackAtUpper(upper, roots, p);
      UpperEntryIsAt(upper, p, n);
      assert LookupStack(roots, poe, n, false) == [] by {
        StackAtWellStacked(upper, roots, p + [n]);
        AbsentIsNothing(StackAt(upper, roots, p + [n]));
      }
      NothingToMerge(roots, poe, n);
      var d := if obj.ADir? then Dir(false, None, false, map[]) else File(obj.id);
      // The opaque mark only saves lookups; a failure to set it does no harm.
      var marks: bool := *;
      if TypeMerge(StackAt(upper, roots, p)) && d.Dir? && !offlineChanges && marks {
        d := d.(isOpaque := true);
      }
      PutStaysClean(upper, roots, p, n, Some(d));
      CreateShows(upper, roots, p, n, d);
      PutMarks(upper, p, n, Some(d));
      upper := Put(upper, p, n, Some(d));
      Instantiate(p, n, instantiates);
      if !instantiates {
        if !undoes {
          return EInst;
        }
        PutUpper(old(upper), p, n, Some(d));
        PutStackAt(old(upper), roots, p, n, Some(d), p);
        UndoCreate(old(upper), upper, roots, p, n, obj);
        PutStaysClean(upper, roots, p, n, None);
        PutMarks(upper, p, n, None);
        upper := Put(upper, p, n, None);
        return EInst;
      }
      return Ok;
    }

    method CreateOverWhiteout(p: Path, n: Name, obj: Obj, instantiates: bool, undoes: bool) returns (err: Errno)
      requires Valid() && obj != Absent && UpperDir(upper, p) && UpperAt(upper, p + [n]) == Some(Whiteout)
      modifies `upper, `inodes
      ensures Valid() && StaysClean()
      ensures err.Ok? ==> Shows(upper, roots, PlainCreate(TreeOf(old(upper), roots), p + [n], obj))
      ensures !err.Ok? && !err.EInst? ==> upper == old(upper)
      ensures err.EInst? && undoes ==>
          (SameView(old(upper), upper, roots) <==> !Covered(old(upper), roots, p, n)) &&
          SameElsewhere(old(upper), upper, p + [n])
      ensures err.EInst? && !undoes ==> Shows(upper, roots, PlainCreate(TreeOf(old(upper), roots), p + [n], obj))
      ensures InstantiateNoted(old(inodes), inodes, p, n, err)
      ensures !instantiates ==> !err.Ok?
      ensures err.EInst? ==> !instantiates
      ensures reliable && instantiates ==> err.Ok?
    {
      var fails: bool := *;
      if fails && !reliable {
        return EIo;
      }
      ghost var poe := StackAt(upper, roots, p).lowers;
      StackAtChild(upper, roots, p, n);
      StackAtUpper(upper, roots, p);
      UpperEntryIsAt(upper, p, n);
      var d := if obj.ADir? then EmptyOpaque else File(obj.id);
      PutStaysClean(upper, roots, p, n, Some(d));
      CreateShows(upper, roots, p, n, d);
      PutMarks(upper, p, n, Some(d));
      upper := Put(upper, p, n, Some(d));
      Instantiate(p, n, instantiates);
      if !instantiates {
        if !undoes {
          return EInst;
        }
        PutUpper(old(upper), p, n, Some(d));
        PutStackAt(old(upper), roots, p, n, Some(d), p);
        ghost var created := upper;
        PutStaysClean(upper, roots, p, n, None);
        PutMarks(upper, p, n, None);
        upper := Put(upper, p, n, None);
        WhiteoutLost(old(upper), created, p, n, obj);
        return EInst;
      }
      return Ok;
    }

    /** What taking the new object away leaves, now that the whiteout is gone. */
    lemma WhiteoutLost(before: Node, created: Node, p: Path, n: Name, obj: Obj)
      requires LayersOk(before, roots) && UpperDir(created, p) && upper == Put(created, p, n, None)
      requires UpperAt(before, p + [n]) == Some(Whiteout)
      requires View(before, roots, p + [n]) == Absent
      requires Shows(created, roots, PlainCreate(TreeOf(before, roots), p + [n], obj))
      requires StackAt(created, roots, p).lowers == StackAt(before, roots, p).lowers
      ensures SameView(before, upper, roots) <==> !Covered(before, roots, p, n)
      ensures SameElsewhere(before, upper, p + [n])
    {
      forall q: Path | !(p + [n] <= q) ensures View(upper, roots, q) == View(before, roots, q) {
        PutStackAt(created, roots, p, n, None, q);
        assert View(created, roots, q) == View(before, roots, q);
      }
      var poe := StackAt(created, roots, p).lowers;
      StackEmptyIff(roots, poe, n);
      if Covered(before, roots, p, n) {
        PutStackAt(created, roots, p, n, None, p + [n]);
        StackKinds(roots, poe, n, false);
        assert View(upper, roots, p + [n]) != View(before, roots, p + [n]);
      } else {
        UndoCreate(before, created, roots, p, n, obj);
      }
    }

    /** Creates an object at a name where there is none.  Once the object is in place, the
        overlay inode for it may still fail to be set up (instantiates is false).  The new
        object is then removed again, if that does not fail too (undoes is true), but a whiteout
        it replaced is not put back. */
    method Create(p: Path, n: Name, obj: Obj, instantiates: bool, undoes: bool) returns (err: Errno)
      requires Valid() && obj != Absent
      requires View(upper, roots, p) == ADir && View(upper, roots, p + [n]) == Absent
      modifies `upper, `inodes
      ensures Valid() && StaysClean()
      ensures InstantiateNoted(old(inodes), inodes, p, n, err)
      ensures err.EInst? ==> SameElsewhere(old(upper), upper, p + [n])
      ensures err.Ok? ==> Shows(upper, roots, PlainCreate(TreeOf(old(upper), roots), p + [n], obj))
      ensures !err.Ok? && !err.EInst? ==> SameView(old(upper), upper, roots)
      ensures err.EInst? ==> (SameView(old(upper), upper, roots) <==> undoes && !Covered(old(upper), roots, p, n))
      ensures err.EInst? && !undoes ==> Shows(upper, roots, PlainCreate(TreeOf(old(upper), roots), p + [n], obj))
      ensures !instantiates ==> !err.Ok?
      ensures err.EInst? ==> !instantiates
      ensures reliable && instantiates ==> err.Ok?
    {
      err := CopyUp(p);
      HarmlessStaysClean(old(upper), upper, roots);
      SameTreeSameView(old(upper), upper, roots);
      assert View(upper, roots, p) == ADir && View(upper, roots, p + [n]) == Absent;
      if !err.Ok? {
        err := EIo;
        return;
      }
      PresentDir(upper, roots, p);
      ghost var copied, kept := upper, inodes;
      CoveredStays(old(upper), p, n);
      StackAtChild(upper, roots, p, n);
      StackAtUpper(upper, roots, p);
      UpperEntryIsAt(upper, p, n);
      StackAtPresent(upper, roots, p + [n]);
      assert !UpperPresent(upper, p + [n]) by {
        StackAtWellStacked(upper, roots, p + [n]);
        AbsentIsNothing(StackAt(upper, roots, p + [n]));
      }
      if UpperAt(upper, p + [n]) != Some(Whiteout) {
        err := CreateUpper(p, n, obj, instantiates, undoes);
      } else {
        err := CreateOverWhiteout(p, n, obj, instantiates, undoes);
      }
      if err.EInst? && !undoes {
        CreatedShows(old(upper), upper, roots, p, n, obj);
      }
      if err.Ok? || err.EInst? {
        KeptThenNoted(old(inodes), kept, inodes, Gone(p + [n]), {p});
      } else {
        KeptTwice(old(inodes), kept, inodes);
      }
    }

    lemma CoveredStays(before: Node, p: Path, n: Name)
      requires LayersOk(before, roots) && View(before, roots, p) == ADir
      requires SameTree(before, upper, roots) && UpperPresent(upper, p)
      requires UpperPresent(before, p) ==> upper == before
      requires !UpperPresent(before, p) ==> UpperAt(upper, p) == Some(CopyOf(ADir))
      ensures Covered(before, roots, p, n) <==> Covered(upper, roots, p, n)
    {
      if !UpperPresent(before, p) {
        UpperAtConcat(upper, p, [n]);
        if UpperAt(before, p + [n]).Some? {
          UpperAtPrefix(before, p, [n]);
        }
      }
    }

    // -------------------------------------------------------------------- remove

    /** No lower directories, and no whiteouts left over from having had some. */
    predicate PureUpper(s: Stack) {
      s.lowers == [] && !(s.upper.Some? && s.upper.value.Dir? && s.upper.value.origin)
    }

    /** The merged directory at p is empty; list is then what has to be cleared from its
        upper part. */
    method CheckEmpty(p: Path) returns (empty: bool, list: seq<CacheEntry>)
      requires Valid() && View(upper, roots, p) == ADir
      ensures empty <==> EmptyDir(upper, roots, p)
      ensures empty && list != [] ==> UpperPresent(upper, p)
      ensures empty && list == [] && UpperDir(upper, p) ==> UpperAt(upper, p).value.children == map[]
    {
      StackAtWellStacked(upper, roots, p);
      empty, list := CheckEmptyDir(roots, StackAt(upper, roots, p));
      StackAtPresent(upper, roots, p);
      forall m: Name ensures View(upper, roots, p + [m]) == Kind(Child(roots, StackAt(upper, roots, p), m)) {
        StackAtChild(upper, roots, p, m);
      }
      if empty && list == [] && UpperDir(upper, p) {
        NoChildren(StackAt(upper, roots, p), UpperAt(upper, p).value);
      }
    }

    lemma NoChildren(s: Stack, d: Node)
      requires s.upper == Some(d) && d.Dir?
      requires forall m: Name :: Kind(Child(roots, s, m)) == Absent && UpperEntry(s.upper, m) != Some(Whiteout)
      ensures d.children == map[]
    {
      forall m: Name ensures m !in d.children {
        assert Kind(Child(roots, s, m)) == Absent;
      }
    }

    /** A directory that has entries, if only whiteouts. */
    static predicate Populated(e: Option<Node>) {
      e.Some? && e.value.Dir? && e.value.children != map[]
    }

    /** Replaces an empty merged directory by an empty opaque one. */
    method ClearEmpty(p: Path, n: Name) returns (err: Errno)
      requires Valid() && UpperDir(upper, p) && EmptyDir(upper, roots, p + [n])
      modifies `upper
      ensures Valid() && StaysClean() && SameView(old(upper), upper, roots)
      ensures err.Ok? ==> upper == Put(old(upper), p, n, Some(EmptyOpaque))
      ensures !err.Ok? ==> upper == old(upper) && !reliable
    {
      var fails: bool := *;
      if fails && !reliable {
        return EIo;
      }
      ClearedSameView(upper, roots, p, n);
      PutStaysClean(upper, roots, p, n, Some(EmptyOpaque));
      PutMarks(upper, p, n, Some(EmptyOpaque));
      upper := Put(upper, p, n, Some(EmptyOpaque));
      return Ok;
    }

    /** The upper entry of the name can go without anything showing there. */
    ghost predicate NothingUnder(u: Node, p: Path, n: Name) {
      LookupStack(roots, StackAt(u, roots, p).lowers, n, false) == []
    }

    /** What a removal, done or failed, leaves of the inodes. */
    static ghost predicate RemovalNoted(i: Inodes, i': Inodes, p: Path, err: Errno) {
      Noted(i, i', Stay, if err.Ok? then {p} else {})
    }

    /** Removes the upper entry, nothing being visible below it; a directory must be
        physically empty. */
    method RemoveUpper(p: Path, n: Name, isDir: bool, list: seq<CacheEntry>) returns (err: Errno)
      requires Valid() && UpperDir(upper, p) && UpperPresent(upper, p + [n])
      requires isDir <==> View(upper, roots, p + [n]) == ADir
      requires LookupStack(roots, StackAt(upper, roots, p).lowers, n, false) == []
      requires list != [] ==> EmptyDir(upper, roots, p + [n])
      modifies `upper, `inodes
      ensures Valid() && StaysClean()
      ensures RemovalNoted(old(inodes), inodes, p, err)
      ensures err.Ok? ==> Shows(upper, roots, PlainRemove(TreeOf(old(upper), roots), p + [n]))
      ensures err.Ok? && isDir && list == [] ==>
                var e := UpperAt(old(upper), p + [n]).value; e.Dir? && e.children == map[]
      ensures !err.Ok? ==> SameView(old(upper), upper, roots)
      ensures !err.Ok? && reliable ==> err.ENotEmpty? && list == [] && Populated(UpperAt(old(upper), p + [n]))
    {
      StackAtPresent(upper, roots, p + [n]);
      if list != [] {
        err := ClearEmpty(p, n);
        if !err.Ok? {
          return;
        }
        PutUpper(old(upper), p, n, Some(EmptyOpaque));
        UpperEntryIsAt(upper, p, n);
        PutStackAt(old(upper), roots, p, n, Some(EmptyOpaque), p);
      }
      // The parent counts as modified whether or not the step on disk succeeds.
      var impurity: bool, fails: bool := *, *;
      DirModified(p, impurity);
      if fails && !reliable {
        return EIo;
      }
      var e := UpperAt(upper, p + [n]).value;
      if e.Dir? && e.children != map[] {
        return ENotEmpty;
      }
      HideShows(upper, roots, p, n, None);
      PutStaysClean(upper, roots, p, n, None);
      PutMarks(upper, p, n, None);
      upper := Put(upper, p, n, None);
      return Ok;
    }

    /** Puts a whiteout in the place of whatever is there. */
    method RemoveAndWhiteout(p: Path, n: Name, list: seq<CacheEntry>) returns (err: Errno)
      requires Valid() && UpperDir(upper, p) && !NothingUnder(upper, p, n)
      requires list != [] ==> EmptyDir(upper, roots, p + [n])
      modifies `upper, `inodes
      ensures Valid() && StaysClean()
      ensures RemovalNoted(old(inodes), inodes, p, err)
      ensures err.Ok? ==> Shows(upper, roots, PlainRemove(TreeOf(old(upper), roots), p + [n]))
      ensures !err.Ok? ==> SameView(old(upper), upper, roots) && !reliable
    {
      if list != [] {
        err := ClearEmpty(p, n);
        if !err.Ok? {
          return;
        }
        PutUpper(old(upper), p, n, Some(EmptyOpaque));
        PutStackAt(old(upper), roots, p, n, Some(EmptyOpaque), p);
      }
      var fails: bool := *;
      if fails && !reliable {
        return EIo;
      }
      HideShows(upper, roots, p, n, Some(Whiteout));
      PutStaysClean(upper, roots, p, n, Some(Whiteout));
      PutMarks(upper, p, n, Some(Whiteout));
      upper := Put(upper, p, n, Some(Whiteout));
      DirModified(p, true);
      return Ok;
    }

    /** Why a directory cannot be removed: it is not empty, or it looks like one that never
        had lower directories, and yet holds whiteouts. */
    ghost predicate StaysFor(u: Node, p: Path) {
      !EmptyDir(u, roots, p) || (PureUpper(StackAt(u, roots, p)) && Populated(UpperAt(u, p)))
    }

    /** It is one that holds a whiteout that hides nothing, or it is not empty. */
    lemma StaysIfNotEmpty(u: Node, p: Path)
      requires LayersOk(u, roots) && View(u, roots, p) == ADir
      ensures NoStray(u, roots) ==> (StaysFor(u, p) <==> !EmptyDir(u, roots, p))
    {
      StackAtPresent(u, roots, p);
      if NoStray(u, roots) && PureUpper(StackAt(u, roots, p)) && Populated(UpperAt(u, p)) {
        EntriesShow(u, roots, p);
      }
    }

    /** The removal, when the parent has been copied up. */
    method RemoveReady(p: Path, n: Name, isDir: bool, lowerPositive: bool, list: seq<CacheEntry>) returns (err: Errno)
      requires Valid() && UpperDir(upper, p) && View(upper, roots, p) == ADir
      requires View(upper, roots, p + [n]) != Absent && (isDir <==> View(upper, roots, p + [n]) == ADir)
      requires lowerPositive <==> !NothingUnder(upper, p, n)
      requires !lowerPositive ==> UpperPresent(upper, p + [n])
      requires list != [] ==> EmptyDir(upper, roots, p + [n])
      requires isDir && !EmptyDir(upper, roots, p + [n]) ==>
          !lowerPositive && StackAt(upper, roots, p + [n]).lowers == []
      modifies `upper, `inodes
      ensures Valid() && StaysClean()
      ensures RemovalNoted(old(inodes), inodes, p, err)
      ensures err.Ok? ==> Shows(upper, roots, PlainRemove(TreeOf(old(upper), roots), p + [n]))
      ensures err.Ok? && isDir ==> EmptyDir(old(upper), roots, p + [n])
      ensures !err.Ok? ==> SameView(old(upper), upper, roots)
      ensures !err.Ok? && reliable ==>
          err.ENotEmpty? && !lowerPositive && list == [] && Populated(UpperAt(old(upper), p + [n]))
    {
      if !lowerPositive {
        err := RemoveUpper(p, n, isDir, list);
        if err.Ok? && isDir && list == [] && StackAt(old(upper), roots, p + [n]).lowers == [] {
          StackAtPresent(old(upper), roots, p + [n]);
          EmptyUpperIsEmpty(old(upper), p + [n]);
        }
      } else {
        err := RemoveAndWhiteout(p, n, list);
      }
    }

    /** unlink and rmdir.  indexed tells whether the object must be copied up first for its
        link count to be kept. */
    method Remove(p: Path, n: Name, isDir: bool, indexed: bool) returns (err: Errno)
      requires Valid() && View(upper, roots, p + [n]) != Absent
      requires isDir <==> View(upper, roots, p + [n]) == ADir
      modifies `upper, `inodes
      ensures Valid() && StaysClean()
      ensures RemovalNoted(old(inodes), inodes, p, err)
      ensures err.Ok? ==> Shows(upper, roots, PlainRemove(TreeOf(old(upper), roots), p + [n]))
      ensures err.Ok? && isDir ==> EmptyDir(old(upper), roots, p + [n])
      ensures !err.Ok? ==> SameView(old(upper), upper, roots)
      ensures !err.Ok? && reliable ==> err.ENotEmpty? && isDir && StaysFor(old(upper), p + [n])
      ensures reliable && NoStray(old(upper), roots) ==>
          (err.Ok? <==> (isDir ==> EmptyDir(old(upper), roots, p + [n])))
    {
      AncestorIsDir(upper, roots, p, n, p + [n]);
      var removable, lowerPositive, list := PlanRemove(p, n, isDir);
      KeptIsNoted(inodes, inodes);
      if isDir {
        StaysIfNotEmpty(upper, p + [n]);
      }
      if !removable {
        return ENotEmpty;
      }
      err := PrepareRemove(p, n, indexed);
      HarmlessStaysClean(old(upper), upper, roots);
      KeptIsNoted(old(inodes), inodes);
      if !err.Ok? {
        return;
      }
      ghost var ready, kept := upper, inodes;
      err := RemoveReady(p, n, isDir, lowerPositive, list);
      KeptThenNoted(old(inodes), kept, inodes, Stay, if err.Ok? then {p} else {});
      RemoveOfSameView(old(upper), ready, upper, roots, p + [n]);
    }

    /** What is decided before anything is changed. */
    method PlanRemove(p: Path, n: Name, isDir: bool) returns (ok: bool, lowerPositive: bool, list: seq<CacheEntry>)
      requires Valid() && View(upper, roots, p + [n]) != Absent
      requires isDir <==> View(upper, roots, p + [n]) == ADir
      ensures !ok ==> isDir && !EmptyDir(upper, roots, p + [n])
      ensures lowerPositive <==> !NothingUnder(upper, p, n)
      ensures !lowerPositive ==> UpperPresent(upper, p + [n])
      ensures ok && list != [] ==> EmptyDir(upper, roots, p + [n])
      ensures ok && isDir && !EmptyDir(upper, roots, p + [n]) ==>
          !lowerPositive && StackAt(upper, roots, p + [n]).lowers == []
      ensures ok && !lowerPositive && list == [] && Populated(UpperAt(upper, p + [n])) ==>
          isDir && StaysFor(upper, p + [n])
    {
      var s, parent := StackAt(upper, roots, p + [n]), StackAt(upper, roots, p);
      StackAtPresent(upper, roots, p + [n]);
      StackEmptyIff(roots, parent.lowers, n);
      StackAtChild(upper, roots, p, n);
      lowerPositive := LowerPositive(s, parent, n);
      list := [];
      ok := true;
      // No need to clean a pure upper directory.
      if isDir && (lowerPositive || !PureUpper(s)) {
        ok, list := CheckEmpty(p + [n]);
      }
    }

    /** Copies up the parent, and an object whose link count must be kept. */
    method PrepareRemove(p: Path, n: Name, indexed: bool) returns (err: Errno)
      requires Valid() && View(upper, roots, p) == ADir && View(upper, roots, p + [n]) != Absent
      modifies `upper, `inodes
      ensures Valid() && Harmless(old(upper), upper, roots) && SameView(old(upper), upper, roots)
      ensures Kept(old(inodes), inodes)
      ensures UpperPresent(old(upper), p + [n]) ==> upper == old(upper)
      ensures err.Ok? ==> UpperDir(upper, p)
      ensures err.Ok? ==> StackAt(upper, roots, p).lowers == StackAt(old(upper), roots, p).lowers
      ensures !err.Ok? ==> !reliable
    {
      if UpperPresent(upper, p + [n]) {
        UpperAtPrefix(upper, p, [n]);
      }
      err := CopyUp(p);
      SameTreeSameView(old(upper), upper, roots);
      if !err.Ok? {
        return;
      }
      ghost var copied, kept := upper, inodes;
      if indexed && StackAt(upper, roots, p + [n]).lowers != [] && !UpperPresent(upper, p + [n]) {
        assert View(upper, roots, p + [n]) != Absent;
        err := CopyUp(p + [n]);
        KeptTwice(old(inodes), kept, inodes);
        HarmlessTwice(old(upper), copied, upper, roots);
        SameTreeSameView(old(upper), upper, roots);
        if !err.Ok? {
          return;
        }
      }
      assert View(upper, roots, p) == ADir;
      PresentDir(upper, roots, p);
      HarmlessLowers(old(upper), upper, roots, p);
    }

    lemma EmptyUpperIsEmpty(u: Node, p: Path)
      requires LayersOk(u, roots) && UpperDir(u, p) && View(u, roots, p) == ADir
      requires UpperAt(u, p).value.children == map[] && StackAt(u, roots, p).lowers == []
      ensures EmptyDir(u, roots, p)
    {
      StackAtUpper(u, roots, p);
      forall m: Name ensures View(u, roots, p + [m]) == Absent {
        StackAtChild(u, roots, p, m);
      }
    }

    // -------------------------------------------------------------------- rename

    predicate CanMove(s: Stack) {
      redirectDir || !Kind(s).ADir? || !TypeMergeOrLower(s)
    }

    /** Gives a merged directory a redirect to its lower directories: its name if it stays
        under the same parent, else their absolute path. */
    method SetRedirect(p: Path, n: Name, samedir: bool) returns (err: Errno)
      requires Valid() && UpperDir(upper, p) && UpperDir(upper, p + [n])
      requires StackAt(upper, roots, p + [n]).lowers != []
      modifies `upper
      ensures Valid() && Harmless(old(upper), upper, roots)
      ensures UpperDir(upper, p) && UpperDir(upper, p + [n])
      ensures err.Ok? ==> var e := UpperAt(upper, p + [n]).value;
                          !e.isOpaque && e.redirect.Some? && (samedir || e.redirect.value.Abs?)
      ensures forall q: Path :: Apart(p + [n], q) ==> UpperAt(upper, q) == UpperAt(old(upper), q)
      ensures HeldElsewhere(old(upper), upper, p + [n])
      ensures !err.Ok? ==> err.EXDev?
      ensures err.Ok? ==> samedir || !TooLong(old(upper), p + [n])
      ensures reliable ==> (err.Ok? <==> samedir || !TooLong(old(upper), p + [n]))
    {
      var d := UpperAt(upper, p + [n]).value;
      UpperEntryIsAt(upper, p, n);
      StackAtChild(upper, roots, p, n);
      StackAtUpper(upper, roots, p);
      assert !d.isOpaque;
      var redirect := HeldRedirect(d);
      if redirect.Some? && (samedir || redirect.value.Abs?) {
        return Ok;
      }
      var text := GetRedirect(upper, p + [n], !samedir, redirectMax);
      var fails: bool := *;
      if text.None? || (fails && !reliable) {
        return EXDev;
      }
      DecodeEncode(Rel(n));
      DecodeEncode(Abs(LowerPath(upper, p + [n])));
      var r := Decode(text.value).value;
      RedirectKeepsLowers(upper, roots, p, n, r);
      MarkIsHarmless(upper, roots, p, n, d.(redirect := Some(r)));
      PutUpper(upper, p, n, Some(d.(redirect := Some(r))));
      MarkHeld(upper, p, n, d.(redirect := Some(r)));
      upper := Put(upper, p, n, Some(d.(redirect := Some(r))));
      return Ok;
    }

    /** The absolute redirect a directory would need is too long. */
    ghost predicate TooLong(u: Node, p: AbsPath) {
      !(HeldAt(u, p).Some? && HeldAt(u, p).value.Abs?) && |Join(LowerPath(u, p))| > redirectMax
    }

    lemma MarkHeld(u: Node, p: Path, n: Name, d: Node)
      requires UpperDir(u, p)
      ensures HeldElsewhere(u, Put(u, p, n, Some(d)), p + [n])
    {
      forall q: Path | !(p + [n] <= q) ensures HeldAt(Put(u, p, n, Some(d)), q) == HeldAt(u, q) {
        PutHeld(u, p, n, Some(d), q);
      }
    }

    method SetOpaque(p: Path, n: Name) returns (err: Errno)
      requires Valid() && UpperDir(upper, p) && UpperDir(upper, p + [n])
      requires StackAt(upper, roots, p + [n]).lowers == []
      modifies `upper
      ensures Valid() && Harmless(old(upper), upper, roots)
      ensures UpperDir(upper, p) && UpperDir(upper, p + [n])
      ensures err.Ok? ==> UpperAt(upper, p + [n]).value.isOpaque
      ensures forall q: Path :: Apart(p + [n], q) ==> UpperAt(upper, q) == UpperAt(old(upper), q)
      ensures HeldElsewhere(old(upper), upper, p + [n])
      ensures !err.Ok? ==> !reliable
    {
      var fails: bool := *;
      if fails && !reliable {
        return EXDev;
      }
      var d := UpperAt(upper, p + [n]).value.(isOpaque := true);
      MarkIsHarmless(upper, roots, p, n, d);
      PutUpper(upper, p, n, Some(d));
      MarkHeld(upper, p, n, d);
      upper := Put(upper, p, n, Some(d));
      return Ok;
    }

    /** An upper directory with lower directories merged below it. */
    ghost predicate HasLowers(u: Node, p: Path) {
      UpperDir(u, p) && StackAt(u, roots, p).lowers != []
    }

    /** A merged directory that cannot be given the redirect it would need under np. */
    ghost predicate NoRedirect(u: Node, op: Path, on: Name, np: Path) {
      HasLowers(u, op + [on]) && op != np && TooLong(u, op + [on])
    }

    /** Makes ready the entry that is to move from one upper directory to another. */
    method MarkForMove(op: Path, on: Name, np: Path) returns (err: Errno)
      requires Valid() && UpperDir(upper, op) && UpperDir(upper, np) && UpperPresent(upper, op + [on])
      requires View(upper, roots, op) == ADir && View(upper, roots, np) == ADir
      modifies `upper
      ensures Valid() && Harmless(old(upper), upper, roots)
      ensures UpperDir(upper, op) && UpperDir(upper, np) && UpperPresent(upper, op + [on])
      ensures err.Ok? ==> ReadyToMove(upper, roots, op, on, np)
      ensures forall q: Path :: Apart(op + [on], q) ==> UpperAt(upper, q) == UpperAt(old(upper), q)
      ensures HeldElsewhere(old(upper), upper, op + [on])
      ensures !err.Ok? && reliable ==> err.EXDev? && NoRedirect(old(upper), op, on, np)
      ensures err.Ok? ==> !NoRedirect(old(upper), op, on, np)
    {
      var s, newParent := StackAt(upper, roots, op + [on]), StackAt(upper, roots, np);
      StackAtPresent(upper, roots, op + [on]);
      StackAtUpper(upper, roots, np);
      var isDir := s.upper.value.Dir?;
      err := Ok;
      if TypeMergeOrLower(s) {
        err := SetRedirect(op, on, op == np);
      } else if isDir && !s.upper.value.isOpaque && TypeMerge(newParent) {
        err := SetOpaque(op, on);
      }
      assert UpperPresent(old(upper), np) && UpperPresent(old(upper), op);
      assert Alike(StackAt(upper, roots, np), StackAt(old(upper), roots, np));
      PresentDir(upper, roots, np);
      PresentDir(upper, roots, op);
      if err.Ok? {
        WhenReady(upper, roots, op, on, np);
      }
    }

    static predicate TargetOk(e: Node, t: Option<Node>) {
      t.None? || (if e.Dir? then t.value.Dir? && t.value.children == map[] else !t.value.Dir?)
    }

    /** The upper filesystem does not rename the one over the other. */
    static ghost predicate Blocked(u: Node, p: Path, q: Path) {
      UpperAt(u, p).Some? && !TargetOk(UpperAt(u, p).value, UpperAt(u, q))
    }

    /** What is left at the old name. */
    static function LeftBehind(mode: Mode, t: Option<Node>): Option<Node> {
      match mode
      case Plain => None
      case LeaveWhiteout => Some(Whiteout)
      case Swap => t
    }

    /** The rename on the upper filesystem. */
    method UpperRename(op: Path, on: Name, np: Path, nn: Name, mode: Mode) returns (err: Errno)
      requires Valid() && UpperDir(upper, op) && UpperDir(upper, np) && UpperPresent(upper, op + [on])
      requires Apart(op + [on], np + [nn])
      requires mode.Swap? ==> UpperAt(upper, np + [nn]).Some?
      modifies `upper
      ensures Valid()
      ensures !err.Ok? ==> upper == old(upper)
      ensures var v := LeftBehind(mode, UpperAt(old(upper), np + [nn]));
              && UpperDir(Put(old(upper), op, on, v), np)
              && (err.Ok? ==> upper == Put(Put(old(upper), op, on, v), np, nn, UpperAt(old(upper), op + [on])))
      ensures err.Ok? && !mode.Swap? ==>
                TargetOk(UpperAt(old(upper), op + [on]).value, UpperAt(old(upper), np + [nn]))
      ensures !err.Ok? && reliable ==> !mode.Swap? && Blocked(old(upper), op + [on], np + [nn])
      ensures !err.Ok? && reliable && UpperDir(old(upper), op + [on]) && UpperDir(old(upper), np + [nn]) ==>
                err.ENotEmpty?
    {
      var e, t := UpperAt(upper, op + [on]), UpperAt(upper, np + [nn]);
      var v := LeftBehind(mode, t);
      ApartParents(op, on, np, nn);
      PutOther(upper, op, on, v, np);
      if !mode.Swap? && !TargetOk(e.value, t) {
        return if !t.value.Dir? then ENotDir else if !e.value.Dir? then EIsDir else ENotEmpty;
      }
      var fails: bool := *;
      if fails && !reliable {
        return EIo;
      }
      PutMarks(upper, op, on, v);
      PutMarks(Put(upper, op, on, v), np, nn, e);
      upper := Put(Put(upper, op, on, v), np, nn, e);
      return Ok;
    }

    /** Renames an entry that has been made ready. */
    method MoveReady(op: Path, on: Name, np: Path, nn: Name, mode: Mode, cleanup: bool) returns (err: Errno)
      requires Valid() && UpperDir(upper, op) && UpperDir(upper, np) && UpperPresent(upper, op + [on])
      requires ReadyToMove(upper, roots, op, on, np) && Apart(op + [on], np + [nn])
      requires mode.Swap? ==> UpperAt(upper, np + [nn]) == Some(Whiteout)
      requires mode.Plain? || cleanup <==> NothingUnder(upper, op, on)
      requires cleanup ==> mode.Swap?
      modifies `upper
      ensures Valid() && (reliable ==> StaysClean())
      ensures err.Ok? ==>
                Shows(upper, roots, PlainRename(TreeOf(old(upper), roots), op + [on], np + [nn]))
      ensures err.Ok? && !mode.Swap? ==>
                TargetOk(UpperAt(old(upper), op + [on]).value, UpperAt(old(upper), np + [nn]))
      ensures !err.Ok? ==> upper == old(upper)
      ensures !err.Ok? && reliable ==> !mode.Swap? && Blocked(old(upper), op + [on], np + [nn])
      ensures !err.Ok? && reliable && UpperDir(old(upper), op + [on]) && UpperDir(old(upper), np + [nn]) ==>
                err.ENotEmpty?
    {
      ghost var u := upper;
      ghost var e := UpperAt(u, op + [on]).value;
      ghost var v := LeftBehind(mode, UpperAt(u, np + [nn]));
      UpperEntryIsAt(u, op, on);
      assert Portable(roots, e, StackAt(u, roots, op).lowers, on, StackAt(u, roots, np).lowers, nn);
      err := UpperRename(op, on, np, nn, mode);
      if !err.Ok? {
        return;
      }
      MoveShows(u, roots, op, on, e, v, np, nn);
      if !cleanup {
        MoveStaysClean(u, roots, op, on, e, v, np, nn);
      }
      var fails: bool := *;
      if cleanup && (!fails || reliable) {
        CleanupDoesNotShow(u, op, on, np, nn, e);
        CleanupStaysClean(u, roots, op, on, e, np, nn);
        PutMarks(upper, op, on, None);
        upper := Put(upper, op, on, None);
      }
    }

    /** Replaces what is at the new name, which shows nothing or may be overwritten. */
    method Overwrite(op: Path, on: Name, np: Path, nn: Name, mode: Mode, cleanup: bool) returns (err: Errno)
      requires Valid() && UpperDir(upper, op) && UpperDir(upper, np) && UpperPresent(upper, op + [on])
      requires View(upper, roots, op) == ADir && View(upper, roots, np) == ADir
      requires Apart(op + [on], np + [nn])
      requires mode.Swap? ==> UpperAt(upper, np + [nn]) == Some(Whiteout)
      requires mode.Plain? || cleanup <==> NothingUnder(upper, op, on)
      requires cleanup ==> mode.Swap?
      modifies `upper
      ensures Valid() && (reliable ==> StaysClean())
      ensures err.Ok? ==>
                Shows(upper, roots, PlainRename(TreeOf(old(upper), roots), op + [on], np + [nn]))
      ensures err.Ok? && !mode.Swap? ==>
                TargetOk(UpperAt(old(upper), op + [on]).value, UpperAt(old(upper), np + [nn]))
      ensures err.Ok? ==> !NoRedirect(old(upper), op, on, np)
      ensures !err.Ok? ==> SameView(old(upper), upper, roots)
      ensures !err.Ok? && reliable ==>
                || (err.EXDev? && NoRedirect(old(upper), op, on, np))
                || (!mode.Swap? && Blocked(old(upper), op + [on], np + [nn])
                    && (UpperDir(old(upper), op + [on]) && UpperDir(old(upper), np + [nn]) ==> err.ENotEmpty?))
    {
      ghost var before := upper;
      err := MarkForMove(op, on, np);
      SameTreeSameView(before, upper, roots);
      HarmlessStaysClean(before, upper, roots);
      if !err.Ok? {
        return;
      }
      ghost var marked := upper;
      HarmlessLowers(before, marked, roots, op);
      MarkedKind(before, marked, op + [on]);
      err := MoveReady(op, on, np, nn, mode, cleanup);
      if err.Ok? {
        RenameOfSameView(before, marked, upper, roots, op + [on], np + [nn]);
      }
    }

    /** A marked directory is still a directory, a file still a file. */
    lemma MarkedKind(before: Node, marked: Node, p: Path)
      requires before.Dir? && marked.Dir? && SameTree(before, marked, roots)
      requires UpperPresent(before, p) && UpperPresent(marked, p)
      ensures UpperAt(before, p).value.Dir? <==> UpperAt(marked, p).value.Dir?
    {
      StackAtPresent(before, roots, p);
      StackAtPresent(marked, roots, p);
      assert Alike(StackAt(marked, roots, p), StackAt(before, roots, p));
    }

    /** The whiteout left by a swap may be removed when it hides nothing. */
    lemma CleanupDoesNotShow(u: Node, op: Path, on: Name, np: Path, nn: Name, e: Node)
      requires LayersOk(u, roots) && UpperDir(u, op) && UpperDir(u, np) && Apart(op + [on], np + [nn])
      requires UpperDir(Put(u, op, on, Some(Whiteout)), np)
      requires upper == Put(Put(u, op, on, Some(Whiteout)), np, nn, Some(e)) && e != Whiteout
      requires NothingUnder(u, op, on)
      ensures UpperDir(upper, op) && SameView(upper, Put(upper, op, on, None), roots)
    {
      ApartParents(op, on, np, nn);
      var u1 := Put(u, op, on, Some(Whiteout));
      PutUpper(u, op, on, Some(Whiteout));
      PutOther(u1, np, nn, Some(e), op);
      PutApart(u1, np, nn, Some(e), op + [on]);
      PutTwoStackAt(u, roots, op, on, Some(Whiteout), np, nn, Some(e), op);
      UpperEntryIsAt(u1, op, on);
      UpperEntryIsAt(upper, op, on);
      var poe := StackAt(upper, roots, op).lowers;
      assert Resolve(roots, poe, on, None) == Resolve(roots, poe, on, Some(Whiteout));
      PutSameTree(upper, roots, op, on, None);
      SameTreeSameView(upper, Put(upper, op, on, None), roots);
    }

    /** Exchanges two entries. */
    method Exchange(op: Path, on: Name, np: Path, nn: Name) returns (err: Errno)
      requires Valid() && UpperDir(upper, op) && UpperDir(upper, np)
      requires UpperPresent(upper, op + [on]) && UpperPresent(upper, np + [nn])
      requires View(upper, roots, op) == ADir && View(upper, roots, np) == ADir
      requires Apart(op + [on], np + [nn])
      modifies `upper
      ensures Valid() && StaysClean()
      ensures err.Ok? ==>
                Shows(upper, roots, PlainExchange(TreeOf(old(upper), roots), op + [on], np + [nn]))
      ensures err.Ok? ==> !NoRedirect(old(upper), op, on, np) && !NoRedirect(old(upper), np, nn, op)
      ensures !err.Ok? ==> SameView(old(upper), upper, roots)
      ensures !err.Ok? && reliable ==>
                err.EXDev? && (NoRedirect(old(upper), op, on, np) || NoRedirect(old(upper), np, nn, op))
    {
      ghost var before := upper;
      err := MarkForMove(op, on, np);
      SameTreeSameView(before, upper, roots);
      HarmlessStaysClean(before, upper, roots);
      if !err.Ok? {
        return;
      }
      ghost var first := upper;
      err := MarkForMove(np, nn, op);
      HarmlessTwice(before, first, upper, roots);
      HarmlessStaysClean(before, upper, roots);
      SameTreeSameView(before, upper, roots);
      if !err.Ok? {
        LowersBefore(before, first, np + [nn]);
        TooLongSame(before, first, op + [on], np + [nn]);
        return;
      }
      ghost var marked := upper;
      NoRedirectBefore(before, first, np, nn, op, op + [on]);
      StillReady(first, marked, op, on, np, nn);
      err := SwapReady(op, on, np, nn);
      if err.Ok? {
        ExchangeOfSameView(before, marked, upper, roots, op + [on], np + [nn]);
      }
    }

    lemma TooLongSame(u: Node, u': Node, x: Path, p: AbsPath)
      requires HeldElsewhere(u, u', x) && !(x <= p)
      ensures TooLong(u', p) <==> TooLong(u, p)
    {
      LowerPathSame(u, u', x, p);
    }

    lemma NoRedirectBefore(u0: Node, u: Node, op: Path, on: Name, np: Path, x: Path)
      requires LayersOk(u0, roots) && Harmless(u0, u, roots) && UpperPresent(u0, op + [on])
      requires HeldElsewhere(u0, u, x) && Apart(x, op + [on])
      ensures !NoRedirect(u, op, on, np) ==> !NoRedirect(u0, op, on, np)
    {
      if NoRedirect(u0, op, on, np) {
        TooLongSame(u0, u, x, op + [on]);
        StackAtUpper(u0, roots, op + [on]);
        MarkedKind(u0, u, op + [on]);
        HarmlessLowers(u0, u, roots, op + [on]);
      }
    }

    lemma LowersBefore(u0: Node, u: Node, p: Path)
      requires LayersOk(u0, roots) && LayersOk(u, roots) && SameTree(u0, u, roots) && UpperPresent(u0, p)
      ensures HasLowers(u, p) ==> HasLowers(u0, p)
    {
      if HasLowers(u, p) {
        StackAtUpper(u, roots, p);
        StackAtPresent(u0, roots, p);
        assert Alike(StackAt(u, roots, p), StackAt(u0, roots, p));
        PresentDir(u0, roots, p);
        HarmlessLowers(u0, u, roots, p);
      }
    }

    method SwapReady(op: Path, on: Name, np: Path, nn: Name) returns (err: Errno)
      requires Valid() && UpperDir(upper, op) && UpperDir(upper, np)
      requires UpperPresent(upper, op + [on]) && UpperPresent(upper, np + [nn])
      requires ReadyToMove(upper, roots, op, on, np) && ReadyToMove(upper, roots, np, nn, op)
      requires Apart(op + [on], np + [nn])
      modifies `upper
      ensures Valid() && StaysClean()
      ensures err.Ok? ==>
                Shows(upper, roots, PlainExchange(TreeOf(old(upper), roots), op + [on], np + [nn]))
      ensures !err.Ok? ==> upper == old(upper) && !reliable
    {
      ghost var u := upper;
      UpperEntryIsAt(u, op, on);
      UpperEntryIsAt(u, np, nn);
      ghost var e, t := UpperAt(u, op + [on]).value, UpperAt(u, np + [nn]).value;
      assert Swappable(u, roots, op, on, e, np, nn, t);
      err := UpperRename(op, on, np, nn, Swap);
      if err.Ok? {
        SwapShows(u, roots, op, on, e, np, nn, t);
        SwapStaysClean(u, roots, op, on, e, np, nn, t);
      }
    }

    lemma StillReady(u: Node, u': Node, op: Path, on: Name, np: Path, nn: Name)
      requires UpperDir(u, op) && UpperDir(u, np) && UpperPresent(u, op + [on]) && ReadyToMove(u, roots, op, on, np)
      requires UpperDir(u', op) && UpperDir(u', np) && SameTree(u, u', roots)
      requires View(u, roots, op) == ADir && View(u, roots, np) == ADir
      requires UpperAt(u', op + [on]) == UpperAt(u, op + [on])
      ensures UpperPresent(u', op + [on]) && ReadyToMove(u', roots, op, on, np)
    {
      HarmlessLowers(u, u', roots, op);
      HarmlessLowers(u, u', roots, np);
    }

    /** The paths a rename works on have upper objects, and the parents still have the lower
        directories they had. */
    static ghost predicate Prepared(u0: Node, u: Node, roots: seq<Node>, op: Path, on: Name, np: Path) {
      && SameView(u0, u, roots)
      && UpperPresent(u, op + [on]) && UpperDir(u, op) && UpperDir(u, np)
      && StackAt(u, roots, op).lowers == StackAt(u0, roots, op).lowers
      && StackAt(u, roots, np).lowers == StackAt(u0, roots, np).lowers
    }

    method PrepareUpper(op: Path, on: Name, np: Path, nn: Name, alsoNew: bool) returns (err: Errno)
      requires Valid() && View(upper, roots, op + [on]) != Absent && View(upper, roots, np) == ADir
      requires alsoNew ==> View(upper, roots, np + [nn]) != Absent
      modifies `upper, `inodes
      ensures Valid() && Harmless(old(upper), upper, roots) && Kept(old(inodes), inodes)
      ensures err.Ok? ==> Prepared(old(upper), upper, roots, op, on, np)
      ensures err.Ok? && alsoNew ==> UpperPresent(upper, np + [nn])
      ensures SameHeld(old(upper), upper)
      ensures !err.Ok? ==> !reliable
    {
      ghost var u0 := upper;
      AncestorIsDir(u0, roots, op, on, op + [on]);
      err := CopyUp(op + [on]);
      SameTreeSameView(u0, upper, roots);
      if !err.Ok? {
        return;
      }
      ghost var u1, i1 := upper, inodes;
      assert View(u1, roots, np) == View(u0, roots, np);
      err := CopyUp(np);
      KeptTwice(old(inodes), i1, inodes);
      SameHeldTwice(u0, u1, upper);
      HarmlessTwice(u0, u1, upper, roots);
      SameTreeSameView(u0, upper, roots);
      if !err.Ok? {
        return;
      }
      if alsoNew {
        ghost var u2, i2 := upper, inodes;
        assert View(u2, roots, np + [nn]) == View(u0, roots, np + [nn]);
        err := CopyUp(np + [nn]);
        KeptTwice(old(inodes), i2, inodes);
        SameHeldTwice(u0, u2, upper);
        HarmlessTwice(u0, u2, upper, roots);
        SameTreeSameView(u0, upper, roots);
        if !err.Ok? {
          return;
        }
      }
      UpperAtPrefix(upper, op, [on]);
      assert View(upper, roots, np) == View(u0, roots, np);
      PresentDir(upper, roots, np);
      HarmlessLowers(u0, upper, roots, op);
      HarmlessLowers(u0, upper, roots, np);
    }

    /** Clears an empty directory that is to be renamed over. */
    method ClearTarget(op: Path, on: Name, np: Path, nn: Name) returns (err: Errno)
      requires Valid() && Prepared(upper, upper, roots, op, on, np)
      requires View(upper, roots, op + [on]) != Absent && EmptyDir(upper, roots, np + [nn])
      modifies `upper
      ensures Valid() && StaysClean() && SameView(old(upper), upper, roots)
      ensures err.Ok? ==> Prepared(old(upper), upper, roots, op, on, np)
      ensures err.Ok? ==> UpperAt(upper, np + [nn]) == Some(EmptyOpaque)
      ensures err.Ok? ==> HeldElsewhere(old(upper), upper, np + [nn])
      ensures err.Ok? && op + [on] != np + [nn] ==>
          StackAt(upper, roots, op + [on]).lowers == StackAt(old(upper), roots, op + [on]).lowers
      ensures !err.Ok? ==> !reliable
    {
      ghost var u := upper;
      err := ClearEmpty(np, nn);
      if !err.Ok? {
        return;
      }
      if np + [nn] <= op + [on] && np + [nn] != op + [on] {
        ghost var rest := (op + [on])[|np| + 1..];
        assert op + [on] == (np + [nn]) + rest;
        EmptyDirBelow(u, roots, np + [nn], rest);
        assert false;
      }
      assert !(np + [nn] <= op);
      PutUpper(u, np, nn, Some(EmptyOpaque));
      MarkHeld(u, np, nn, EmptyOpaque);
      UpperEntryIsAt(upper, np, nn);
      PutOther(u, np, nn, Some(EmptyOpaque), op);
      if np + [nn] != op + [on] {
        PutOtherPresent(u, np, nn, Some(EmptyOpaque), op + [on]);
      }
      PutStackAt(u, roots, np, nn, Some(EmptyOpaque), op);
      PutStackAt(u, roots, np, nn, Some(EmptyOpaque), np);
      PutStackAt(u, roots, np, nn, Some(EmptyOpaque), op + [on]);
    }

    /** How the upper rename must be done, and whether a whiteout is then to be removed. */
    method ChooseMode(s: Stack, lowerPositive: bool, newIsWhiteout: bool) returns (mode: Mode, cleanup: bool)
      ensures !lowerPositive || mode != Plain
      ensures cleanup ==> !lowerPositive && mode == Swap
      ensures mode != Plain && !cleanup ==> lowerPositive
      ensures mode == Swap ==> newIsWhiteout
      ensures newIsWhiteout && Kind(s).ADir? ==> mode == Swap
    {
      mode, cleanup := Plain, false;
      if lowerPositive {
        mode := if !newIsWhiteout then LeaveWhiteout else Swap;
      } else if Kind(s).ADir? && newIsWhiteout {
        mode, cleanup := Swap, true;
      }
    }

    /** Whether two upper entries can be one inode. */
    static predicate SameInode(e: Node, t: Option<Node>) {
      e.File? && t == Some(e)
    }

    /** The last part of a rename: the objects found on the upper filesystem are checked
        against what is expected, and the rename is done. */
    method Commit(op: Path, on: Name, np: Path, nn: Name, overwrite: bool, newIsThere: bool, newIsWhiteout: bool,
                  mode: Mode, cleanup: bool)
      returns (err: Errno)
      requires Valid() && UpperDir(upper, op) && UpperDir(upper, np) && UpperPresent(upper, op + [on])
      requires View(upper, roots, op) == ADir && View(upper, roots, np) == ADir
      requires newIsThere <==> View(upper, roots, np + [nn]) != Absent
      requires newIsWhiteout ==> !newIsThere
      requires if overwrite then (mode.Swap? ==> newIsWhiteout) && (cleanup ==> mode.Swap?)
                                  && (mode.Plain? || cleanup <==> NothingUnder(upper, op, on))
               else UpperPresent(upper, np + [nn])
      modifies `upper
      ensures Valid() && (reliable ==> StaysClean())
      ensures err.Ok? ==> Apart(op + [on], np + [nn])
      ensures err.Ok? && overwrite ==>
                Shows(upper, roots, PlainRename(TreeOf(old(upper), roots), op + [on], np + [nn]))
      ensures err.Ok? && overwrite && newIsThere ==>
                TargetOk(UpperAt(old(upper), op + [on]).value, UpperAt(old(upper), np + [nn]))
      ensures err.Ok? && !overwrite ==>
                Shows(upper, roots, PlainExchange(TreeOf(old(upper), roots), op + [on], np + [nn]))
      ensures err.Ok? ==> !NoRedirect(old(upper), op, on, np) && (!overwrite ==> !NoRedirect(old(upper), np, nn, op))
      ensures !err.Ok? ==> SameView(old(upper), upper, roots)
      ensures !err.Ok? && reliable && (newIsWhiteout <==> !newIsThere && IsWhiteout(old(upper), np + [nn])) ==>
                || (err.EStale? && !Apart(op + [on], np + [nn]))
                || (err.EStale? && SameInode(UpperAt(old(upper), op + [on]).value, UpperAt(old(upper), np + [nn])))
                || (err.EXDev? && Apart(op + [on], np + [nn])
                    && (NoRedirect(old(upper), op, on, np) || (!overwrite && NoRedirect(old(upper), np, nn, op))))
                || (overwrite && !mode.Swap? && Blocked(old(upper), op + [on], np + [nn])
                    && (UpperDir(old(upper), op + [on]) && UpperDir(old(upper), np + [nn]) ==> err.ENotEmpty?))
    {
      WhiteoutIsAbsent(upper, np, nn);
      var target := UpperAt(upper, np + [nn]);
      if newIsThere && UpperPresent(upper, np + [nn]) {
        // It is the object that is to be replaced.
      } else if target.Some? {
        if !newIsWhiteout || target != Some(Whiteout) {
          return EStale;
        }
      } else if mode.Swap? {
        return EStale;
      }
      // Neither may be an ancestor of the other, nor both one inode.
      if op + [on] <= np || np + [nn] <= op {
        return EStale;
      }
      // Two files with one content may still be two inodes.
      var same: bool := *;
      if op + [on] == np + [nn] || (SameInode(UpperAt(upper, op + [on]).value, target) && same) {
        return EStale;
      }
      NotNested(op, on, np, nn);
      if overwrite {
        err := Overwrite(op, on, np, nn, mode, cleanup);
      } else {
        err := Exchange(op, on, np, nn);
      }
    }

    /** rename, from name on of directory op to name nn of directory np.  The caller has
        checked what is checked of any rename: that there is something to move, and that a
        directory is put in place only of a directory and a file of a file. */
    method Rename(op: Path, on: Name, np: Path, nn: Name, flags: RenameFlags, indexed: bool) returns (err: Errno)
      requires Valid() && View(upper, roots, op + [on]) != Absent && View(upper, roots, np) == ADir
      requires flags.exchange ==> View(upper, roots, np + [nn]) != Absent
      requires !flags.exchange && View(upper, roots, np + [nn]) != Absent ==>
                 (View(upper, roots, op + [on]) == ADir <==> View(upper, roots, np + [nn]) == ADir)
      modifies `upper, `inodes
      ensures Valid() && (reliable ==> StaysClean())
      ensures err.Ok? ==> Apart(op + [on], np + [nn])
      ensures if err.Ok? then Noted(old(inodes), inodes, RenameChange(op, on, np, nn, flags), {op, np})
              else Kept(old(inodes), inodes)
      ensures err.Ok? && !flags.exchange ==>
                && Shows(upper, roots, PlainRename(TreeOf(old(upper), roots), op + [on], np + [nn]))
                && (View(old(upper), roots, np + [nn]) == ADir ==> EmptyDir(old(upper), roots, np + [nn]))
      ensures err.Ok? && flags.exchange ==>
                Shows(upper, roots, PlainExchange(TreeOf(old(upper), roots), op + [on], np + [nn]))
      ensures err.Ok? ==> !CannotMove(old(upper), op, on, np) &&
                          (flags.exchange ==> !CannotMove(old(upper), np, nn, op))
      ensures !err.Ok? ==> SameView(old(upper), upper, roots)
      ensures !err.Ok? && reliable ==>
                if flags.whiteout then err.EInval? else Refused(old(upper), op, on, np, nn, flags.exchange, err)
      ensures reliable && NoStray(old(upper), roots) && err.ENotEmpty? ==> !EmptyDir(old(upper), roots, np + [nn])
    {
      hide NoStray;
      ghost var u0 := upper;
      var overwrite := !flags.exchange;
      if View(upper, roots, np + [nn]) == ADir {
        StaysIfNotEmpty(upper, np + [nn]);
      }
      if flags.whiteout {
        return EInval;
      }
      var plan;
      err, plan := MakePlan(op, on, np, nn, overwrite);
      if !err.Ok? {
        return;
      }
      var alsoNew := !overwrite || (plan.newIsThere && indexed && !UpperPresent(upper, np + [nn]));
      err := Prepare(op, on, np, nn, alsoNew, plan.list);
      if !err.Ok? {
        return;
      }
      ghost var last := upper;
      AncestorIsDir(u0, roots, op, on, op + [on]);
      assert View(last, roots, op) == ADir && View(last, roots, np) == ADir;
      assert View(last, roots, np + [nn]) == View(u0, roots, np + [nn]);
      err := Commit(op, on, np, nn, overwrite, plan.newIsThere, plan.newIsWhiteout, plan.mode, plan.cleanup);
      SameViewTwice(u0, last, upper, roots);
      if err.Ok? {
        CouldMove(u0, last, op, on, np, np + [nn]);
        if !overwrite {
          CouldMove(u0, last, np, nn, op, op + [on]);
        }
        NoteRename(op, on, np, nn, flags, old(inodes));
      }
      if err.Ok? && overwrite {
        RenameOfSameView(u0, last, upper, roots, op + [on], np + [nn]);
        if View(u0, roots, np + [nn]) == ADir && !EmptyDir(u0, roots, np + [nn]) {
          OverwrittenWasEmpty(u0, last, op, on, np, nn);
        }
      } else if err.Ok? {
        ExchangeOfSameView(u0, last, upper, roots, op + [on], np + [nn]);
      } else if reliable {
        WhiteoutIsAbsent(u0, np, nn);
        RefusedForAReason(u0, last, op, on, np, nn, overwrite, plan, err);
      }
    }

    /** How a rename moves the objects of the tree. */
    static function RenameChange(op: Path, on: Name, np: Path, nn: Name, flags: RenameFlags): Change {
      if flags.exchange then Swaps(op + [on], np + [nn]) else Moves(op + [on], np + [nn])
    }

    /** Both parents are modified; then the directories move, and their inodes with them. */
    method NoteRename(op: Path, on: Name, np: Path, nn: Name, flags: RenameFlags, ghost before: Inodes)
      requires Apart(op + [on], np + [nn]) && Kept(before, inodes)
      modifies `inodes
      ensures Noted(before, inodes, RenameChange(op, on, np, nn, flags), {op, np})
    {
      var oldImpurity: bool, newImpurity: bool := *, *;
      var change := RenameChange(op, on, np, nn, flags);
      ghost var was := inodes;
      DirModified(op, oldImpurity);
      ghost var between := inodes;
      DirModified(np, newImpurity);
      NotedTwice(was, between, inodes, {op}, {np});
      assert {op} + {np} == {op, np};
      NotedThenCarried(was, inodes, {op, np}, change);
      inodes := Carried(inodes, change);
      KeptThenNoted(before, was, inodes, change, {op, np});
    }

    /** A directory that needs a redirect to be moved. */
    ghost predicate IsMerged(u: Node, p: Path) {
      View(u, roots, p) == ADir && TypeMergeOrLower(StackAt(u, roots, p))
    }

    /** Redirects are off, or the one that would be needed is longer than the maximum. */
    ghost predicate CannotMove(u: Node, op: Path, on: Name, np: Path) {
      IsMerged(u, op + [on]) && (!redirectDir || (op != np && TooLong(u, op + [on])))
    }

    /** What has been moved could be. */
    lemma CouldMove(u0: Node, u: Node, op: Path, on: Name, np: Path, x: Path)
      requires LayersOk(u0, roots) && LayersOk(u, roots) && SameView(u0, u, roots) && UpperPresent(u, op + [on])
      requires View(u0, roots, op + [on]) == ADir ==>
          StackAt(u, roots, op + [on]).lowers == StackAt(u0, roots, op + [on]).lowers
      requires HeldElsewhere(u0, u, x) && !(x <= op + [on])
      requires CanMove(StackAt(u0, roots, op + [on])) && !NoRedirect(u, op, on, np)
      ensures !CannotMove(u0, op, on, np)
    {
      if CannotMove(u0, op, on, np) {
        assert View(u, roots, op + [on]) == View(u0, roots, op + [on]);
        PresentDir(u, roots, op + [on]);
        TooLongSame(u0, u, x, op + [on]);
      }
    }

    /** Why a rename fails when every step on the upper filesystem succeeds: a directory that
        cannot be given a redirect, a target directory that is not empty, or two names of
        which one is under the other or that are one file. */
    ghost predicate Refused(u: Node, op: Path, on: Name, np: Path, nn: Name, exchange: bool, err: Errno) {
      var src, dst := View(u, roots, op + [on]), View(u, roots, np + [nn]);
      || (err.EXDev? && (CannotMove(u, op, on, np) || (exchange && CannotMove(u, np, nn, op))))
      || (err.ENotEmpty? && !exchange && dst == ADir && StaysFor(u, np + [nn]))
      || (err.EStale? && (!Apart(op + [on], np + [nn]) || (src == dst && src.AFile?)))
    }

    lemma WhiteoutIsAbsent(u: Node, p: Path, n: Name)
      requires u.Dir?
      ensures IsWhiteout(u, p + [n]) ==> View(u, roots, p + [n]) == Absent
      ensures UpperPresent(u, p + [n]) ==> View(u, roots, p + [n]) == NodeKind(UpperAt(u, p + [n]).value)
    {
      StackAtPresent(u, roots, p + [n]);
      if IsWhiteout(u, p + [n]) {
        UpperAtPrefix(u, p, [n]);
        UpperEntryIsAt(u, p, n);
        StackAtChild(u, roots, p, n);
        StackAtUpper(u, roots, p);
      }
    }

    /** A directory that cannot be renamed over is one that stays. */
    lemma BlockedStays(u0: Node, u: Node, op: Path, on: Name, np: Path, nn: Name)
      requires LayersOk(u0, roots) && LayersOk(u, roots) && SameView(u0, u, roots) && SameWhiteouts(u0, u)
      requires UpperDir(u, np) && UpperPresent(u, op + [on]) && Blocked(u, op + [on], np + [nn])
      requires View(u0, roots, np + [nn]) != Absent ==>
          (View(u0, roots, op + [on]) == ADir <==> View(u0, roots, np + [nn]) == ADir)
      requires !(IsWhiteout(u0, np + [nn]) && View(u0, roots, op + [on]) == ADir)
      ensures UpperDir(u, op + [on]) && UpperDir(u, np + [nn]) && View(u0, roots, np + [nn]) == ADir
      ensures EmptyDir(u0, roots, np + [nn]) ==> Populated(UpperAt(u0, np + [nn]))
    {
      WhiteoutIsAbsent(u, op, on);
      WhiteoutIsAbsent(u, np, nn);
      assert View(u, roots, op + [on]) == View(u0, roots, op + [on]);
      assert View(u, roots, np + [nn]) == View(u0, roots, np + [nn]);
      var d := UpperAt(u, np + [nn]).value;
      assert d.Dir?;
      var m :| m in d.children;
      UpperEntryIsAt(u, np + [nn], m);
      WhiteoutIsAbsent(u, np + [nn], m);
      assert View(u, roots, (np + [nn]) + [m]) == View(u0, roots, (np + [nn]) + [m]);
      if d.children[m] == Whiteout {
        assert IsWhiteout(u0, (np + [nn]) + [m]);
        UpperAtPrefix(u0, np + [nn], [m]);
        UpperEntryIsAt(u0, np + [nn], m);
      }
    }

    lemma LowersAreMerged(u0: Node, u: Node, p: Path)
      requires u0.Dir? && HasLowers(u, p) && View(u0, roots, p) == ADir
      requires StackAt(u, roots, p).lowers == StackAt(u0, roots, p).lowers
      ensures IsMerged(u0, p)
    {
    }

    /** What the last part of a rename fails for at u is a reason to refuse it at u0. */
    lemma RefusedForAReason(u0: Node, u: Node, op: Path, on: Name, np: Path, nn: Name, overwrite: bool,
                            plan: Plan, err: Errno)
      requires LayersOk(u0, roots) && LayersOk(u, roots) && Prepared(u0, u, roots, op, on, np)
      requires overwrite && View(u0, roots, np + [nn]) != Absent ==>
          (View(u0, roots, op + [on]) == ADir <==> View(u0, roots, np + [nn]) == ADir)
      requires plan.list == [] ==> SameTree(u0, u, roots) && SameWhiteouts(u0, u)
      requires !overwrite ==> plan.list == []
      requires HeldElsewhere(u0, u, np + [nn]) && (plan.list == [] ==> SameHeld(u0, u))
      requires View(u0, roots, op + [on]) == ADir && op + [on] != np + [nn] ==>
          StackAt(u, roots, op + [on]).lowers == StackAt(u0, roots, op + [on]).lowers
      requires plan.list != [] ==> UpperAt(u, np + [nn]) == Some(EmptyOpaque) && View(u0, roots, np + [nn]) == ADir
      requires overwrite && IsWhiteout(u0, np + [nn]) && View(u0, roots, op + [on]) == ADir ==> plan.mode.Swap?
      requires overwrite && View(u0, roots, np + [nn]) == ADir && plan.list == [] ==>
          (Populated(UpperAt(u0, np + [nn])) ==> StaysFor(u0, np + [nn]))
      requires
        || (err.EStale? && !Apart(op + [on], np + [nn]))
        || (err.EStale? && SameInode(UpperAt(u, op + [on]).value, UpperAt(u, np + [nn])))
        || (err.EXDev? && Apart(op + [on], np + [nn])
            && (NoRedirect(u, op, on, np) || (!overwrite && NoRedirect(u, np, nn, op))))
        || (overwrite && !plan.mode.Swap? && Blocked(u, op + [on], np + [nn])
            && (UpperDir(u, op + [on]) && UpperDir(u, np + [nn]) ==> err.ENotEmpty?))
      ensures Refused(u0, op, on, np, nn, !overwrite, err)
    {
      WhiteoutIsAbsent(u, op, on);
      WhiteoutIsAbsent(u, np, nn);
      assert View(u, roots, op + [on]) == View(u0, roots, op + [on]);
      assert View(u, roots, np + [nn]) == View(u0, roots, np + [nn]);
      if HasLowers(u, op + [on]) && Apart(op + [on], np + [nn]) {
        LowersAreMerged(u0, u, op + [on]);
        TooLongSame(u0, u, np + [nn], op + [on]);
      }
      if !overwrite && HasLowers(u, np + [nn]) && Apart(op + [on], np + [nn]) {
        HarmlessLowers(u0, u, roots, np + [nn]);
        LowersAreMerged(u0, u, np + [nn]);
        TooLongSame(u0, u, op + [on], np + [nn]);
      }
      if overwrite && !plan.mode.Swap? && Blocked(u, op + [on], np + [nn]) && plan.list == [] {
        BlockedStays(u0, u, op, on, np, nn);
      }
    }

    /** What is decided before anything is changed. */
    method MakePlan(op: Path, on: Name, np: Path, nn: Name, overwrite: bool) returns (err: Errno, plan: Plan)
      requires Valid() && View(upper, roots, op + [on]) != Absent && View(upper, roots, np) == ADir
      ensures err.Ok? ==>
                && (plan.newIsThere <==> View(upper, roots, np + [nn]) != Absent)
                && (plan.newIsWhiteout <==> !plan.newIsThere && IsWhiteout(upper, np + [nn]))
                && (plan.list != [] ==> EmptyDir(upper, roots, np + [nn]))
                && (overwrite ==>
                      && (plan.mode.Swap? ==> plan.newIsWhiteout) && (plan.cleanup ==> plan.mode.Swap?)
                      && (plan.mode.Plain? || plan.cleanup <==> NothingUnder(upper, op, on))
                      && (View(upper, roots, np + [nn]) == ADir ==>
                            || EmptyDir(upper, roots, np + [nn])
                            || (plan.list == [] && StackAt(upper, roots, np + [nn]).lowers == [])))
      ensures err.Ok? && overwrite && plan.newIsWhiteout && View(upper, roots, op + [on]) == ADir ==> plan.mode.Swap?
      ensures err.Ok? && overwrite && View(upper, roots, np + [nn]) == ADir && plan.list == [] ==>
                (Populated(UpperAt(upper, np + [nn])) ==> StaysFor(upper, np + [nn]))
      ensures err.Ok? ==> CanMove(StackAt(upper, roots, op + [on])) &&
                          (!overwrite ==> CanMove(StackAt(upper, roots, np + [nn])))
      ensures !overwrite ==> plan.list == []
      ensures !err.Ok? ==> Refused(upper, op, on, np, nn, !overwrite, err)
    {
      var s, t := StackAt(upper, roots, op + [on]), StackAt(upper, roots, np + [nn]);
      var newIsThere, newIsDir := !Kind(t).Absent?, Kind(t).ADir?;
      var newIsWhiteout := !newIsThere && UpperAt(upper, np + [nn]) == Some(Whiteout);
      plan := Plan(newIsThere, newIsWhiteout, [], Plain, false);
      if !CanMove(s) || (!overwrite && !CanMove(t)) {
        return EXDev, plan;
      }
      if !overwrite {
        return Ok, plan;
      }
      var list: seq<CacheEntry> := [];
      if newIsDir && !PureUpper(t) {
        var empty;
        empty, list := CheckEmpty(np + [nn]);
        if !empty {
          return ENotEmpty, plan;
        }
      }
      StackEmptyIff(roots, StackAt(upper, roots, op).lowers, on);
      StackAtChild(upper, roots, op, on);
      var lowerPositive := LowerPositive(s, StackAt(upper, roots, op), on);
      var mode, cleanup := ChooseMode(s, lowerPositive, newIsWhiteout);
      return Ok, Plan(newIsThere, newIsWhiteout, list, mode, cleanup);
    }

    /** Copies up what the rename needs, and clears the target. */
    method Prepare(op: Path, on: Name, np: Path, nn: Name, alsoNew: bool, list: seq<CacheEntry>) returns (err: Errno)
      requires Valid() && View(upper, roots, op + [on]) != Absent && View(upper, roots, np) == ADir
      requires alsoNew ==> View(upper, roots, np + [nn]) != Absent
      requires list != [] ==> EmptyDir(upper, roots, np + [nn])
      modifies `upper, `inodes
      ensures Valid() && StaysClean() && SameView(old(upper), upper, roots) && Kept(old(inodes), inodes)
      ensures err.Ok? ==> Prepared(old(upper), upper, roots, op, on, np)
      ensures err.Ok? && alsoNew ==> UpperPresent(upper, np + [nn])
      ensures list == [] ==> SameTree(old(upper), upper, roots) && SameWhiteouts(old(upper), upper)
      ensures err.Ok? && list != [] ==> UpperAt(upper, np + [nn]) == Some(EmptyOpaque)
      ensures err.Ok? ==> HeldElsewhere(old(upper), upper, np + [nn]) && (list == [] ==> SameHeld(old(upper), upper))
      ensures err.Ok? && View(old(upper), roots, op + [on]) == ADir && op + [on] != np + [nn] ==>
          StackAt(upper, roots, op + [on]).lowers == StackAt(old(upper), roots, op + [on]).lowers
      ensures !err.Ok? ==> !reliable
    {
      hide NoStray;
      ghost var u0 := upper;
      err := PrepareUpper(op, on, np, nn, alsoNew);
      SameTreeSameView(u0, upper, roots);
      HarmlessStaysClean(u0, upper, roots);
      if View(u0, roots, op + [on]) == ADir {
        HarmlessLowers(u0, upper, roots, op + [on]);
      }
      if err.Ok? && list != [] {
        ghost var ready := upper;
        assert View(ready, roots, op + [on]) == View(u0, roots, op + [on]);
        assert EmptyDir(ready, roots, np + [nn]);
        err := ClearTarget(op, on, np, nn);
        if err.Ok? {
          HeldThen(u0, ready, upper, np + [nn]);
        }
        SameViewTwice(u0, ready, upper, roots);
      }
    }

    lemma SameViewTwice(u0: Node, u1: Node, u2: Node, roots: seq<Node>)
      requires SameView(u0, u1, roots)
      ensures SameView(u1, u2, roots) ==> SameView(u0, u2, roots)
    {
    }

    lemma NotNested(op: Path, on: Name, np: Path, nn: Name)
      requires !(op + [on] <= np) && !(np + [nn] <= op) && op + [on] != np + [nn]
      ensures Apart(op + [on], np + [nn])
    {
    }

    lemma OverwrittenWasEmpty(u0: Node, u: Node, op: Path, on: Name, np: Path, nn: Name)
      requires LayersOk(u0, roots) && LayersOk(u, roots) && SameTree(u0, u, roots)
      requires UpperPresent(u, op + [on])
      requires View(u0, roots, op + [on]) == ADir && View(u0, roots, np + [nn]) == ADir
      requires StackAt(u0, roots, np + [nn]).lowers == []
      requires TargetOk(UpperAt(u, op + [on]).value, UpperAt(u, np + [nn]))
      ensures EmptyDir(u0, roots, np + [nn])
    {
      SameTreeSameView(u0, u, roots);
      assert View(u, roots, op + [on]) == ADir && View(u, roots, np + [nn]) == ADir;
      PresentDir(u, roots, op + [on]);
      HarmlessLowers(u0, u, roots, np + [nn]);
      StackAtPresent(u, roots, np + [nn]);
      PresentDir(u, roots, np + [nn]);
      EmptyUpperIsEmpty(u, np + [nn]);
      forall m: Name ensures View(u0, roots, (np + [nn]) + [m]) == Absent {
        assert View(u, roots, (np + [nn]) + [m]) == View(u0, roots, (np + [nn]) + [m]);
      }
    }
  }

  /** Such a failed creation can show: with a file below the whiteout, the name is there
      again once the whiteout is gone. */
  lemma CoveredHappens(n: Name)
    ensures var u := Dir(false, None, false, map[n := Whiteout]);
            var roots := [Dir(false, None, false, map[n := File(7)])];
            && LayersOk(u, roots) && View(u, roots, [n]) == Absent
            && Overlay.Covered(u, roots, [], n)
            && View(Put(u, [], n, None), roots, [n]) == AFile(7)
  {
    var lower := Dir(false, None, false, map[n := File(7)]);
    var u := Dir(false, None, false, map[n := Whiteout]);
    var roots := [lower];
    assert RootEntries(roots, 1) == [];
    assert RootEntries(roots, 0) == [Entry(1, lower)];
    var s := StackAt(u, roots, []);
    assert [] + [n] == [n];
    StackAtChild(u, roots, [], n);
    assert UpperAt(u, [n]) == Some(Whiteout);
    assert Nodes(s.lowers) == [lower];
    var u' := Put(u, [], n, None);
    var s' := StackAt(u', roots, []);
    assert EntryOf(u', n) == None;
    StackAtChild(u', roots, [], n);
    assert LookupStack(roots, [Entry(1, lower)], n, false) == [Entry(1, File(7))];
  }

  /** An empty directory that cannot be removed: its one whiteout hides nothing, and as it has never
      had lower directories nobody looks for whiteouts to clear. */
  lemma StrayStays(fs: Overlay, n: Name, m: Name)
    requires fs.upper == Dir(false, None, false, map[n := Dir(false, None, false, map[m := Whiteout])])
    requires fs.roots == [Dir(false, None, false, map[])]
    ensures !NoStray(fs.upper, fs.roots) && EmptyDir(fs.upper, fs.roots, [n]) && fs.StaysFor(fs.upper, [n])
  {
    var u, roots, d := fs.upper, fs.roots, fs.upper.children[n];
    assert RootEntries(roots, 1) == [];
    assert RootEntries(roots, 0) == [Entry(1, roots[0])];
    assert [] + [n] == [n];
    StackAtChild(u, roots, [], n);
    assert LookupStack(roots, [Entry(1, roots[0])], n, true) == [];
    assert StackAt(u, roots, [n]) == Stack(Some(d), []);
    forall x: Name ensures View(u, roots, [n] + [x]) == Absent {
      StackAtChild(u, roots, [n], x);
    }
    assert [n] + [m] == [n, m];
    assert UpperAt(u, [n]) == Some(d);
    UpperEntryIsAt(u, [n], m);
    assert StrayAt(u, roots, [n], m);
  }
}
