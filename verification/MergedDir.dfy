// What the stack of a directory says about the names in it, and how that agrees with
// the directory's merged listing.

module MergedDir {
  import opened Tree
  import opened SearchTree
  import opened Readdir

  // ------------------------------------------------------------- shape of a stack

  predicate AllDirs(es: seq<Entry>) {
    forall e | e in es :: e.node.Dir?
  }

  /** Directories only, or a single file with nothing above or below. */
  predicate WellStacked(s: Stack) {
    && s.upper != Some(Whiteout)
    && (s.upper.Some? && !s.upper.value.Dir? ==> s.lowers == [])
    && (s.upper.Some? ==> AllDirs(s.lowers))
    && (AllDirs(s.lowers) || (|s.lowers| == 1 && s.lowers[0].node.File?))
  }

  predicate FirstFileOrDirs(es: seq<Entry>) {
    AllDirs(es) || (|es| == 1 && es[0].node.File?)
  }

  lemma {:induction false} WalkKinds(base: Node, pre: Path, comps: AbsPath, isDir: bool, stop: bool)
    ensures var f := Walk(base, pre, comps, isDir, stop);
            f.node.Some? ==> f.node.value.Dir? || (f.node.value.File? && !isDir && f.next.Stop?)
    decreases |comps|
  {
    var e := EntryOf(base, comps[0]);
    if e.Some? && e.value.Dir? && |comps| > 1 {
      var d := e.value;
      WalkKinds(d, NextPrefix(d, pre, comps[0]), comps[1..], isDir, NextStop(d, stop));
    }
  }

  lemma {:induction false} RootsKinds(roots: seq<Node>, k: nat, path: AbsPath, isDir: bool)
    ensures var es := LookupRoots(roots, k, path, isDir);
            if isDir then AllDirs(es) else FirstFileOrDirs(es)
    decreases |roots| - k
  {
    if k < |roots| {
      WalkKinds(roots[k], [], path, isDir, false);
      var f := Walk(roots[k], [], path, isDir, false);
      if f.next.Go? && f.next.target.Abs? {
        RootsKinds(roots, k + 1, f.next.target.path, IsDirNow(f, isDir));
      }
    }
  }

  lemma {:induction false} StackKinds(roots: seq<Node>, poe: seq<Entry>, n: Name, isDir: bool)
    ensures var es := LookupStack(roots, poe, n, isDir);
            if isDir then AllDirs(es) else FirstFileOrDirs(es)
    decreases |poe|
  {
    if poe != [] {
      var f := Single(poe[0].node, n, isDir);
      match f.next
      case Stop =>
      case Go(Rel(m)) => StackKinds(roots, poe[1..], m, IsDirNow(f, isDir));
      case Go(Abs(p)) => RootsKinds(roots, poe[0].layer, p, IsDirNow(f, isDir));
    }
  }

  lemma ResolveWellStacked(roots: seq<Node>, poe: seq<Entry>, n: Name, up: Option<Node>)
    ensures WellStacked(Resolve(roots, poe, n, up))
  {
    match up
    case None => StackKinds(roots, poe, n, false);
    case Some(Whiteout) =>
    case Some(File(id)) =>
    case Some(d) =>
      match NextName(d, n)
      case Rel(m) => StackKinds(roots, poe, m, true);
      case Abs(p) => RootsKinds(roots, 0, p, true);
  }

  lemma {:induction false} DescendWellStacked(roots: seq<Node>, s: Stack, p: Path)
    requires WellStacked(s)
    ensures WellStacked(Descend(roots, s, p))
    decreases |p|
  {
    if p != [] {
      ResolveWellStacked(roots, s.lowers, p[0], UpperEntry(s.upper, p[0]));
      DescendWellStacked(roots, Child(roots, s, p[0]), p[1..]);
    }
  }

  lemma {:induction false} RootsWellStacked(upper: Node, roots: seq<Node>, k: nat)
    requires upper.Dir? && forall r | r in roots :: r.Dir?
    ensures AllDirs(RootEntries(roots, k))
    ensures WellStacked(Stack(Some(upper), RootEntries(roots, k)))
    decreases |roots| - k
  {
    if k < |roots| {
      RootsWellStacked(upper, roots, k + 1);
    }
  }

  // ------------------------------------------------------ layer order in every stack

  /** Layers strictly increasing, from low + 1 to high. */
  predicate Increasing(es: seq<Entry>, low: int, high: int) {
    && (forall i, j :: 0 <= i < j < |es| ==> es[i].layer < es[j].layer)
    && (forall e | e in es :: low < e.layer <= high)
  }

  lemma IncreasingHit(f: Found, layer: nat, rest: seq<Entry>, low: int, high: int)
    requires low < layer <= high && Increasing(rest, layer, high)
    ensures Increasing(Hit(f, layer) + rest, low, high)
  {
  }

  lemma {:induction false} RootsIncreasing(roots: seq<Node>, k: nat, path: AbsPath, isDir: bool)
    ensures Increasing(LookupRoots(roots, k, path, isDir), k, |roots|)
    decreases |roots| - k
  {
    if k < |roots| {
      var f := Walk(roots[k], [], path, isDir, false);
      if f.next.Go? && f.next.target.Abs? {
        RootsIncreasing(roots, k + 1, f.next.target.path, IsDirNow(f, isDir));
        IncreasingHit(f, k + 1, LookupRoots(roots, k + 1, f.next.target.path, IsDirNow(f, isDir)), k, |roots|);
      } else {
        IncreasingHit(f, k + 1, [], k, |roots|);
      }
    }
  }

  lemma {:induction false} StackIncreasing(roots: seq<Node>, poe: seq<Entry>, low: int, n: Name, isDir: bool)
    requires Increasing(poe, low, |roots|)
    ensures Increasing(LookupStack(roots, poe, n, isDir), low, |roots|)
    decreases |poe|
  {
    if poe != [] {
      assert poe[0] in poe;
      var here := poe[0].layer;
      var f := Single(poe[0].node, n, isDir);
      assert Increasing(poe[1..], here, |roots|);
      match f.next {
        case Stop =>
          IncreasingHit(f, here, [], low, |roots|);
        case Go(Rel(m)) =>
          StackIncreasing(roots, poe[1..], here, m, IsDirNow(f, isDir));
          IncreasingHit(f, here, LookupStack(roots, poe[1..], m, IsDirNow(f, isDir)), low, |roots|);
        case Go(Abs(p)) =>
          RootsIncreasing(roots, here, p, IsDirNow(f, isDir));
          IncreasingHit(f, here, LookupRoots(roots, here, p, IsDirNow(f, isDir)), low, |roots|);
      }
    }
  }

  lemma {:induction false} RootEntriesIncreasing(roots: seq<Node>, k: nat)
    ensures Increasing(RootEntries(roots, k), k, |roots|)
    decreases |roots| - k
  {
    if k < |roots| {
      RootEntriesIncreasing(roots, k + 1);
    }
  }

  lemma {:induction false} DescendIncreasing(roots: seq<Node>, s: Stack, p: Path)
    requires Increasing(s.lowers, 0, |roots|)
    ensures Increasing(Descend(roots, s, p).lowers, 0, |roots|)
    decreases |p|
  {
    if p != [] {
      var up := UpperEntry(s.upper, p[0]);
      if up.None? {
        StackIncreasing(roots, s.lowers, 0, p[0], false);
      } else if up.value.Dir? {
        match NextName(up.value, p[0])
        case Rel(m) => StackIncreasing(roots, s.lowers, 0, m, true);
        case Abs(a) => RootsIncreasing(roots, 0, a, true);
      }
      DescendIncreasing(roots, Child(roots, s, p[0]), p[1..]);
    }
  }

  lemma {:induction false} IncreasingLength(es: seq<Entry>, low: int, high: int)
    requires Increasing(es, low, high) && low <= high
    ensures |es| <= high - low
    decreases |es|
  {
    if es != [] {
      assert es[0] in es;
      assert Increasing(es[1..], es[0].layer, high);
      IncreasingLength(es[1..], es[0].layer, high);
    }
  }

  /** Whatever redirects are followed, the lower stack of every path has each layer at
      most once, top to bottom, so it fits an array with one slot per lower layer. */
  lemma StacksAreOrdered(upper: Node, roots: seq<Node>, p: Path)
    ensures Increasing(StackAt(upper, roots, p).lowers, 0, |roots|)
    ensures |StackAt(upper, roots, p).lowers| <= |roots|
  {
    RootEntriesIncreasing(roots, 0);
    DescendIncreasing(roots, Stack(Some(upper), RootEntries(roots, 0)), p);
    IncreasingLength(StackAt(upper, roots, p).lowers, 0, |roots|);
  }

  // --------------------------------------------------------------- names in a stack

  function Nodes(es: seq<Entry>): seq<Node> {
    seq(|es|, i requires 0 <= i < |es| => es[i].node)
  }

  /** The directories a stack merges, topmost first. */
  function DirsOf(s: Stack): seq<Node> {
    (if s.upper.Some? then [s.upper.value] else []) + Nodes(s.lowers)
  }

  /** The topmost entry of a name. */
  function FirstEntry(ds: seq<Node>, n: Name): Option<Node> {
    if ds == [] then None
    else if EntryOf(ds[0], n).Some? then EntryOf(ds[0], n)
    else FirstEntry(ds[1..], n)
  }

  predicate Positive(e: Option<Node>) {
    e.Some? && e.value != Whiteout
  }

  lemma {:induction false} StackEmptyIff(roots: seq<Node>, poe: seq<Entry>, n: Name)
    ensures LookupStack(roots, poe, n, false) != [] <==> Positive(FirstEntry(Nodes(poe), n))
    decreases |poe|
  {
    if poe != [] {
      assert Nodes(poe)[1..] == Nodes(poe[1..]);
      if EntryOf(poe[0].node, n).None? {
        StackEmptyIff(roots, poe[1..], n);
      }
    }
  }

  /** Lookup finds a name exactly when its topmost entry is not a whiteout. */
  lemma ChildPresentIff(roots: seq<Node>, s: Stack, n: Name)
    ensures Kind(Child(roots, s, n)) != Absent <==> Positive(FirstEntry(DirsOf(s), n))
  {
    var up := UpperEntry(s.upper, n);
    if s.upper.Some? {
      assert DirsOf(s)[0] == s.upper.value && DirsOf(s)[1..] == Nodes(s.lowers);
    } else {
      assert DirsOf(s) == Nodes(s.lowers);
    }
    if up.None? {
      StackEmptyIff(roots, s.lowers, n);
      StackKinds(roots, s.lowers, n, false);
    }
  }

  /** Whether something would show if the upper entry of the name went away.  Where nothing is
      seen the answer is taken from the whiteout, without a look at what it hides. */
  method LowerPositive(s: Stack, parent: Stack, n: Name) returns (positive: bool)
    ensures Kind(s) == Absent ==> (positive <==> UpperEntry(parent.upper, n) == Some(Whiteout))
    ensures Kind(s) != Absent ==> (positive <==> s.upper.None? || Positive(FirstEntry(Nodes(parent.lowers), n)))
  {
    if Kind(s) == Absent {
      return UpperEntry(parent.upper, n) == Some(Whiteout);
    }
    if s.upper.None? {
      return true;
    }
    var i, done := 0, false;
    positive := false;
    ghost var ds := Nodes(parent.lowers);
    while !done && !positive && i < |parent.lowers|
      invariant 0 <= i <= |ds|
      invariant !done ==> !positive && FirstEntry(ds, n) == FirstEntry(ds[i..], n)
      invariant done ==> (positive <==> Positive(FirstEntry(ds, n)))
      decreases |parent.lowers| - i, !done
    {
      var found := EntryOf(parent.lowers[i].node, n);
      assert ds[i..][0] == parent.lowers[i].node && ds[i..][1..] == ds[i + 1..];
      if found.Some? {
        positive := found.value != Whiteout;
        done := true;
      }
      i := i + 1;
    }
  }

  /** A negative answer for a name that is not seen is never wrong; a positive one is where the
      whiteout hides nothing. */
  lemma NotSeenOrHidden(roots: seq<Node>, parent: Stack, n: Name)
    requires Kind(Child(roots, parent, n)) == Absent
    ensures Positive(FirstEntry(Nodes(parent.lowers), n)) ==> UpperEntry(parent.upper, n) == Some(Whiteout)
  {
    ChildPresentIff(roots, parent, n);
    if parent.upper.Some? {
      assert DirsOf(parent)[0] == parent.upper.value && DirsOf(parent)[1..] == Nodes(parent.lowers);
    } else {
      assert DirsOf(parent) == Nodes(parent.lowers);
    }
  }

  // ------------------------------------------------------------- listing and lookup

  predicate IsDot(name: string) {
    name == "." || name == ".."
  }

  ghost predicate ListedAs(l: Listed, c: Node) {
    && l.isWhiteout == (c == Whiteout)
    && (l.dtype == DtDir <==> c.Dir?)
    && (c == Whiteout ==> l.dtype == DtChr)
  }

  /** ls is a listing of directory d, in any order. */
  ghost predicate IsListing(ls: Listing, d: Node) {
    && Distinct(ls)
    && (forall l :: l in ls && !IsDot(l.name) ==>
          IsComponent(l.name) && EntryOf(d, l.name).Some? && ListedAs(l, EntryOf(d, l.name).value))
    && (forall n: Name :: EntryOf(d, n).Some? ==> exists l :: l in ls && l.name == n)
  }

  ghost predicate AreListings(layers: seq<Listing>, ds: seq<Node>) {
    |layers| == |ds| && forall i :: 0 <= i < |ds| ==> IsListing(layers[i], ds[i])
  }

  lemma {:induction false} FirstEntrySnoc(ds: seq<Node>, d: Node, n: Name)
    ensures FirstEntry(ds + [d], n)
         == if FirstEntry(ds, n).Some? then FirstEntry(ds, n) else EntryOf(d, n)
  {
    if ds != [] {
      assert (ds + [d])[1..] == ds[1..] + [d];
      FirstEntrySnoc(ds[1..], d, n);
    }
  }

  lemma ListingFinds(ls: Listing, d: Node, n: Name)
    requires IsListing(ls, d)
    ensures match InListing(ls, n)
            case Some(l) => EntryOf(d, n).Some? && ListedAs(l, EntryOf(d, n).value)
            case None => EntryOf(d, n).None?
  {
    InListingSound(ls, n);
  }

  lemma {:induction false} TopIsFirstEntry(layers: seq<Listing>, ds: seq<Node>, hasUpper: bool, n: Name)
    requires AreListings(layers, ds)
    ensures match Top(layers, hasUpper, n)
            case Some(e) =>
              && FirstEntry(ds, n).Some? && (e.isWhiteout <==> FirstEntry(ds, n) == Some(Whiteout))
              && (e.dtype == DtDir <==> FirstEntry(ds, n).value.Dir?)
            case None => FirstEntry(ds, n).None?
    decreases |layers|
  {
    if layers != [] {
      var last := |layers| - 1;
      assert ds == ds[..last] + [ds[last]];
      TopIsFirstEntry(layers[..last], ds[..last], hasUpper, n);
      FirstEntrySnoc(ds[..last], ds[last], n);
      ListingFinds(layers[last], ds[last], n);
    }
  }

  ghost predicate Visible(es: seq<CacheEntry>, n: string) {
    exists e :: e in es && e.name == n && !e.isWhiteout
  }

  /** A name is visible in the merged listing exactly when lookup finds it. */
  lemma VisibleIffLookup(roots: seq<Node>, s: Stack, layers: seq<Listing>, n: Name)
    requires DirsOf(s) != [] && AreListings(layers, DirsOf(s))
    ensures Visible(Merged(layers, s.upper.Some?), n) <==> Kind(Child(roots, s, n)) != Absent
  {
    MergedIsTop(layers, s.upper.Some?);
    TopIsFirstEntry(layers, DirsOf(s), s.upper.Some?, n);
    ChildPresentIff(roots, s, n);
    var top := Top(layers, s.upper.Some?, n);
    if top.Some? {
      TopHasName(layers, s.upper.Some?, n);
      assert top.value in Merged(layers, s.upper.Some?);
    }
  }

  /** Where lookup finds a name, it is the topmost entry. */
  lemma {:induction false} StackFirst(roots: seq<Node>, poe: seq<Entry>, n: Name)
    requires Positive(FirstEntry(Nodes(poe), n))
    ensures LookupStack(roots, poe, n, false) != []
    ensures LookupStack(roots, poe, n, false)[0].node == FirstEntry(Nodes(poe), n).value
    decreases |poe|
  {
    assert Nodes(poe)[1..] == Nodes(poe[1..]);
    if EntryOf(poe[0].node, n).None? {
      StackFirst(roots, poe[1..], n);
    }
  }

  lemma ChildKind(roots: seq<Node>, s: Stack, n: Name)
    requires Positive(FirstEntry(DirsOf(s), n))
    ensures Kind(Child(roots, s, n)) == NodeKind(FirstEntry(DirsOf(s), n).value)
  {
    if s.upper.Some? {
      assert DirsOf(s)[0] == s.upper.value && DirsOf(s)[1..] == Nodes(s.lowers);
    } else {
      assert DirsOf(s) == Nodes(s.lowers);
    }
    if UpperEntry(s.upper, n).None? {
      StackFirst(roots, s.lowers, n);
    }
  }

  /** An entry of the merged list has the type of the topmost entry of its name, and if it is visible,
      that of what lookup finds. */
  lemma TypesAreShown(roots: seq<Node>, s: Stack, layers: seq<Listing>, e: CacheEntry, n: Name)
    requires DirsOf(s) != [] && AreListings(layers, DirsOf(s))
    requires e in Merged(layers, s.upper.Some?) && e.name == n
    ensures FirstEntry(DirsOf(s), n).Some? && (e.dtype == DtDir <==> FirstEntry(DirsOf(s), n).value.Dir?)
    ensures e.isWhiteout <==> FirstEntry(DirsOf(s), n) == Some(Whiteout)
    ensures !e.isWhiteout ==> (e.dtype == DtDir <==> Kind(Child(roots, s, n)) == ADir)
  {
    MergedIsTop(layers, s.upper.Some?);
    TopIsFirstEntry(layers, DirsOf(s), s.upper.Some?, n);
    if !e.isWhiteout {
      ChildKind(roots, s, n);
    }
  }

  lemma {:induction false} TopHasName(layers: seq<Listing>, hasUpper: bool, n: string)
    ensures Top(layers, hasUpper, n).Some? ==> Top(layers, hasUpper, n).value.name == n
    decreases |layers|
  {
    if layers != [] {
      var last := |layers| - 1;
      TopHasName(layers[..last], hasUpper, n);
      InListingSound(layers[last], n);
    }
  }

}
