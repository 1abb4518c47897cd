// Looking up a child of an overlay directory: the upper layer first, then the lower
// directories of the parent, continuing from the layer roots when an absolute redirect
// is met.

module Lookup {
  import opened Seqs
  import opened Tree
  import opened RedirectText
  import opened MergedDir
  import opened LayerWalk

  /** What is still to be found, once the entries of poe before i have been dealt with. */
  ghost function StillToFind(roots: seq<Node>, poe: seq<Entry>, i: nat, t: Redirect, isDir: bool): seq<Entry>
    requires i <= |poe|
  {
    match t
    case Rel(n) => LookupStack(roots, poe[i..], n, isDir)
    case Abs(p) => LookupRoots(roots, i, p, isDir)
  }

  lemma {:induction false} RootEntriesAt(roots: seq<Node>, k: nat)
    ensures |RootEntries(roots, k)| == (if k <= |roots| then |roots| - k else 0)
    ensures forall i :: 0 <= i < |roots| - k ==> RootEntries(roots, k)[i] == Entry(k + i + 1, roots[k + i])
    decreases |roots| - k
  {
    if k < |roots| {
      RootEntriesAt(roots, k + 1);
      forall i | 0 <= i < |roots| - k ensures RootEntries(roots, k)[i] == Entry(k + i + 1, roots[k + i]) {
        if i > 0 {
          assert RootEntries(roots, k)[i] == RootEntries(roots, k + 1)[i - 1];
        }
      }
    }
  }

  /** The state in which the loop over poe is entered for index i. */
  ghost predicate Searching(d: LookupData, t: Redirect)
    reads d
  {
    && d.name == Encode(t)
    && (d.redirect.Some? ==> d.redirect == Some(d.name))
    && (t.Abs? ==> d.redirect.Some?)
  }

  predicate ToRoot(f: Found) {
    f.next.Go? && f.next.target.Abs?
  }

  /** Where the search goes on after entry i: in the root stack, below the layer just
      searched, once the name is absolute. */
  function NextPoe(roots: seq<Node>, poe: seq<Entry>, f: Found): seq<Entry> {
    if ToRoot(f) then RootEntries(roots, 0) else poe
  }

  function NextIndex(poe: seq<Entry>, i: nat, f: Found): nat
    requires i < |poe|
  {
    if ToRoot(f) then poe[i].layer else i + 1
  }

  ghost function AfterRound(roots: seq<Node>, poe: seq<Entry>, i: nat, f: Found, isDir: bool): seq<Entry>
    requires i < |poe| && NextIndex(poe, i, f) <= |NextPoe(roots, poe, f)|
  {
    if f.next.Stop? then []
    else StillToFind(roots, NextPoe(roots, poe, f), NextIndex(poe, i, f), f.next.target, isDir)
  }

  lemma {:induction false} LastIsLast(roots: seq<Node>, poe: seq<Entry>, i: nat)
    requires i < |poe| && Increasing(poe, 0, |roots|)
    ensures 0 < poe[i].layer <= |roots| && (poe[i].layer == |roots| ==> i + 1 == |poe|)
    ensures poe == RootEntries(roots, 0) ==> poe[i].layer == i + 1
    ensures |RootEntries(roots, 0)| == |roots|
  {
    assert poe[i] in poe;
    assert i + 1 < |poe| ==> poe[i + 1] in poe;
    RootEntriesAt(roots, 0);
  }

  lemma {:induction false} RoundRelative(roots: seq<Node>, poe: seq<Entry>, i: nat, n: Name, isDir: bool)
    requires i < |poe| && Increasing(poe, 0, |roots|)
    ensures var f := Single(poe[i].node, n, isDir);
            && NextIndex(poe, i, f) <= |NextPoe(roots, poe, f)|
            && StillToFind(roots, poe, i, Rel(n), isDir)
               == Hit(f, poe[i].layer) + AfterRound(roots, poe, i, f, IsDirNow(f, isDir))
            && (ToRoot(f) ==> f.node.Some?)
  {
    LastIsLast(roots, poe, i);
    SplitAt(poe, i);
  }

  lemma {:induction false} RoundAbsolute(roots: seq<Node>, i: nat, p: AbsPath, isDir: bool)
    requires i < |roots| == |RootEntries(roots, 0)|
    ensures var poe := RootEntries(roots, 0);
            var f := Walk(poe[i].node, [], p, isDir, false);
            && NextIndex(poe, i, f) <= |NextPoe(roots, poe, f)|
            && StillToFind(roots, poe, i, Abs(p), isDir)
               == Hit(f, poe[i].layer) + AfterRound(roots, poe, i, f, IsDirNow(f, isDir))
  {
    RootEntriesAt(roots, 0);
    WalkNextIsAbs(roots[i], [], p, isDir, false);
  }

  /** One round: entry i of poe is searched for t. */
  lemma {:induction false} Round(roots: seq<Node>, poe: seq<Entry>, i: nat, t: Redirect, isDir: bool)
    requires i < |poe| && Increasing(poe, 0, |roots|)
    requires t.Abs? ==> poe == RootEntries(roots, 0)
    ensures var f := LayerStep(poe[i].node, t, isDir);
            && NextIndex(poe, i, f) <= |NextPoe(roots, poe, f)|
            && StillToFind(roots, poe, i, t, isDir)
               == Hit(f, poe[i].layer) + AfterRound(roots, poe, i, f, IsDirNow(f, isDir))
            && (ToRoot(f) && f.node.None? ==> t.Abs?)
  {
    LastIsLast(roots, poe, i);
    match t
    case Rel(n) => RoundRelative(roots, poe, i, n, isDir);
    case Abs(p) => RoundAbsolute(roots, i, p, isDir);
  }

  /** A dentry found by lookup, or the negative one. */
  ghost predicate DirStack(roots: seq<Node>, s: Stack) {
    && (s.upper.Some? ==> s.upper.value.Dir?)
    && AllDirs(s.lowers) && Increasing(s.lowers, 0, |roots|)
    && forall r | r in roots :: r.Dir?
  }

  /** Every directory of the merged tree has a stack that can be searched, however redirects
      led to it: this is what every lookup starts from. */
  lemma DirsCanBeSearched(u: Node, roots: seq<Node>, p: Path)
    requires u.Dir? && (forall r | r in roots :: r.Dir?) && View(u, roots, p) == ADir
    ensures DirStack(roots, StackAt(u, roots, p))
  {
    StacksAreOrdered(u, roots, p);
    RootsWellStacked(u, roots, 0);
    DescendWellStacked(roots, Stack(Some(u), RootEntries(roots, 0)), p);
  }

  lemma ChildFits(roots: seq<Node>, s: Stack, n: Name)
    requires Increasing(s.lowers, 0, |roots|)
    ensures |Child(roots, s, n).lowers| <= |roots|
  {
    DescendIncreasing(roots, s, [n]);
    assert Descend(roots, s, [n]) == Child(roots, s, n);
    IncreasingLength(Child(roots, s, n).lowers, 0, |roots|);
  }

  lemma RootStack(roots: seq<Node>)
    requires forall r | r in roots :: r.Dir?
    ensures AllDirs(RootEntries(roots, 0)) && Increasing(RootEntries(roots, 0), 0, |roots|)
  {
    RootEntriesAt(roots, 0);
    RootEntriesIncreasing(roots, 0);
    forall e | e in RootEntries(roots, 0) ensures e.node.Dir? {
      var i :| 0 <= i < |RootEntries(roots, 0)| && RootEntries(roots, 0)[i] == e;
      assert roots[i] in roots;
    }
  }

  function IsAbsolute(redirect: Option<string>): bool {
    redirect.Some? && redirect.value != "" && redirect.value[0] == '/'
  }

  lemma EncodedSlash(t: Redirect)
    ensures Encode(t) != ""
    ensures Encode(t)[0] == '/' <==> t.Abs?
  {
    if t.Abs? {
      JoinStep(t.path);
    }
  }

  ghost function Rest(roots: seq<Node>, poe: seq<Entry>, i: nat, t: Redirect, isDir: bool, stop: bool): seq<Entry>
    requires i <= |poe|
  {
    if stop || i == |poe| then [] else StillToFind(roots, poe, i, t, isDir)
  }

  lemma NothingLeft(roots: seq<Node>, poe: seq<Entry>, t: Redirect, isDir: bool)
    requires t.Abs? ==> poe == RootEntries(roots, 0)
    ensures StillToFind(roots, poe, |poe|, t, isDir) == []
  {
    RootEntriesAt(roots, 0);
  }

  /** What is left after a round, with the round taken. */
  lemma {:induction false} AfterRoundOf(roots: seq<Node>, poe: seq<Entry>, i: nat, t: Redirect, isDir: bool)
    returns (rest: seq<Entry>)
    requires i < |poe| && Increasing(poe, 0, |roots|) && (t.Abs? ==> poe == RootEntries(roots, 0))
    ensures var f := LayerStep(poe[i].node, t, isDir);
            && Rest(roots, poe, i, t, isDir, false) == Hit(f, poe[i].layer) + rest
            && (f.next.Stop? || poe[i].layer == |roots| ==> rest == [])
            && (f.next.Go? && !ToRoot(f) ==> rest == Rest(roots, poe, i + 1, f.next.target, IsDirNow(f, isDir), false))
            && (ToRoot(f) ==>
                  && poe[i].layer <= |RootEntries(roots, 0)|
                  && rest == Rest(roots, RootEntries(roots, 0), poe[i].layer, f.next.target, IsDirNow(f, isDir), false)
                  && (f.node.None? ==> poe == RootEntries(roots, 0)))
  {
    var f := LayerStep(poe[i].node, t, isDir);
    Round(roots, poe, i, t, isDir);
    LastIsLast(roots, poe, i);
    rest := [];
    if f.next.Go? {
      NothingLeft(roots, NextPoe(roots, poe, f), f.next.target, IsDirNow(f, isDir));
      rest := AfterRound(roots, poe, i, f, IsDirNow(f, isDir));
    }
  }

  /** Searches one lower directory. */
  method SearchLayer(dir: Node, d: LookupData, isLast: bool, ghost t: Redirect)
    returns (err: LookupError, here: Option<Node>, ghost t': Redirect)
    requires dir.Dir? && Searching(d, t) && !d.stop
    modifies d
    ensures err.Ok? && d.last == isLast
    ensures var f := LayerStep(dir, t, old(d.isDir));
            && here == f.node && d.isDir == IsDirNow(f, old(d.isDir))
            && (!isLast ==> (d.stop <==> f.next.Stop?))
            && (!isLast && f.next.Go? ==>
                  t' == f.next.target && Searching(d, t') && (IsAbsolute(d.redirect) <==> ToRoot(f)))
  {
    EncodedSlash(t);
    d.last := isLast;
    ghost var f := LayerStep(dir, t, d.isDir);
    err, here := LookupLayer(dir, d, t);
    t' := t;
    if f.next.Go? {
      t' := f.next.target;
      EncodedSlash(t');
    }
  }

  /** The state of the loop over poe; left is what is still to be found. */
  ghost predicate LoopState(roots: seq<Node>, poe: seq<Entry>, i: int, d: LookupData, t: Redirect, left: seq<Entry>)
    reads d
  {
    && 0 <= i <= |poe| && AllDirs(poe) && Increasing(poe, 0, |roots|)
    && (!d.stop && i < |poe| ==> Searching(d, t) && (t.Abs? ==> poe == RootEntries(roots, 0)))
    && left == Rest(roots, poe, i, t, d.isDir, d.stop)
  }

  /** One round: what entry i answers, and where the search goes on. */
  method SearchNext(roots: seq<Node>, roe: seq<Entry>, poe: seq<Entry>, i: nat, d: LookupData, ghost t: Redirect,
                    ghost left: seq<Entry>)
    returns (here: Option<Node>, poe': seq<Entry>, i': nat, ghost t': Redirect, ghost left': seq<Entry>)
    requires roe == RootEntries(roots, 0) && AllDirs(roe) && Increasing(roe, 0, |roots|)
    requires LoopState(roots, poe, i, d, t, left) && !d.stop && i < |poe|
    modifies d
    ensures LoopState(roots, poe', i', d, t', left')
    ensures left == (if here.Some? then [Entry(poe[i].layer, here.value)] else []) + left'
    ensures (poe' == poe && i' == i + 1) || (poe != roe && poe' == roe)
  {
    var lower := poe[i];
    assert lower in poe;
    ghost var f := LayerStep(lower.node, t, d.isDir);
    left' := AfterRoundOf(roots, poe, i, t, d.isDir);
    LastIsLast(roots, poe, i);
    var err;
    err, here, t' := SearchLayer(lower.node, d, lower.layer == |roots|, t);
    if here.Some? && !d.stop && IsAbsolute(d.redirect) && poe != roe {
      // The search goes on in the roots, from this layer on.
      poe', i' := roe, lower.layer - 1;
      i' := i' + 1;
    } else {
      poe', i' := poe, i + 1;
    }
    RestIs(roots, poe, i, poe', i', f, t', d.isDir, d.stop, left');
  }

  /** Where the search goes on, the rest of what is to be found is still to be found. */
  lemma RestIs(roots: seq<Node>, poe: seq<Entry>, i: nat, poe': seq<Entry>, i': nat, f: Found, t': Redirect,
               isDir: bool, stop: bool, left: seq<Entry>)
    requires i < |poe| && Increasing(poe, 0, |roots|) && i' <= |poe'| && 0 < poe[i].layer <= |roots|
    requires if poe[i].layer == |roots| then left == [] && i' == |poe'|
             else (stop <==> f.next.Stop?) && (f.next.Go? ==> t' == f.next.target)
    requires f.next.Stop? ==> left == []
    requires f.next.Go? && !ToRoot(f) ==> left == Rest(roots, poe, i + 1, f.next.target, isDir, false)
    requires ToRoot(f) ==>
        && poe[i].layer <= |RootEntries(roots, 0)|
        && left == Rest(roots, RootEntries(roots, 0), poe[i].layer, f.next.target, isDir, false)
    requires poe[i].layer < |roots| && !stop ==>
        if ToRoot(f) && poe' != poe then poe' == RootEntries(roots, 0) && i' == poe[i].layer
        else poe' == poe && i' == i + 1 && (ToRoot(f) ==> poe == RootEntries(roots, 0))
    ensures left == Rest(roots, poe', i', t', isDir, stop)
  {
    LastIsLast(roots, poe, i);
  }

  lemma Append(total: seq<Entry>, sofar: seq<Entry>, hit: seq<Entry>, rest: seq<Entry>)
    requires total == sofar + (hit + rest)
    ensures total == (sofar + hit) + rest
  {
  }

  /** The lower part of the lookup.  The stack has one slot per lower layer. */
  method LookupLowers(roots: seq<Node>, start: seq<Entry>, d: LookupData, ghost t0: Redirect, ghost total: seq<Entry>)
    returns (found: seq<Entry>)
    requires forall r | r in roots :: r.Dir?
    requires LoopState(roots, start, 0, d, t0, total) && |total| <= |roots|
    modifies d
    ensures found == total
  {
    var roe := RootEntries(roots, 0);
    RootStack(roots);
    var poe := start;
    var stack := new Entry[|roots|];
    var i: nat, ctr: nat := 0, 0;
    ghost var t, left, sofar: seq<Entry> := t0, total, [];
    while !d.stop && i < |poe|
      invariant ctr <= |roots| && LoopState(roots, poe, i, d, t, left)
      invariant stack[..ctr] == sofar && total == sofar + left
      decreases if poe == roe then 0 else 1, |poe| - i
    {
      var layer := poe[i].layer;
      var here;
      ghost var before := left;
      here, poe, i, t, left := SearchNext(roots, roe, poe, i, d, t, left);
      if here.Some? {
        Append(total, sofar, [Entry(layer, here.value)], left);
        stack[ctr] := Entry(layer, here.value);
        ctr := ctr + 1;
        sofar := sofar + [Entry(layer, here.value)];
      } else {
        assert before == left;
      }
    }
    assert left == [];
    found := stack[..ctr];
  }

  /** Finds the stack of the child: what the specification says, without an error. */
  method OvlLookup(roots: seq<Node>, parent: Stack, n: Name) returns (oe: Stack)
    requires DirStack(roots, parent)
    ensures oe == Child(roots, parent, n)
  {
    var d := new LookupData(n);
    var upperdentry := None;
    var poe := parent.lowers;
    ghost var t: Redirect := Rel(n);
    EncodedSlash(t);
    ChildFits(roots, parent, n);
    RootStack(roots);
    if parent.upper.Some? {
      ghost var f := Single(parent.upper.value, n, false);
      var err;
      err, upperdentry := LookupLayer(parent.upper.value, d, t);
      if f.next.Go? {
        t := f.next.target;
        EncodedSlash(t);
      }
      if IsAbsolute(d.redirect) {
        poe := RootEntries(roots, 0);
      }
    }
    assert !d.stop ==> StillToFind(roots, poe, 0, t, d.isDir) == Child(roots, parent, n).lowers by {
      assert parent.lowers[0..] == parent.lowers;
    }
    if !d.stop {
      NothingLeft(roots, poe, t, d.isDir);
    }
    var found := LookupLowers(roots, poe, d, t, if d.stop then [] else Child(roots, parent, n).lowers);
    oe := Stack(upperdentry, found);
  }

}
