// Whether a merged directory is empty, and which whiteouts its upper part holds.

module EmptyCheck {
  import opened Seqs
  import opened Tree
  import opened SearchTree
  import opened Readdir
  import opened MergedDir

  function TypeOf(c: Node): DType {
    match c
    case Dir(_, _, _, _) => DtDir
    case File(_) => DtReg
    case Whiteout => DtChr
  }

  /** What the underlying filesystem returns when a directory is read, in an order of its
      own choosing. */
  method ListDir(d: Node) returns (ls: Listing)
    requires d.Dir?
    ensures IsListing(ls, d)
  {
    ls := [Listed(".", DtDir, false), Listed("..", DtDir, false)];
    var todo := d.children.Keys;
    while todo != {}
      invariant todo <= d.children.Keys
      invariant Distinct(ls)
      invariant forall l :: l in ls && !IsDot(l.name) ==>
                  && IsComponent(l.name) && EntryOf(d, l.name).Some?
                  && ListedAs(l, EntryOf(d, l.name).value) && l.name !in todo
      invariant forall n: Name :: n in d.children && n !in todo ==> exists l :: l in ls && l.name == n
      decreases |todo|
    {
      var n: Name :| n in todo;
      var c := d.children[n];
      ghost var before := ls;
      ls := ls + [Listed(n, TypeOf(c), c == Whiteout)];
      assert ls[|before|].name == n;
      assert forall l :: l in before ==> l in ls;
      todo := todo - {n};
    }
  }

  method ListAll(ds: seq<Node>) returns (layers: seq<Listing>)
    requires forall d | d in ds :: d.Dir?
    ensures AreListings(layers, ds)
  {
    layers := [];
    for i := 0 to |ds|
      invariant AreListings(layers, ds[..i])
    {
      var ls := ListDir(ds[i]);
      layers := layers + [ls];
    }
    assert ds[..|ds|] == ds;
  }

  predicate CanGo(e: CacheEntry) {
    e.isWhiteout || IsDot(e.name)
  }

  /** The upper whiteouts of a list, in order. */
  function UpperWhiteouts(es: seq<CacheEntry>): seq<CacheEntry> {
    if es == [] then []
    else (if es[0].isWhiteout && es[0].isUpper then [es[0]] else []) + UpperWhiteouts(es[1..])
  }

  lemma {:induction false} UpperWhiteoutsAre(es: seq<CacheEntry>, e: CacheEntry)
    ensures e in UpperWhiteouts(es) <==> e in es && e.isWhiteout && e.isUpper
  {
    if es != [] {
      UpperWhiteoutsAre(es[1..], e);
      assert es == [es[0]] + es[1..];
    }
  }

  lemma OneFurther(es: seq<CacheEntry>, i: nat, list: seq<CacheEntry>)
    requires i < |es|
    ensures list + UpperWhiteouts(es[i..])
         == (if es[i].isWhiteout && es[i].isUpper then list + [es[i]] else list) + UpperWhiteouts(es[i + 1..])
  {
    SplitAt(es, i);
    Regroup(list, [es[i]], UpperWhiteouts(es[i + 1..]));
  }

  /** Goes through the merged list and deletes what need not be cleared away when the
      directory goes; stops at the first entry that makes it non-empty. */
  method Sieve(es: seq<CacheEntry>) returns (empty: bool, list: seq<CacheEntry>)
    ensures empty <==> forall e :: e in es ==> CanGo(e)
    ensures empty ==> list == UpperWhiteouts(es)
  {
    list := [];
    for i := 0 to |es|
      invariant forall j :: 0 <= j < i ==> CanGo(es[j])
      invariant list + UpperWhiteouts(es[i..]) == UpperWhiteouts(es)
    {
      var p := es[i];
      OneFurther(es, i, list);
      if p.isWhiteout {
        if p.isUpper {
          list := list + [p];
        }
      } else if !IsDot(p.name) {
        assert p in es && !CanGo(p);
        return false, list;
      }
    }
    assert es[|es|..] == [];
    return true, list;
  }

  lemma {:induction false} TopUpper(layers: seq<Listing>, hasUpper: bool, name: string)
    requires layers != []
    ensures var top := Top(layers, hasUpper, name);
            && (top.Some? && top.value.isUpper ==> hasUpper)
            && (hasUpper && InListing(layers[0], name).Some? ==>
                  top == Some(NewEntry(InListing(layers[0], name).value, true)))
            && (hasUpper && InListing(layers[0], name).None? ==> top.Some? ==> !top.value.isUpper)
    decreases |layers|
  {
    if |layers| > 1 {
      TopUpper(layers[..|layers| - 1], hasUpper, name);
    } else {
      assert layers[..0] == [];
    }
  }

  lemma {:induction false} TopIsName(layers: seq<Listing>, ds: seq<Node>, hasUpper: bool, name: string)
    requires AreListings(layers, ds) && Top(layers, hasUpper, name).Some?
    ensures IsDot(name) || IsComponent(name)
    decreases |layers|
  {
    var last := |layers| - 1;
    if Top(layers[..last], hasUpper, name).Some? {
      TopIsName(layers[..last], ds[..last], hasUpper, name);
    } else {
      InListingSound(layers[last], name);
    }
  }

  /** What the check finds in the merged list, said of the stack. */
  lemma EmptyIffAllCanGo(roots: seq<Node>, s: Stack, layers: seq<Listing>)
    requires DirsOf(s) != [] && AreListings(layers, DirsOf(s))
    ensures (forall e :: e in Merged(layers, s.upper.Some?) ==> CanGo(e))
       <==> (forall m: Name :: Kind(Child(roots, s, m)) == Absent)
  {
    var merged := Merged(layers, s.upper.Some?);
    MergedIsTop(layers, s.upper.Some?);
    forall m: Name ensures Visible(merged, m) <==> Kind(Child(roots, s, m)) != Absent {
      VisibleIffLookup(roots, s, layers, m);
    }
    forall e | e in merged && !CanGo(e) ensures exists m: Name :: Visible(merged, m) {
      TopIsName(layers, DirsOf(s), s.upper.Some?, e.name);
      var m: Name := e.name;
      assert Visible(merged, m);
    }
  }

  lemma UpperWhiteoutsListed(s: Stack, layers: seq<Listing>, m: Name)
    requires DirsOf(s) != [] && AreListings(layers, DirsOf(s))
    ensures var list := UpperWhiteouts(Merged(layers, s.upper.Some?));
            (exists e :: e in list && e.name == m) <==> UpperEntry(s.upper, m) == Some(Whiteout)
  {
    var merged := Merged(layers, s.upper.Some?);
    var list := UpperWhiteouts(merged);
    MergedIsTop(layers, s.upper.Some?);
    TopUpper(layers, s.upper.Some?, m);
    TopHasName(layers, s.upper.Some?, m);
    forall e ensures e in list <==> e in merged && e.isWhiteout && e.isUpper {
      UpperWhiteoutsAre(merged, e);
    }
    if s.upper.Some? {
      ListingFinds(layers[0], s.upper.value, m);
      var top := Top(layers, true, m);
      if UpperEntry(s.upper, m) == Some(Whiteout) {
        assert top.value in merged;
      }
    }
  }

  /** The directory with this stack has no visible entries iff the check passes; it then
      lists the whiteouts to be cleared from the upper directory. */
  method CheckEmptyDir(roots: seq<Node>, s: Stack) returns (empty: bool, list: seq<CacheEntry>)
    requires Kind(s) == ADir && WellStacked(s)
    ensures empty <==> forall m: Name :: Kind(Child(roots, s, m)) == Absent
    ensures empty ==> forall m: Name ::
              (exists e :: e in list && e.name == m) <==> UpperEntry(s.upper, m) == Some(Whiteout)
    ensures list != [] && empty ==> s.upper.Some?
  {
    var ds := DirsOf(s);
    assert forall d | d in ds :: d.Dir?;
    var layers := ListAll(ds);
    var hasUpper := s.upper.Some?;
    var merged := DirReadMerged(layers, hasUpper);
    empty, list := Sieve(merged);
    EmptyIffAllCanGo(roots, s, layers);
    forall m: Name
      ensures empty ==> ((exists e :: e in list && e.name == m) <==> UpperEntry(s.upper, m) == Some(Whiteout))
    {
      UpperWhiteoutsListed(s, layers, m);
    }
    if list != [] && empty {
      UpperWhiteoutsAre(merged, list[0]);
      MergedIsTop(layers, hasUpper);
      TopUpper(layers, hasUpper, list[0].name);
    }
  }

}
