// Reading a merged directory: the entries of all its layers, each name once, as its
// topmost occurrence.

module Readdir {
  import opened Seqs
  import opened Tree
  import opened SearchTree

  /** One entry as a layer's own directory lists it. */
  datatype Listed = Listed(name: CName, dtype: DType, isWhiteout: bool)

  type Listing = seq<Listed>

  predicate Distinct(ls: Listing) {
    forall i, j :: 0 <= i < j < |ls| ==> ls[i].name != ls[j].name
  }

  function InListing(ls: Listing, name: string): Option<Listed> {
    if ls == [] then None else if ls[0].name == name then Some(ls[0]) else InListing(ls[1..], name)
  }

  function InCache(es: seq<CacheEntry>, name: string): Option<CacheEntry> {
    if es == [] then None else if es[0].name == name then Some(es[0]) else InCache(es[1..], name)
  }

  /** The entry the overlay makes of a listed one; only a character device can be a
      whiteout. */
  function NewEntry(l: Listed, isUpper: bool): CacheEntry {
    CacheEntry(l.name, l.dtype, isUpper, l.dtype == DtChr && l.isWhiteout)
  }

  // ------------------------------------------------------------ the list, in order

  /** Entries for names not seen yet go to the end. */
  function AddNew(seen: seq<CacheEntry>, ls: Listing, isUpper: bool): seq<CacheEntry>
    decreases |ls|
  {
    if ls == [] then seen
    else
      AddNew(if InCache(seen, ls[0].name).Some? then seen else seen + [NewEntry(ls[0], isUpper)],
             ls[1..], isUpper)
  }

  /** The entries of all layers but the lowest, in the order first seen. */
  function Above(layers: seq<Listing>, hasUpper: bool): seq<CacheEntry> {
    if layers == [] then []
    else
      var last := |layers| - 1;
      AddNew(Above(layers[..last], hasUpper), layers[last], hasUpper && last == 0)
  }

  function EntryFor(seen: seq<CacheEntry>, l: Listed, isUpper: bool): CacheEntry {
    match InCache(seen, l.name)
    case Some(e) => e
    case None => NewEntry(l, isUpper)
  }

  function Lowest(seen: seq<CacheEntry>, ls: Listing, isUpper: bool): seq<CacheEntry> {
    seq(|ls|, i requires 0 <= i < |ls| => EntryFor(seen, ls[i], isUpper))
  }

  function Minus(es: seq<CacheEntry>, ls: Listing): seq<CacheEntry> {
    if es == [] then []
    else (if InListing(ls, es[0].name).Some? then [] else [es[0]]) + Minus(es[1..], ls)
  }

  /** The names of the lowest layer first, in its order, then the others. */
  function Merged(layers: seq<Listing>, hasUpper: bool): seq<CacheEntry>
    requires layers != []
  {
    var last := |layers| - 1;
    var seen := Above(layers[..last], hasUpper);
    Lowest(seen, layers[last], hasUpper && last == 0) + Minus(seen, layers[last])
  }

  // ---------------------------------------------------------- what an entry carries

  /** The topmost occurrence of a name. */
  function Top(layers: seq<Listing>, hasUpper: bool, name: string): Option<CacheEntry> {
    if layers == [] then None
    else
      var last := |layers| - 1;
      match Top(layers[..last], hasUpper, name)
      case Some(e) => Some(e)
      case None =>
        match InListing(layers[last], name)
        case Some(l) => Some(NewEntry(l, hasUpper && last == 0))
        case None => None
  }

  ghost predicate UniqueNames(es: seq<CacheEntry>) {
    forall i, j :: 0 <= i < j < |es| ==> es[i].name != es[j].name
  }

  lemma {:induction false} InCacheSound(es: seq<CacheEntry>, name: string)
    ensures match InCache(es, name)
            case Some(e) => e in es && e.name == name
            case None => forall e :: e in es ==> e.name != name
    ensures UniqueNames(es) ==> forall e :: e in es && e.name == name ==> InCache(es, name) == Some(e)
  {
    if es != [] {
      InCacheSound(es[1..], name);
      assert es == [es[0]] + es[1..];
      if UniqueNames(es) {
        assert forall e :: e in es[1..] ==> e.name != es[0].name;
      }
    }
  }

  lemma {:induction false} InListingSound(ls: Listing, name: string)
    ensures match InListing(ls, name)
            case Some(l) => l in ls && l.name == name
            case None => forall l :: l in ls ==> l.name != name
    ensures Distinct(ls) ==> forall l :: l in ls && l.name == name ==> InListing(ls, name) == Some(l)
  {
    if ls != [] {
      InListingSound(ls[1..], name);
      assert ls == [ls[0]] + ls[1..];
      if Distinct(ls) {
        assert forall l :: l in ls[1..] ==> l.name != ls[0].name;
      }
    }
  }

  lemma {:induction false} InCacheSnoc(es: seq<CacheEntry>, e: CacheEntry, name: string)
    ensures InCache(es + [e], name)
         == if InCache(es, name).Some? then InCache(es, name)
            else if e.name == name then Some(e) else None
  {
    if es != [] {
      assert (es + [e])[1..] == es[1..] + [e];
      InCacheSnoc(es[1..], e, name);
    }
  }

  lemma {:induction false} AddNewFinds(seen: seq<CacheEntry>, ls: Listing, isUpper: bool, name: string)
    ensures InCache(AddNew(seen, ls, isUpper), name)
         == match InCache(seen, name)
            case Some(e) => Some(e)
            case None =>
              match InListing(ls, name)
              case Some(l) => Some(NewEntry(l, isUpper))
              case None => None
    decreases |ls|
  {
    if ls != [] {
      InCacheSnoc(seen, NewEntry(ls[0], isUpper), name);
      AddNewFinds(if InCache(seen, ls[0].name).Some? then seen else seen + [NewEntry(ls[0], isUpper)],
                  ls[1..], isUpper, name);
    }
  }

  lemma {:induction false} AddNewUnique(seen: seq<CacheEntry>, ls: Listing, isUpper: bool)
    requires UniqueNames(seen)
    ensures UniqueNames(AddNew(seen, ls, isUpper))
    decreases |ls|
  {
    if ls != [] {
      InCacheSound(seen, ls[0].name);
      AddNewUnique(if InCache(seen, ls[0].name).Some? then seen else seen + [NewEntry(ls[0], isUpper)],
                   ls[1..], isUpper);
    }
  }

  lemma {:induction false} AboveIsTop(layers: seq<Listing>, hasUpper: bool, name: string)
    ensures InCache(Above(layers, hasUpper), name) == Top(layers, hasUpper, name)
    ensures UniqueNames(Above(layers, hasUpper))
    decreases |layers|
  {
    if layers != [] {
      var last := |layers| - 1;
      AboveIsTop(layers[..last], hasUpper, name);
      AddNewFinds(Above(layers[..last], hasUpper), layers[last], hasUpper && last == 0, name);
      AddNewUnique(Above(layers[..last], hasUpper), layers[last], hasUpper && last == 0);
    }
  }

  lemma {:induction false} MinusKeeps(es: seq<CacheEntry>, ls: Listing, e: CacheEntry)
    ensures e in Minus(es, ls) <==> e in es && InListing(ls, e.name).None?
    ensures UniqueNames(es) ==> UniqueNames(Minus(es, ls))
  {
    if es != [] {
      MinusKeeps(es[1..], ls, e);
      if UniqueNames(es) {
        forall x | x in Minus(es[1..], ls) ensures x.name != es[0].name {
          MinusKeeps(es[1..], ls, x);
        }
      }
    }
  }

  /** The merged list has each name once, as its topmost occurrence. */
  lemma MergedIsTop(layers: seq<Listing>, hasUpper: bool)
    requires layers != [] && Distinct(layers[|layers| - 1])
    ensures UniqueNames(Merged(layers, hasUpper))
    ensures forall e :: e in Merged(layers, hasUpper) <==> Top(layers, hasUpper, e.name) == Some(e)
  {
    var last := |layers| - 1;
    var low := layers[last];
    var seen := Above(layers[..last], hasUpper);
    var front := Lowest(seen, low, hasUpper && last == 0);
    var back := Minus(seen, low);
    forall i | 0 <= i < |low|
      ensures front[i].name == low[i].name && Top(layers, hasUpper, low[i].name) == Some(front[i])
    {
      AboveIsTop(layers[..last], hasUpper, low[i].name);
      InCacheSound(seen, low[i].name);
      InListingSound(low, low[i].name);
    }
    forall e ensures e in back <==> e in seen && InListing(low, e.name).None? {
      MinusKeeps(seen, low, e);
    }
    AboveIsTop(layers[..last], hasUpper, "");
    MinusKeeps(seen, low, CacheEntry("a", DtReg, false, false));
    forall i, j | 0 <= i < |front| && 0 <= j < |back| ensures front[i].name != back[j].name {
      InListingSound(low, back[j].name);
      assert back[j] in back;
    }
    forall e ensures e in Merged(layers, hasUpper) <==> Top(layers, hasUpper, e.name) == Some(e) {
      AboveIsTop(layers[..last], hasUpper, e.name);
      InCacheSound(seen, e.name);
      InListingSound(low, e.name);
    }
  }

  // ------------------------------------------- the same, said of the layers alone

  predicate Lists(ls: Listing, name: string) {
    exists i :: 0 <= i < |ls| && ls[i].name == name
  }

  /** Entry i of a listing is the first of its name there. */
  predicate FirstIn(ls: Listing, i: int) {
    0 <= i < |ls| && forall j :: 0 <= j < i ==> ls[j].name != ls[i].name
  }

  /** Entry i of layer k is where its name is first seen, from the top. */
  predicate FirstAt(layers: seq<Listing>, k: int, i: int) {
    0 <= k < |layers| && FirstIn(layers[k], i) && forall j :: 0 <= j < k ==> !Lists(layers[j], layers[k][i].name)
  }

  /** What the overlay shows of a listed entry: its type, from which layer it is, and whether it is a
      whiteout, which only a character device can be. */
  predicate IsEntryOf(e: CacheEntry, l: Listed, isUpper: bool) {
    e.name == l.name && e.dtype == l.dtype && e.isUpper == isUpper
    && (e.isWhiteout <==> l.dtype == DtChr && l.isWhiteout)
  }

  ghost predicate IsFirstSeen(layers: seq<Listing>, hasUpper: bool, e: CacheEntry) {
    exists k, i :: FirstAt(layers, k, i) && IsEntryOf(e, layers[k][i], hasUpper && k == 0)
  }

  /** The one name is first seen before the other. */
  ghost predicate SeenBefore(layers: seq<Listing>, a: string, b: string) {
    forall k, i, l, j ::
      (FirstAt(layers, k, i) && FirstAt(layers, l, j) && layers[k][i].name == a && layers[l][j].name == b) ==>
      k < l || (k == l && i < j)
  }

  ghost predicate InOrderSeen(layers: seq<Listing>, es: seq<CacheEntry>) {
    forall x, y :: 0 <= x < y < |es| ==> SeenBefore(layers, es[x].name, es[y].name)
  }

  /** The entries are those first seen from the top, each name once: first the names of the lowest
      layer, in its order, and then the others in the order in which they are first seen. */
  ghost predicate IsMergedList(list: seq<CacheEntry>, layers: seq<Listing>, hasUpper: bool)
    requires layers != []
  {
    var low := layers[|layers| - 1];
    && UniqueNames(list)
    && (forall e :: e in list ==> IsFirstSeen(layers, hasUpper, e))
    && (forall k, name :: 0 <= k < |layers| && Lists(layers[k], name) ==> exists e :: e in list && e.name == name)
    && |list| >= |low| && (forall i :: 0 <= i < |low| ==> list[i].name == low[i].name)
    && InOrderSeen(layers, list[|low|..])
  }

  lemma InListingFirst(ls: Listing, name: string)
    ensures match InListing(ls, name)
            case Some(l) => exists i :: FirstIn(ls, i) && ls[i] == l && l.name == name
            case None => !Lists(ls, name)
  {
    InListingSound(ls, name);
    if InListing(ls, name).Some? {
      FirstOfName(ls, name);
    }
  }

  lemma {:induction false} FirstOfName(ls: Listing, name: string)
    requires InListing(ls, name).Some?
    ensures exists i :: FirstIn(ls, i) && ls[i] == InListing(ls, name).value && ls[i].name == name
  {
    if ls[0].name == name {
      assert FirstIn(ls, 0);
    } else {
      FirstOfName(ls[1..], name);
      var i :| FirstIn(ls[1..], i) && ls[1..][i] == InListing(ls[1..], name).value && ls[1..][i].name == name;
      assert forall j :: 1 <= j < i + 1 ==> ls[j] == ls[1..][j - 1];
      assert FirstIn(ls, i + 1);
    }
  }

  lemma {:induction false} TopIsFirstSeen(layers: seq<Listing>, hasUpper: bool, name: string)
    ensures match Top(layers, hasUpper, name)
            case Some(e) => e.name == name && IsFirstSeen(layers, hasUpper, e)
            case None => forall k :: 0 <= k < |layers| ==> !Lists(layers[k], name)
    decreases |layers|
  {
    if layers != [] {
      var last := |layers| - 1;
      TopIsFirstSeen(layers[..last], hasUpper, name);
      InListingFirst(layers[last], name);
      if Top(layers[..last], hasUpper, name).Some? {
        var e := Top(layers[..last], hasUpper, name).value;
        var k, i :| FirstAt(layers[..last], k, i) && IsEntryOf(e, layers[..last][k][i], hasUpper && k == 0);
        assert FirstAt(layers, k, i);
      } else if InListing(layers[last], name).Some? {
        var i :| FirstIn(layers[last], i) && layers[last][i] == InListing(layers[last], name).value;
        assert forall j :: 0 <= j < last ==> layers[j] == layers[..last][j];
        assert FirstAt(layers, last, i);
      }
    }
  }

  /** New names come after those seen, in the order of the listing. */
  lemma {:induction false} AddNewInOrder(seen: seq<CacheEntry>, ls: Listing, isUpper: bool)
    ensures var es := AddNew(seen, ls, isUpper);
            && seen <= es
            && (forall x :: |seen| <= x < |es| ==> InCache(seen, es[x].name).None?)
            && forall x, y, i, j ::
                 (|seen| <= x < y < |es| && FirstIn(ls, i) && FirstIn(ls, j)
                  && ls[i].name == es[x].name && ls[j].name == es[y].name) ==> i < j
    decreases |ls|
  {
    if ls != [] {
      var known := InCache(seen, ls[0].name).Some?;
      var seen' := if known then seen else seen + [NewEntry(ls[0], isUpper)];
      AddNewInOrder(seen', ls[1..], isUpper);
      var es := AddNew(seen, ls, isUpper);
      forall x | |seen| <= x < |es| ensures InCache(seen, es[x].name).None? {
        if x >= |seen'| && !known {
          InCacheSnoc(seen, NewEntry(ls[0], isUpper), es[x].name);
        } else if !known {
          assert es[x] == seen'[x];
        }
      }
      forall x, y, i, j | |seen| <= x < y < |es| && FirstIn(ls, i) && FirstIn(ls, j)
          && ls[i].name == es[x].name && ls[j].name == es[y].name
        ensures i < j
      {
        NotAgain(seen, ls, isUpper, y, j);
        if x >= |seen'| {
          NotAgain(seen, ls, isUpper, x, i);
          FirstInTail(ls, i);
          FirstInTail(ls, j);
        } else {
          assert es[x] == seen'[x] == NewEntry(ls[0], isUpper);
        }
      }
    }
  }

  lemma FirstInTail(ls: Listing, i: nat)
    requires FirstIn(ls, i) && i > 0
    ensures FirstIn(ls[1..], i - 1) && ls[1..][i - 1] == ls[i]
  {
  }

  /** The head of the listing has been seen or is the first new name. */
  lemma NotAgain(seen: seq<CacheEntry>, ls: Listing, isUpper: bool, y: nat, j: nat)
    requires ls != [] && FirstIn(ls, j)
    requires var known := InCache(seen, ls[0].name).Some?;
             var seen' := if known then seen else seen + [NewEntry(ls[0], isUpper)];
             var es := AddNew(seen', ls[1..], isUpper);
             && |seen'| <= y < |es| && ls[j].name == es[y].name && InCache(seen', es[y].name).None?
    ensures j > 0
  {
    InCacheSnoc(seen, NewEntry(ls[0], isUpper), ls[0].name);
  }

  lemma {:induction false} AboveInOrder(layers: seq<Listing>, hasUpper: bool)
    ensures InOrderSeen(layers, Above(layers, hasUpper))
    decreases |layers|
  {
    if layers != [] {
      var last := |layers| - 1;
      var before, es := Above(layers[..last], hasUpper), Above(layers, hasUpper);
      AboveInOrder(layers[..last], hasUpper);
      AddNewInOrder(before, layers[last], hasUpper && last == 0);
      forall x, y | 0 <= x < y < |es| ensures SeenBefore(layers, es[x].name, es[y].name) {
        forall k, i, l, j | FirstAt(layers, k, i) && FirstAt(layers, l, j)
            && layers[k][i].name == es[x].name && layers[l][j].name == es[y].name
          ensures k < l || (k == l && i < j)
        {
          WhereFirst(layers, hasUpper, x, k, i);
          WhereFirst(layers, hasUpper, y, l, j);
          if y < |before| {
            assert SeenBefore(layers[..last], before[x].name, before[y].name);
          }
        }
      }
    }
  }

  /** What was seen above the last layer is first seen there, and what was not is in the last. */
  lemma WhereFirst(layers: seq<Listing>, hasUpper: bool, x: nat, k: nat, i: nat)
    requires layers != [] && x < |Above(layers, hasUpper)|
    requires FirstAt(layers, k, i) && layers[k][i].name == Above(layers, hasUpper)[x].name
    ensures var before := Above(layers[..|layers| - 1], hasUpper);
            if x < |before| then FirstAt(layers[..|layers| - 1], k, i) && before[x] == Above(layers, hasUpper)[x]
            else k == |layers| - 1
  {
    var last := |layers| - 1;
    var before, name := Above(layers[..last], hasUpper), layers[k][i].name;
    AddNewInOrder(before, layers[last], hasUpper && last == 0);
    AboveIsTop(layers[..last], hasUpper, name);
    TopIsFirstSeen(layers[..last], hasUpper, name);
    InCacheSound(before, name);
    if x < |before| {
      var e := Top(layers[..last], hasUpper, name).value;
      var k', i' :| FirstAt(layers[..last], k', i') && IsEntryOf(e, layers[..last][k'][i'], hasUpper && k' == 0);
      assert Lists(layers[k'], name);
    } else {
      assert k < last ==> Lists(layers[..last][k], name);
    }
  }

  lemma {:induction false} MinusInOrder(layers: seq<Listing>, es: seq<CacheEntry>, ls: Listing)
    requires InOrderSeen(layers, es)
    ensures InOrderSeen(layers, Minus(es, ls))
  {
    if es != [] {
      var rest, less := Minus(es[1..], ls), Minus(es, ls);
      assert InOrderSeen(layers, es[1..]) by {
        assert forall x :: 0 <= x < |es[1..]| ==> es[1..][x] == es[x + 1];
      }
      MinusInOrder(layers, es[1..], ls);
      if less != rest {
        assert less == [es[0]] + rest;
        forall y | 0 < y < |less| ensures SeenBefore(layers, less[0].name, less[y].name) {
          MinusKeeps(es[1..], ls, less[y]);
          var z :| 0 <= z < |es[1..]| && es[1..][z] == less[y];
          assert es[z + 1] == less[y];
        }
      }
    }
  }

  /** The list that reading the layers gives, said without saying how. */
  lemma MergedIsList(layers: seq<Listing>, hasUpper: bool)
    requires layers != [] && Distinct(layers[|layers| - 1])
    ensures IsMergedList(Merged(layers, hasUpper), layers, hasUpper)
  {
    var last := |layers| - 1;
    var low, seen, list := layers[last], Above(layers[..last], hasUpper), Merged(layers, hasUpper);
    MergedIsTop(layers, hasUpper);
    forall e | e in list ensures IsFirstSeen(layers, hasUpper, e) {
      TopIsFirstSeen(layers, hasUpper, e.name);
    }
    forall k, name | 0 <= k < |layers| && Lists(layers[k], name) ensures exists e :: e in list && e.name == name {
      TopIsFirstSeen(layers, hasUpper, name);
      var e := Top(layers, hasUpper, name).value;
      assert e in list;
    }
    forall i | 0 <= i < |low| ensures list[i].name == low[i].name {
      InCacheSound(seen, low[i].name);
    }
    RestInOrder(layers, hasUpper);
    assert list[|low|..] == Minus(seen, low);
  }

  lemma RestInOrder(layers: seq<Listing>, hasUpper: bool)
    requires layers != []
    ensures var last := |layers| - 1;
            InOrderSeen(layers, Minus(Above(layers[..last], hasUpper), layers[last]))
  {
    var last := |layers| - 1;
    var seen := Above(layers[..last], hasUpper);
    AboveInOrder(layers[..last], hasUpper);
    forall x, y | 0 <= x < y < |seen| ensures SeenBefore(layers, seen[x].name, seen[y].name) {
      forall k, i, l, j | FirstAt(layers, k, i) && FirstAt(layers, l, j)
          && layers[k][i].name == seen[x].name && layers[l][j].name == seen[y].name
        ensures k < l || (k == l && i < j)
      {
        SeenAbove(layers, hasUpper, seen[x], k, i);
        SeenAbove(layers, hasUpper, seen[y], l, j);
        assert SeenBefore(layers[..last], seen[x].name, seen[y].name);
      }
    }
    MinusInOrder(layers, seen, layers[last]);
  }

  lemma SeenAbove(layers: seq<Listing>, hasUpper: bool, e: CacheEntry, k: nat, i: nat)
    requires layers != [] && e in Above(layers[..|layers| - 1], hasUpper)
    requires FirstAt(layers, k, i) && layers[k][i].name == e.name
    ensures FirstAt(layers[..|layers| - 1], k, i)
  {
    var last := |layers| - 1;
    AboveIsTop(layers[..last], hasUpper, e.name);
    InCacheSound(Above(layers[..last], hasUpper), e.name);
    TopIsFirstSeen(layers[..last], hasUpper, e.name);
    var top := Top(layers[..last], hasUpper, e.name).value;
    var k', i' :| FirstAt(layers[..last], k', i') && IsEntryOf(top, layers[..last][k'][i'], hasUpper && k' == 0);
    assert Lists(layers[k'], e.name);
  }

  // ------------------------------------------------------------------ the algorithm

  function RemoveName(es: seq<CacheEntry>, name: string): seq<CacheEntry> {
    if es == [] then []
    else (if es[0].name == name then [] else [es[0]]) + RemoveName(es[1..], name)
  }

  lemma {:induction false} InListingSnoc(ls: Listing, l: Listed, name: string)
    ensures InListing(ls + [l], name)
         == if InListing(ls, name).Some? then InListing(ls, name)
            else if l.name == name then Some(l) else None
  {
    if ls != [] {
      assert (ls + [l])[1..] == ls[1..] + [l];
      InListingSnoc(ls[1..], l, name);
    }
  }

  lemma {:induction false} MinusSnoc(es: seq<CacheEntry>, ls: Listing, l: Listed)
    ensures Minus(es, ls + [l]) == RemoveName(Minus(es, ls), l.name)
  {
    if es != [] {
      InListingSnoc(ls, l, es[0].name);
      MinusSnoc(es[1..], ls, l);
      var rest := Minus(es[1..], ls);
      assert ([es[0]] + rest)[1..] == rest && [] + rest == rest;
    }
  }

  lemma LowestSnoc(seen: seq<CacheEntry>, ls: Listing, l: Listed, isUpper: bool)
    ensures Lowest(seen, ls + [l], isUpper) == Lowest(seen, ls, isUpper) + [EntryFor(seen, l, isUpper)]
  {
  }

  lemma MinusHasNoMore(es: seq<CacheEntry>, ls: Listing, name: CName)
    ensures InCache(es, name).None? ==> InCache(Minus(es, ls), name).None?
  {
    InCacheSound(es, name);
    InCacheSound(Minus(es, ls), name);
    if InCache(Minus(es, ls), name).Some? {
      MinusKeeps(es, ls, InCache(Minus(es, ls), name).value);
    }
  }

  lemma {:induction false} MinusNothing(es: seq<CacheEntry>)
    ensures Minus(es, []) == es
  {
    if es != [] {
      MinusNothing(es[1..]);
    }
  }

  lemma {:induction false} RemoveAbsent(es: seq<CacheEntry>, name: string)
    requires InCache(es, name).None?
    ensures RemoveName(es, name) == es
  {
    if es != [] {
      RemoveAbsent(es[1..], name);
    }
  }

  /** What is kept while the layers are read: entries in list order, the section for the
      lowest layer, and the search tree of the layers above it. */
  class ReaddirData {
    var list: seq<CacheEntry>
    var middle: seq<CacheEntry>
    var root: SearchTree
    var isLowest: bool
    var isUpper: bool
    /** The entries found above the lowest layer. */
    ghost var seen: seq<CacheEntry>

    ghost predicate Valid()
      reads this
    {
      && Ordered(root)
      && (forall e :: e in Entries(root) <==> e in seen)
      && UniqueNames(seen)
      && (!isLowest ==> list == seen && middle == [])
    }

    constructor ()
      ensures Valid() && seen == [] && !isLowest
    {
      list, middle, root := [], [], Leaf;
      isLowest, isUpper := false, false;
      seen := [];
    }

    lemma TreeFinds(name: CName)
      requires Valid()
      ensures Holds(root, name) <==> InCache(seen, name).Some?
      ensures forall e :: e in Entries(root) && e.name == name ==> InCache(seen, name) == Some(e)
    {
      InCacheSound(seen, name);
      if InCache(seen, name).Some? {
        assert InCache(seen, name).value in Entries(root);
      }
    }

    method AddRb(l: Listed)
      requires Valid() && !isLowest
      modifies `list, `root, `seen
      ensures Valid()
      ensures list == AddNew(old(list), [l], isUpper)
    {
      TreeFinds(l.name);
      var p := Find(root, l.name);
      if p.None? {
        var e := NewEntry(l, isUpper);
        InCacheSound(seen, l.name);
        InsertKeepsOrder(root, e);
        list := list + [e];
        root := Insert(root, e);
        seen := seen + [e];
      }
    }

    method FillLowest(l: Listed)
      requires Valid() && isLowest
      requires InCache(seen, l.name).None? ==> InCache(list, l.name).None?
      modifies `list, `middle
      ensures Valid()
      ensures middle == old(middle) + [EntryFor(seen, l, isUpper)]
      ensures list == RemoveName(old(list), l.name)
    {
      TreeFinds(l.name);
      var p := Find(root, l.name);
      if p.Some? {
        list := RemoveName(list, l.name);
        middle := middle + [p.value];
      } else {
        RemoveAbsent(list, l.name);
        middle := middle + [NewEntry(l, isUpper)];
      }
    }

    /** Reads a layer that is not the lowest. */
    method ReadAbove(ls: Listing)
      requires Valid() && !isLowest
      modifies `list, `root, `seen
      ensures Valid()
      ensures list == AddNew(old(list), ls, isUpper)
    {
      for i := 0 to |ls|
        invariant Valid()
        invariant AddNew(list, ls[i..], isUpper) == AddNew(old(list), ls, isUpper)
      {
        assert ls[i..][0] == ls[i] && ls[i..][1..] == ls[i + 1..];
        AddRb(ls[i]);
      }
      assert ls[|ls|..] == [];
    }

    /** Reads the lowest layer, and puts its section before the rest of the list. */
    method ReadLowest(ls: Listing)
      requires Valid() && !isLowest
      modifies `list, `middle, `isLowest
      ensures Valid()
      ensures seen == old(seen)
      ensures isLowest && list == Lowest(seen, ls, isUpper) + Minus(seen, ls)
    {
      isLowest := true;
      MinusNothing(seen);
      for i := 0 to |ls|
        invariant Valid() && isLowest
        invariant middle == Lowest(seen, ls[..i], isUpper)
        invariant list == Minus(seen, ls[..i])
      {
        OneMore(ls, i);
        MinusSnoc(seen, ls[..i], ls[i]);
        LowestSnoc(seen, ls[..i], ls[i], isUpper);
        MinusHasNoMore(seen, ls[..i], ls[i].name);
        FillLowest(ls[i]);
      }
      assert ls[..|ls|] == ls;
      list := middle + list;
    }
  }

  /** The layers of a directory are read from the top; the last one is the lowest. */
  method DirReadMerged(layers: seq<Listing>, hasUpper: bool) returns (list: seq<CacheEntry>)
    requires layers != []
    ensures list == Merged(layers, hasUpper)
    ensures Distinct(layers[|layers| - 1]) ==> IsMergedList(list, layers, hasUpper)
  {
    var rdd := new ReaddirData();
    var idx := 0;
    while idx < |layers| - 1
      invariant 0 <= idx < |layers| && fresh(rdd)
      invariant rdd.Valid() && !rdd.isLowest
      invariant rdd.list == Above(layers[..idx], hasUpper)
    {
      rdd.isUpper := hasUpper && idx == 0;
      assert layers[..idx + 1][..idx] == layers[..idx];
      rdd.ReadAbove(layers[idx]);
      idx := idx + 1;
    }
    rdd.isUpper := hasUpper && idx == 0;
    rdd.ReadLowest(layers[idx]);
    if Distinct(layers[|layers| - 1]) {
      MergedIsList(layers, hasUpper);
    }
    return rdd.list;
  }

}
