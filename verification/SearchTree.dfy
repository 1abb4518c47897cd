// The search tree of directory entry names.  Names are compared as the C library's
// strncmp does, over the length of the name searched for.

module SearchTree {
  import opened Tree

  /** A C string of at least one character. */
  type CName = s: string | s != "" && '\0' !in s witness "a"

  datatype DType = DtDir | DtReg | DtChr

  datatype CacheEntry = CacheEntry(name: CName, dtype: DType, isUpper: bool, isWhiteout: bool)

  datatype SearchTree = Leaf | Branch(left: SearchTree, entry: CacheEntry, right: SearchTree)

  // --------------------------------------------------------------- the comparison

  function CharAt(s: string, i: nat): int {
    if i < |s| then s[i] as int else 0
  }

  function StrNCmp(a: string, b: string, n: nat): int {
    if n == 0 then 0
    else if CharAt(a, 0) != CharAt(b, 0) then CharAt(a, 0) - CharAt(b, 0)
    else if a == "" || b == "" then 0
    else StrNCmp(a[1..], b[1..], n - 1)
  }

  datatype Order = Before | Same | After

  function Compare(name: string, other: string): Order {
    var cmp := StrNCmp(name, other, |name|);
    if cmp > 0 then After
    else if cmp < 0 || |name| < |other| then Before
    else Same
  }

  /** Dictionary order. */
  predicate Less(a: string, b: string) {
    b != "" && (a == "" || a[0] < b[0] || (a[0] == b[0] && Less(a[1..], b[1..])))
  }

  lemma {:induction false} CompareIsOrder(a: string, b: string)
    requires '\0' !in a && '\0' !in b
    ensures Compare(a, b) == Same <==> a == b
    ensures Compare(a, b) == Before <==> Less(a, b)
    ensures Compare(a, b) == After <==> Less(b, a)
  {
    if a == "" || b == "" {
      if a != "" { assert a[0] in a; }
    } else if a[0] == b[0] {
      CompareIsOrder(a[1..], b[1..]);
      assert a == [a[0]] + a[1..] && b == [b[0]] + b[1..];
    }
  }

  lemma {:induction false} LessTransitive(a: string, b: string, c: string)
    requires Less(a, b) && Less(b, c)
    ensures Less(a, c)
  {
    if a != "" && a[0] == b[0] == c[0] {
      LessTransitive(a[1..], b[1..], c[1..]);
    }
  }

  // --------------------------------------------------------------------- the tree

  function Entries(t: SearchTree): set<CacheEntry> {
    match t
    case Leaf => {}
    case Branch(l, e, r) => Entries(l) + {e} + Entries(r)
  }

  ghost predicate Ordered(t: SearchTree) {
    match t
    case Leaf => true
    case Branch(l, e, r) =>
      && Ordered(l) && Ordered(r)
      && (forall x :: x in Entries(l) ==> Less(x.name, e.name))
      && (forall x :: x in Entries(r) ==> Less(e.name, x.name))
  }

  function InOrder(t: SearchTree): seq<CacheEntry> {
    match t
    case Leaf => []
    case Branch(l, e, r) => InOrder(l) + [e] + InOrder(r)
  }

  lemma {:induction false} InOrderIsAll(t: SearchTree)
    ensures forall e :: e in InOrder(t) <==> e in Entries(t)
  {
    match t
    case Leaf =>
    case Branch(l, _, r) =>
      InOrderIsAll(l);
      InOrderIsAll(r);
  }

  ghost predicate Sorted(es: seq<CacheEntry>) {
    forall i, j :: 0 <= i < j < |es| ==> Less(es[i].name, es[j].name)
  }

  lemma JoinSorted(left: seq<CacheEntry>, e: CacheEntry, right: seq<CacheEntry>)
    requires Sorted(left) && Sorted(right)
    requires (forall x :: x in left ==> Less(x.name, e.name)) && (forall y :: y in right ==> Less(e.name, y.name))
    ensures Sorted(left + [e] + right)
  {
    var all, k := left + [e] + right, |left|;
    forall i, j | 0 <= i < j < |all| ensures Less(all[i].name, all[j].name) {
      if i < k < j {
        LessTransitive(left[i].name, e.name, right[j - k - 1].name);
      }
    }
  }

  /** An ordered tree holds its names in dictionary order, from left to right. */
  lemma {:induction false} InOrderIsSorted(t: SearchTree)
    requires Ordered(t)
    ensures Sorted(InOrder(t))
  {
    match t
    case Leaf =>
    case Branch(l, e, r) =>
      InOrderIsSorted(l);
      InOrderIsSorted(r);
      InOrderIsAll(l);
      InOrderIsAll(r);
      JoinSorted(InOrder(l), e, InOrder(r));
  }

  ghost predicate Holds(t: SearchTree, name: CName) {
    exists e :: e in Entries(t) && e.name == name
  }

  /** In an ordered tree the entry of a name can only be on the side where the
      comparison points. */
  lemma Side(t: SearchTree, name: CName)
    requires Ordered(t) && t.Branch?
    ensures Compare(name, t.entry.name) == Same ==> name == t.entry.name
    ensures Compare(name, t.entry.name) == Before ==> (Holds(t, name) <==> Holds(t.left, name))
    ensures Compare(name, t.entry.name) == After ==> (Holds(t, name) <==> Holds(t.right, name))
  {
    CompareIsOrder(name, t.entry.name);
    forall x | x in Entries(t.left) ensures Compare(x.name, t.entry.name) == Before {
      CompareIsOrder(x.name, t.entry.name);
    }
    forall x | x in Entries(t.right) ensures Compare(x.name, t.entry.name) == After {
      CompareIsOrder(x.name, t.entry.name);
    }
  }

  method Find(root: SearchTree, name: CName) returns (r: Option<CacheEntry>)
    requires Ordered(root)
    ensures r.None? ==> !Holds(root, name)
    ensures r.Some? ==> r.value in Entries(root) && r.value.name == name
  {
    var node := root;
    while node.Branch?
      invariant Ordered(node) && Entries(node) <= Entries(root)
      invariant Holds(root, name) <==> Holds(node, name)
      decreases node
    {
      Side(node, name);
      match Compare(name, node.entry.name)
      case After => node := node.right;
      case Before => node := node.left;
      case Same => return Some(node.entry);
    }
    return None;
  }

  function Insert(t: SearchTree, e: CacheEntry): SearchTree {
    match t
    case Leaf => Branch(Leaf, e, Leaf)
    case Branch(l, x, r) =>
      match Compare(e.name, x.name)
      case After => Branch(l, x, Insert(r, e))
      case Before => Branch(Insert(l, e), x, r)
      case Same => t
  }

  lemma {:induction false} InsertKeepsOrder(t: SearchTree, e: CacheEntry)
    requires Ordered(t) && !Holds(t, e.name)
    ensures Ordered(Insert(t, e))
    ensures Entries(Insert(t, e)) == Entries(t) + {e}
  {
    if t.Branch? {
      Side(t, e.name);
      CompareIsOrder(e.name, t.entry.name);
      assert t.entry in Entries(t);
      match Compare(e.name, t.entry.name)
      case After => InsertKeepsOrder(t.right, e);
      case Before => InsertKeepsOrder(t.left, e);
      case Same =>
    }
  }

}
