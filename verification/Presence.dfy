// Which paths have an upper object, and how copy-up makes them have one.

module Presence {
  import opened Seqs
  import opened Tree
  import opened Frame
  import opened Changes

  predicate UpperPresent(u: Node, p: Path) {
    UpperAt(u, p).Some? && UpperAt(u, p) != Some(Whiteout)
  }

  /** Upper objects stay. */
  ghost predicate Grows(u: Node, u': Node) {
    forall q: Path :: UpperPresent(u, q) ==> UpperPresent(u', q)
  }

  lemma {:induction false} DescendPresent(roots: seq<Node>, s: Stack, p: Path)
    ensures s.upper.None? ==> Descend(roots, s, p).upper.None?
    ensures s.upper.Some? && s.upper != Some(Whiteout) ==>
              Descend(roots, s, p).upper
              == if UpperPresent(s.upper.value, p) then UpperAt(s.upper.value, p) else None
    decreases |p|
  {
    if p != [] {
      DescendPresent(roots, Child(roots, s, p[0]), p[1..]);
      if s.upper.Some? && EntryOf(s.upper.value, p[0]) == Some(Whiteout) && |p| > 1 {
        assert EntryOf(Whiteout, p[1..][0]).None?;
      }
    }
  }

  lemma StackAtPresent(u: Node, roots: seq<Node>, p: Path)
    requires u.Dir?
    ensures StackAt(u, roots, p).upper == if UpperPresent(u, p) then UpperAt(u, p) else None
  {
    DescendPresent(roots, Stack(Some(u), RootEntries(roots, 0)), p);
  }

  lemma PresentDir(u: Node, roots: seq<Node>, p: Path)
    requires u.Dir? && UpperPresent(u, p) && View(u, roots, p) == ADir
    ensures UpperDir(u, p)
  {
    StackAtPresent(u, roots, p);
  }

  lemma UpperEntryIsAt(u: Node, p: Path, n: Name)
    requires UpperDir(u, p)
    ensures UpperEntryAt(u, p, n) == UpperAt(u, p + [n])
  {
    UpperAtConcat(u, p, [n]);
  }

  lemma PutOtherPresent(u: Node, p: Path, n: Name, v: Option<Node>, q: Path)
    requires UpperDir(u, p) && !(p + [n] <= q) && UpperPresent(u, q)
    ensures UpperPresent(Put(u, p, n, v), q)
  {
    PutOther(u, p, n, v, q);
    if q <= p {
      PutUpper(u, p, n, v);
      var u' := Put(u, p, n, v);
      var tail := p[|q|..];
      assert p == q + tail;
      UpperAtPrefix(u', q, tail);
      if tail == [] {
        assert q == p;
      }
    }
  }

  lemma PutUnderPresent(u: Node, p: Path, n: Name, c: Node, rest: Path)
    requires UpperDir(u, p) && c != Whiteout
    requires UpperPresent(u, p + [n]) && UpperPresent(u, (p + [n]) + rest)
    requires UpperAt(u, p + [n]).value.Dir? && c.Dir? && c.children == UpperAt(u, p + [n]).value.children
    ensures UpperPresent(Put(u, p, n, Some(c)), (p + [n]) + rest)
  {
    var u' := Put(u, p, n, Some(c));
    PutUpper(u, p, n, Some(c));
    UpperEntryIsAt(u', p, n);
    UpperAtConcat(u, p + [n], rest);
    UpperAtConcat(u', p + [n], rest);
  }

  predicate Replaces(u: Node, p: Path, c: Node) {
    || !UpperPresent(u, p)
    || (UpperAt(u, p).value.Dir? && c.Dir? && c.children == UpperAt(u, p).value.children)
  }

  lemma PutGrowsAt(u: Node, p: Path, n: Name, c: Node, q: Path)
    requires UpperDir(u, p) && c != Whiteout && Replaces(u, p + [n], c)
    requires UpperAt(Put(u, p, n, Some(c)), p + [n]) == Some(c)
    requires UpperPresent(u, q)
    ensures UpperPresent(Put(u, p, n, Some(c)), q)
  {
    if p + [n] <= q {
      var rest := q[|p| + 1..];
      SplitAfter(p, n, q);
      UpperAtPrefix(u, p + [n], rest);
      if rest == [] {
        assert q == p + [n];
      } else {
        PutUnderPresent(u, p, n, c, rest);
      }
    } else {
      PutOtherPresent(u, p, n, Some(c), q);
    }
  }

  /** A new entry that has upper objects wherever the old one had. */
  lemma PutGrows(u: Node, p: Path, n: Name, c: Node)
    requires UpperDir(u, p) && c != Whiteout && Replaces(u, p + [n], c)
    ensures Grows(u, Put(u, p, n, Some(c)))
    ensures UpperAt(Put(u, p, n, Some(c)), p + [n]) == Some(c)
  {
    PutUpper(u, p, n, Some(c));
    UpperEntryIsAt(Put(u, p, n, Some(c)), p, n);
    forall q: Path | UpperPresent(u, q) ensures UpperPresent(Put(u, p, n, Some(c)), q) {
      PutGrowsAt(u, p, n, c, q);
    }
  }

  // ------------------------------------------------------------------ whiteouts

  predicate IsWhiteout(u: Node, p: Path) {
    UpperAt(u, p) == Some(Whiteout)
  }

  ghost predicate SameWhiteouts(u: Node, u': Node) {
    forall q: Path :: IsWhiteout(u', q) <==> IsWhiteout(u, q)
  }

  lemma PutKeepsWhiteout(u: Node, p: Path, n: Name, c: Node, q: Path)
    requires UpperDir(u, p) && c != Whiteout
    requires if UpperAt(u, p + [n]).Some? then UpperAt(u, p + [n]).value.Dir? && Replaces(u, p + [n], c)
             else c.Dir? ==> c.children == map[]
    requires UpperAt(Put(u, p, n, Some(c)), p + [n]) == Some(c)
    ensures IsWhiteout(Put(u, p, n, Some(c)), q) <==> IsWhiteout(u, q)
  {
    var u' := Put(u, p, n, Some(c));
    if p + [n] <= q {
      var rest := q[|p| + 1..];
      SplitAfter(p, n, q);
      UpperAtConcat(u', p + [n], rest);
      if UpperAt(u, p + [n]).Some? {
        UpperAtConcat(u, p + [n], rest);
      } else if UpperAt(u, q).Some? {
        UpperAtPrefix(u, p + [n], rest);
      }
    } else {
      PutOther(u, p, n, Some(c), q);
      if q <= p {
        assert p == q + p[|q|..];
        UpperAtPrefix(u, q, p[|q|..]);
        assert p[|q|..] == [] ==> q == p;
      }
    }
  }

  // ---------------------------------------------------------------------- depth

  /** How many leading names of the path have an upper object. */
  function Depth(u: Node, p: Path): nat
    decreases |p|
  {
    if p == [] then 0
    else
      match EntryOf(u, p[0])
      case Some(c) => if c == Whiteout then 0 else 1 + Depth(c, p[1..])
      case None => 0
  }

  lemma {:induction false} DepthIs(u: Node, p: Path, k: nat)
    requires u.Dir? && k <= |p|
    ensures Depth(u, p) <= |p|
    ensures UpperPresent(u, p[..k]) <==> k <= Depth(u, p)
    decreases |p|
  {
    if p != [] && EntryOf(u, p[0]).Some? && k > 0 {
      var c := u.children[p[0]];
      assert p[..k][1..] == p[1..][..k - 1];
      if c.Dir? {
        DepthIs(c, p[1..], k - 1);
      } else {
        assert Depth(c, p[1..]) == 0;
        assert UpperAt(u, p[..k]) == UpperAt(c, p[1..][..k - 1]);
        if k > 1 {
          assert EntryOf(c, p[1..][..k - 1][0]).None?;
        }
      }
    } else if p != [] && EntryOf(u, p[0]).Some? {
      DepthBounded(u.children[p[0]], p[1..]);
    }
  }

  lemma DepthBounded(u: Node, p: Path)
    ensures Depth(u, p) <= |p|
    decreases |p|
  {
  }

}
