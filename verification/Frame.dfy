// How one change of the upper tree shows in the merged tree.

module Frame {
  import opened Tree

  lemma {:induction false} DescendConcat(roots: seq<Node>, s: Stack, p: Path, q: Path)
    ensures Descend(roots, s, p + q) == Descend(roots, Descend(roots, s, p), q)
    decreases |p|
  {
    if p == [] {
      assert p + q == q;
    } else {
      assert (p + q)[1..] == p[1..] + q;
      DescendConcat(roots, Child(roots, s, p[0]), p[1..], q);
    }
  }

  lemma DescendSnoc(roots: seq<Node>, s: Stack, p: Path, n: Name)
    ensures Descend(roots, s, p + [n]) == Child(roots, Descend(roots, s, p), n)
  {
    DescendConcat(roots, s, p, [n]);
  }

  lemma {:induction false} UpperAtConcat(u: Node, p: Path, q: Path)
    requires UpperAt(u, p).Some?
    ensures UpperAt(u, p + q) == UpperAt(UpperAt(u, p).value, q)
    decreases |p|
  {
    if p == [] {
      assert p + q == q;
    } else {
      assert (p + q)[1..] == p[1..] + q;
      UpperAtConcat(u.children[p[0]], p[1..], q);
    }
  }

  lemma {:induction false} UpperAtPrefix(u: Node, p: Path, q: Path)
    requires UpperAt(u, p + q).Some?
    ensures UpperAt(u, p).Some?
    ensures q != [] ==> UpperDir(u, p)
    decreases |p|
  {
    if p == [] {
      assert p + q == q;
    } else {
      assert (p + q)[1..] == p[1..] + q;
      UpperAtPrefix(u.children[p[0]], p[1..], q);
    }
  }

  lemma UpperStep(u: Node, p: Path)
    requires UpperDir(u, p) && p != []
    ensures EntryOf(u, p[0]).Some? && UpperDir(u.children[p[0]], p[1..]) && u.children[p[0]].Dir?
  {
    var c := u.children[p[0]];
    assert UpperDir(c, p[1..]);
    if |p| > 1 {
      assert EntryOf(c, p[1..][0]).Some?;
    }
  }

  /** A path of upper directories is not hidden by anything. */
  lemma {:induction false} DescendUpper(roots: seq<Node>, s: Stack, u: Node, p: Path)
    requires s.upper == Some(u) && UpperDir(u, p)
    ensures Descend(roots, s, p).upper == UpperAt(u, p)
    decreases |p|
  {
    if p != [] {
      UpperStep(u, p);
      var c := u.children[p[0]];
      assert Child(roots, s, p[0]).upper == Some(c);
      DescendUpper(roots, Child(roots, s, p[0]), c, p[1..]);
    }
  }

  lemma {:induction false} PutUpper(u: Node, p: Path, n: Name, v: Option<Node>)
    requires UpperDir(u, p)
    ensures UpperDir(Put(u, p, n, v), p)
    ensures UpperAt(Put(u, p, n, v), p) == Some(SetEntry(UpperAt(u, p).value, n, v))
    ensures Put(u, p, n, v).Dir?
    decreases |p|
  {
    if p != [] {
      PutUpper(u.children[p[0]], p[1..], n, v);
    }
  }

  /** An upper path that does not go through the changed entry keeps its object; one
      that leads to the changed directory keeps it but for that entry. */
  lemma {:induction false} PutOther(u: Node, p: Path, n: Name, v: Option<Node>, q: Path)
    requires UpperDir(u, p) && !(p + [n] <= q)
    ensures UpperAt(Put(u, p, n, v), q).Some? <==> UpperAt(u, q).Some?
    ensures UpperDir(Put(u, p, n, v), q) <==> UpperDir(u, q)
    ensures !(q <= p) ==> UpperAt(Put(u, p, n, v), q) == UpperAt(u, q)
    decreases |p|
  {
    if p != [] && q != [] && q[0] == p[0] {
      if q[1..] <= p[1..] {
        assert q == [q[0]] + q[1..] && p == [p[0]] + p[1..];
        assert q <= p;
      }
      PutOther(u.children[p[0]], p[1..], n, v, q[1..]);
    }
  }

  lemma PutMarks(u: Node, p: Path, n: Name, v: Option<Node>)
    requires UpperDir(u, p)
    ensures var u' := Put(u, p, n, v);
            u'.Dir? && u'.isOpaque == u.isOpaque && u'.redirect == u.redirect && u'.origin == u.origin
  {
  }

  /** A change further down leaves the lower directories of the entry on the way. */
  lemma PutChild(roots: seq<Node>, s: Stack, u: Node, p: Path, n: Name, v: Option<Node>)
    requires s.upper == Some(u) && UpperDir(u, p) && p != []
    ensures var c := u.children[p[0]];
            var t := Child(roots, s, p[0]);
            && UpperDir(c, p[1..]) && t.upper == Some(c)
            && Child(roots, s.(upper := Some(Put(u, p, n, v))), p[0])
               == t.(upper := Some(Put(c, p[1..], n, v)))
  {
    UpperStep(u, p);
    var c := u.children[p[0]];
    PutMarks(c, p[1..], n, v);
  }

  predicate Unaffected(s: Stack, t: Stack) {
    s.lowers == t.lowers && Kind(s) == Kind(t)
  }

  lemma PutViewHere(roots: seq<Node>, s: Stack, u: Node, n: Name, v: Option<Node>, q: Path)
    requires s.upper == Some(u) && u.Dir? && q != []
    ensures var s' := s.(upper := Some(SetEntry(u, n, v)));
            Descend(roots, s', q) ==
            if q[0] == n then Descend(roots, Resolve(roots, s.lowers, n, v), q[1..]) else Descend(roots, s, q)
  {
    var s' := s.(upper := Some(SetEntry(u, n, v)));
    if q[0] == n {
      assert Child(roots, s', n) == Resolve(roots, s.lowers, n, v);
    } else {
      assert UpperEntry(s'.upper, q[0]) == UpperEntry(s.upper, q[0]);
    }
  }

  lemma OneDeeper(p: Path, n: Name, q: Path)
    requires p != [] && q != [] && q[0] == p[0]
    ensures p + [n] <= q <==> p[1..] + [n] <= q[1..]
    ensures p + [n] <= q ==> q[1..][|p[1..]| + 1..] == q[|p| + 1..]
  {
    assert p + [n] == [p[0]] + (p[1..] + [n]) && q == [q[0]] + q[1..];
  }

  /** The merged tree after a change: below the changed entry everything follows from
      the new entry and the parent's lower directories, which are as before; nowhere
      else does anything change. */
  lemma {:induction false} PutView(roots: seq<Node>, s: Stack, u: Node, p: Path, n: Name, v: Option<Node>, q: Path)
    requires s.upper == Some(u) && UpperDir(u, p)
    ensures var s' := s.(upper := Some(Put(u, p, n, v)));
            if p + [n] <= q then
              Descend(roots, s', q)
              == Descend(roots, Resolve(roots, Descend(roots, s, p).lowers, n, v), q[|p| + 1..])
            else
              Unaffected(Descend(roots, s', q), Descend(roots, s, q))
    decreases |p|
  {
    PutMarks(u, p, n, v);
    var s' := s.(upper := Some(Put(u, p, n, v)));
    if q != [] {
      if p == [] {
        assert p + [n] <= q <==> q[0] == n;
        PutViewHere(roots, s, u, n, v, q);
      } else if q[0] == p[0] {
        PutChild(roots, s, u, p, n, v);
        OneDeeper(p, n, q);
        PutView(roots, Child(roots, s, p[0]), u.children[p[0]], p[1..], n, v, q[1..]);
      } else {
        assert !(p + [n] <= q);
        assert UpperEntry(s'.upper, q[0]) == UpperEntry(s.upper, q[0]);
      }
    }
  }

}
