// Versions tell the truth: a directory whose version has not changed shows the names it
// showed, wherever it has been moved.

module Versions {
  import opened Tree
  import opened Changes
  import opened Inodes

  /** The directory that was at p shows the same names at p'. */
  ghost predicate SameNamesAt(u: Node, u': Node, roots: seq<Node>, p: Path, p': Path) {
    forall m: Name :: View(u', roots, p' + [m]) != Absent <==> View(u, roots, p + [m]) != Absent
  }

  /** The directory is still one, its inode has only gone on, and if its version is the same
      so are its names. */
  ghost predicate ToldAt(u: Node, i: Inodes, u': Node, i': Inodes, roots: seq<Node>, p: Path, p': Path) {
    && View(u', roots, p') == ADir && GoesOn(i(p), i'(p'), false)
    && (i'(p').version == i(p).version ==> SameNamesAt(u, u', roots, p, p'))
  }

  /** So it is for every directory listed as a merged one that is still there. */
  ghost predicate Told(u: Node, i: Inodes, u': Node, i': Inodes, roots: seq<Node>, c: Change) {
    forall p: Path :: View(u, roots, p) == ADir && i(p).whiteouts && Where(c, p).Some? ==>
      ToldAt(u, i, u', i', roots, p, Where(c, p).value)
  }

  lemma ToldTwice(u: Node, i: Inodes, u1: Node, i1: Inodes, u2: Node, i2: Inodes, roots: seq<Node>,
                  p: Path, p1: Path, p2: Path)
    requires ToldAt(u, i, u1, i1, roots, p, p1) && ToldAt(u1, i1, u2, i2, roots, p1, p2)
    ensures ToldAt(u, i, u2, i2, roots, p, p2)
  {
    if i2(p2).version == i(p).version {
      forall m: Name ensures View(u2, roots, p2 + [m]) != Absent <==> View(u, roots, p + [m]) != Absent {
        assert View(u1, roots, p1 + [m]) != Absent <==> View(u, roots, p + [m]) != Absent;
      }
    }
  }

  /** Of the names of a directory outside, only one of the parent's can be at or below p + [n]. */
  lemma OnlyAtParent(p: Path, n: Name, q: Path, m: Name)
    requires p + [n] <= q + [m] && !(p + [n] <= q)
    ensures q == p && m == n
  {
    assert |p + [n]| == |q + [m]|;
    assert q == (q + [m])[..|q|] && p == (p + [n])[..|p|];
    assert (q + [m])[|q|] == (p + [n])[|p|];
  }

  /** A change at one entry, whose parent is noted. */
  lemma EntryTells(u: Node, i: Inodes, u': Node, i': Inodes, roots: seq<Node>, p: Path, n: Name)
    requires forall q: Path :: !(p + [n] <= q) ==> View(u', roots, q) == View(u, roots, q)
    requires Noted(i, i', Gone(p + [n]), {p})
    ensures Told(u, i, u', i', roots, Gone(p + [n]))
  {
    var c := Gone(p + [n]);
    forall q: Path | View(u, roots, q) == ADir && i(q).whiteouts && Where(c, q).Some?
      ensures ToldAt(u, i, u', i', roots, q, q)
    {
      assert GoesOn(i(q), i'(Where(c, q).value), q in {p});
      if q != p {
        forall m: Name ensures View(u', roots, q + [m]) != Absent <==> View(u, roots, q + [m]) != Absent {
          if p + [n] <= q + [m] {
            OnlyAtParent(p, n, q, m);
          }
        }
      }
    }
  }

  /** A change that does not show. */
  lemma NothingTells(u: Node, i: Inodes, u': Node, i': Inodes, roots: seq<Node>)
    requires SameView(u, u', roots) && Noted(i, i', Stay, {})
    ensures Told(u, i, u', i', roots, Stay)
  {
    forall q: Path | View(u, roots, q) == ADir && i(q).whiteouts
      ensures ToldAt(u, i, u', i', roots, q, q)
    {
      assert GoesOn(i(q), i'(Where(Stay, q).value), false);
    }
  }

  lemma CreateTells(u: Node, i: Inodes, u': Node, i': Inodes, roots: seq<Node>, p: Path, n: Name, obj: Obj)
    requires Shows(u', roots, PlainCreate(TreeOf(u, roots), p + [n], obj)) && Noted(i, i', Gone(p + [n]), {p})
    ensures Told(u, i, u', i', roots, Gone(p + [n]))
  {
    forall q: Path | !(p + [n] <= q) ensures View(u', roots, q) == View(u, roots, q) {
      assert View(u', roots, q) == PlainCreate(TreeOf(u, roots), p + [n], obj)(q);
    }
    EntryTells(u, i, u', i', roots, p, n);
  }

  lemma RemoveTells(u: Node, i: Inodes, u': Node, i': Inodes, roots: seq<Node>, p: Path, n: Name)
    requires Shows(u', roots, PlainRemove(TreeOf(u, roots), p + [n])) && Noted(i, i', Stay, {p})
    ensures Told(u, i, u', i', roots, Gone(p + [n]))
  {
    forall q: Path | !(p + [n] <= q) ensures View(u', roots, q) == View(u, roots, q) {
      assert View(u', roots, q) == PlainRemove(TreeOf(u, roots), p + [n])(q);
    }
    NotedThenGone(i, i', {p}, p + [n]);
    EntryTells(u, i, u', i', roots, p, n);
  }

  /** What a rename or an exchange makes of one path. */
  function PlainMoved(u: Node, roots: seq<Node>, c: Change, q: Path): Obj
    requires c.Moves? || c.Swaps?
  {
    if c.dst <= q then View(u, roots, c.src + q[|c.dst|..])
    else if c.src <= q then (if c.Moves? then Absent else View(u, roots, c.dst + q[|c.src|..]))
    else View(u, roots, q)
  }

  ghost predicate AsMoved(u: Node, u': Node, roots: seq<Node>, c: Change) {
    (c.Moves? || c.Swaps?) && forall q: Path :: View(u', roots, q) == PlainMoved(u, roots, c, q)
  }

  /** Below a moved directory everything has moved with it. */
  lemma MovedAlong(u: Node, roots: seq<Node>, c: Change, from: Path, to: Path, p: Path, x: Path)
    requires (c.Moves? || c.Swaps?) && !(c.src <= c.dst) && !(c.dst <= c.src)
    requires (from, to) == (c.src, c.dst) || (c.Swaps? && (from, to) == (c.dst, c.src))
    requires from <= p
    ensures PlainMoved(u, roots, c, (to + p[|from|..]) + x) == View(u, roots, p + x)
  {
    var q := (to + p[|from|..]) + x;
    assert to <= q && q[|to|..] == p[|from|..] + x;
    assert from + (p[|from|..] + x) == p + x;
    if from == c.dst && c.dst <= q {
      NotBoth(c.src, c.dst, q);
    }
  }

  lemma MoveTells(u: Node, i: Inodes, u': Node, i': Inodes, roots: seq<Node>, op: Path, on: Name, np: Path, nn: Name,
                  c: Change)
    requires c == Moves(op + [on], np + [nn]) || c == Swaps(op + [on], np + [nn])
    requires Apart(op + [on], np + [nn]) && Noted(i, i', c, {op, np})
    requires AsMoved(u, u', roots, c)
    ensures Told(u, i, u', i', roots, c)
  {
    forall p: Path | View(u, roots, p) == ADir && i(p).whiteouts && Where(c, p).Some?
      ensures ToldAt(u, i, u', i', roots, p, Where(c, p).value)
    {
      var p' := Where(c, p).value;
      assert GoesOn(i(p), i'(p'), p in {op, np});
      if c.src <= p {
        MovedTells(u, u', roots, c, c.src, c.dst, p);
      } else if c.dst <= p {
        MovedTells(u, u', roots, c, c.dst, c.src, p);
      } else {
        StaysPut(u, u', roots, op, on, np, nn, c, p);
      }
    }
  }

  /** A directory that is not moved has its names if it is not one of the parents. */
  lemma StaysPut(u: Node, u': Node, roots: seq<Node>, op: Path, on: Name, np: Path, nn: Name, c: Change, p: Path)
    requires c == Moves(op + [on], np + [nn]) || c == Swaps(op + [on], np + [nn])
    requires AsMoved(u, u', roots, c) && !(c.src <= p) && !(c.dst <= p)
    ensures View(u', roots, p) == View(u, roots, p)
    ensures p != op && p != np ==> SameNamesAt(u, u', roots, p, p)
  {
    assert View(u', roots, p) == PlainMoved(u, roots, c, p);
    if p != op && p != np {
      forall m: Name ensures View(u', roots, p + [m]) != Absent <==> View(u, roots, p + [m]) != Absent {
        assert View(u', roots, p + [m]) == PlainMoved(u, roots, c, p + [m]);
        if op + [on] <= p + [m] {
          OnlyAtParent(op, on, p, m);
        }
        if np + [nn] <= p + [m] {
          OnlyAtParent(np, nn, p, m);
        }
      }
    }
  }

  lemma MovedView(u: Node, u': Node, roots: seq<Node>, c: Change, from: Path, to: Path, p: Path, x: Path)
    requires (c.Moves? || c.Swaps?) && !(c.src <= c.dst) && !(c.dst <= c.src)
    requires (from, to) == (c.src, c.dst) || (c.Swaps? && (from, to) == (c.dst, c.src))
    requires from <= p && AsMoved(u, u', roots, c)
    ensures View(u', roots, (to + p[|from|..]) + x) == View(u, roots, p + x)
  {
    assert View(u', roots, (to + p[|from|..]) + x) == PlainMoved(u, roots, c, (to + p[|from|..]) + x);
    MovedAlong(u, roots, c, from, to, p, x);
  }

  lemma MovedTells(u: Node, u': Node, roots: seq<Node>, c: Change, from: Path, to: Path, p: Path)
    requires (c.Moves? || c.Swaps?) && !(c.src <= c.dst) && !(c.dst <= c.src)
    requires (from, to) == (c.src, c.dst) || (c.Swaps? && (from, to) == (c.dst, c.src))
    requires from <= p && AsMoved(u, u', roots, c)
    ensures View(u', roots, to + p[|from|..]) == View(u, roots, p)
    ensures SameNamesAt(u, u', roots, p, to + p[|from|..])
  {
    var p' := to + p[|from|..];
    assert View(u', roots, p') == View(u, roots, p) by {
      MovedView(u, u', roots, c, from, to, p, []);
      assert p' + [] == p' && p + [] == p;
    }
    forall m: Name ensures View(u', roots, p' + [m]) == View(u, roots, p + [m]) {
      MovedView(u, u', roots, c, from, to, p, [m]);
    }
  }
}
