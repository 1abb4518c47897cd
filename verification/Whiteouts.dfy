// Whiteouts that hide something, and whiteouts that have been left behind: no change of the
// upper tree that an operation makes leaves one behind where there was none.

module Whiteouts {
  import opened Seqs
  import opened Tree
  import opened Frame
  import opened MergedDir
  import opened Changes
  import opened Presence
  import opened Marks

  /** A whiteout that hides nothing. */
  ghost predicate StrayAt(u: Node, roots: seq<Node>, p: Path, n: Name) {
    IsWhiteout(u, p + [n]) && LookupStack(roots, StackAt(u, roots, p).lowers, n, false) == []
  }

  ghost predicate NoStray(u: Node, roots: seq<Node>) {
    forall p: Path, n: Name :: !StrayAt(u, roots, p, n)
  }

  /** The same in the stack of one object. */
  ghost predicate StrayIn(roots: seq<Node>, s: Stack, rest: Path, m: Name) {
    && s.upper.Some? && UpperAt(s.upper.value, rest + [m]) == Some(Whiteout)
    && LookupStack(roots, Descend(roots, s, rest).lowers, m, false) == []
  }

  ghost predicate CleanStack(roots: seq<Node>, s: Stack) {
    forall rest: Path, m: Name :: !StrayIn(roots, s, rest, m)
  }

  /** The upper layer of a mount that has never been used has no whiteouts. */
  lemma NewIsClean(roots: seq<Node>)
    ensures NoStray(Dir(false, None, false, map[]), roots)
  {
    forall p: Path, n: Name ensures !IsWhiteout(Dir(false, None, false, map[]), p + [n]) {
    }
  }

  lemma CleanAt(u: Node, roots: seq<Node>, p: Path)
    requires u.Dir? && NoStray(u, roots) && UpperPresent(u, p)
    ensures CleanStack(roots, StackAt(u, roots, p))
  {
    var s := StackAt(u, roots, p);
    StackAtPresent(u, roots, p);
    forall rest: Path, m: Name ensures !StrayIn(roots, s, rest, m) {
      UpperAtConcat(u, p, rest + [m]);
      StackAtConcat(u, roots, p, rest);
      assert p + (rest + [m]) == (p + rest) + [m];
      assert !StrayAt(u, roots, p + rest, m);
    }
  }

  /** Nothing but an upper directory holds whiteouts. */
  lemma NothingInside(roots: seq<Node>, s: Stack, rest: Path, m: Name)
    requires StrayIn(roots, s, rest, m)
    ensures s.upper.Some? && s.upper.value.Dir? && s.upper.value.children != map[]
  {
  }

  /** Where a whiteout that hides nothing can come from when one entry is changed. */
  lemma PutStray(u: Node, roots: seq<Node>, p: Path, n: Name, v: Option<Node>, q: Path, m: Name)
    requires UpperDir(u, p) && StrayAt(Put(u, p, n, v), roots, q, m)
    ensures var s := Resolve(roots, StackAt(u, roots, p).lowers, n, v);
            if p + [n] <= q then v.Some? && v.value.Dir? && StrayIn(roots, s, q[|p| + 1..], m)
            else if q == p && m == n then
              v == Some(Whiteout) && LookupStack(roots, StackAt(u, roots, p).lowers, n, false) == []
            else StrayAt(u, roots, q, m)
  {
    var u' := Put(u, p, n, v);
    PutUpper(u, p, n, v);
    UpperEntryIsAt(u', p, n);
    PutStackAt(u, roots, p, n, v, q);
    if p + [n] <= q {
      var rest := q[|p| + 1..];
      SplitAfter(p, n, q);
      UpperAtPrefix(u', q, [m]);
      UpperAtPrefix(u', p + [n], rest);
      UpperAtConcat(u', p + [n], rest + [m]);
      assert (p + [n]) + (rest + [m]) == q + [m];
    } else if q == p && m == n {
    } else {
      OtherWhiteout(u, p, n, v, q, m);
    }
  }

  lemma OtherWhiteout(u: Node, p: Path, n: Name, v: Option<Node>, q: Path, m: Name)
    requires UpperDir(u, p) && !(p + [n] <= q) && !(q == p && m == n) && IsWhiteout(Put(u, p, n, v), q + [m])
    ensures IsWhiteout(u, q + [m])
  {
    SnocBelow(p, n, q, m);
    PutOther(u, p, n, v, q + [m]);
    if q + [m] <= p {
      var u', rest := Put(u, p, n, v), p[|q| + 1..];
      PutUpper(u, p, n, v);
      assert p == (q + [m]) + rest;
      UpperAtPrefix(u', q + [m], rest);
      assert rest == [] ==> p == q + [m];
    }
  }

  lemma SnocBelow(p: Path, n: Name, q: Path, m: Name)
    ensures p + [n] <= q + [m] <==> p + [n] <= q || (q == p && m == n)
  {
    if p + [n] <= q + [m] {
      if |p| < |q| {
        assert (q + [m])[..|p| + 1] == q[..|p| + 1];
      } else {
        assert p + [n] == q + [m];
        assert p == (p + [n])[..|p|] && q == (q + [m])[..|q|] && n == (p + [n])[|p|] && m == (q + [m])[|q|];
      }
    }
  }

  /** An entry with nothing inside it that is no whiteout, or one that hides something. */
  lemma PutStaysClean(u: Node, roots: seq<Node>, p: Path, n: Name, v: Option<Node>)
    requires UpperDir(u, p)
    requires v == Some(Whiteout) ==> LookupStack(roots, StackAt(u, roots, p).lowers, n, false) != []
    requires v.Some? && v.value.Dir? ==> v.value.children == map[]
    ensures NoStray(u, roots) ==> NoStray(Put(u, p, n, v), roots)
  {
    forall q: Path, m: Name | NoStray(u, roots) ensures !StrayAt(Put(u, p, n, v), roots, q, m) {
      if StrayAt(Put(u, p, n, v), roots, q, m) {
        PutStray(u, roots, p, n, v, q, m);
        if p + [n] <= q {
          NothingInside(roots, Resolve(roots, StackAt(u, roots, p).lowers, n, v), q[|p| + 1..], m);
        }
      }
    }
  }

  /** A change that does not show, and makes no whiteout. */
  lemma HarmlessStaysClean(u: Node, u': Node, roots: seq<Node>)
    requires LayersOk(u, roots) && Harmless(u, u', roots)
    ensures NoStray(u, roots) ==> NoStray(u', roots)
  {
    forall p: Path, n: Name | NoStray(u, roots) ensures !StrayAt(u', roots, p, n) {
      if IsWhiteout(u', p + [n]) {
        assert IsWhiteout(u, p + [n]) && !StrayAt(u, roots, p, n);
        UpperAtPrefix(u, p, [n]);
        StackAtUpper(u, roots, p);
        assert Alike(StackAt(u', roots, p), StackAt(u, roots, p));
      }
    }
  }

  /** Moving an entry that means the same under its new parent: the one whiteout that may then hide
      nothing is the one left behind. */
  lemma MoveStray(u: Node, roots: seq<Node>, op: Path, on: Name, e: Node, v: Option<Node>, np: Path, nn: Name,
                  q: Path, m: Name)
    requires u.Dir? && UpperDir(u, op) && UpperDir(u, np) && Apart(op + [on], np + [nn]) && NoStray(u, roots)
    requires UpperAt(u, op + [on]) == Some(e) && e != Whiteout && (v == None || v == Some(Whiteout))
    requires Portable(roots, e, StackAt(u, roots, op).lowers, on, StackAt(u, roots, np).lowers, nn)
    requires UpperDir(Put(u, op, on, v), np)
    requires StrayAt(Put(Put(u, op, on, v), np, nn, Some(e)), roots, q, m)
    ensures q == op && m == on && v == Some(Whiteout)
    ensures LookupStack(roots, StackAt(u, roots, op).lowers, on, false) == []
  {
    ApartParents(op, on, np, nn);
    var u1 := Put(u, op, on, v);
    PutStackAt(u, roots, op, on, v, np);
    PutStray(u1, roots, np, nn, Some(e), q, m);
    if np + [nn] <= q {
      EntryIsClean(u, roots, op, on, e);
    } else if !(q == np && m == nn) {
      PutStray(u, roots, op, on, v, q, m);
    }
  }

  lemma EntryIsClean(u: Node, roots: seq<Node>, p: Path, n: Name, e: Node)
    requires u.Dir? && UpperDir(u, p) && NoStray(u, roots) && UpperAt(u, p + [n]) == Some(e) && e != Whiteout
    ensures CleanStack(roots, Resolve(roots, StackAt(u, roots, p).lowers, n, Some(e)))
  {
    CleanAt(u, roots, p + [n]);
    StackAtChild(u, roots, p, n);
    StackAtUpper(u, roots, p);
    UpperEntryIsAt(u, p, n);
  }

  lemma MoveStaysClean(u: Node, roots: seq<Node>, op: Path, on: Name, e: Node, v: Option<Node>, np: Path, nn: Name)
    requires u.Dir? && UpperDir(u, op) && UpperDir(u, np) && Apart(op + [on], np + [nn])
    requires UpperAt(u, op + [on]) == Some(e) && e != Whiteout && (v == None || v == Some(Whiteout))
    requires Portable(roots, e, StackAt(u, roots, op).lowers, on, StackAt(u, roots, np).lowers, nn)
    requires UpperDir(Put(u, op, on, v), np)
    requires v == Some(Whiteout) ==> LookupStack(roots, StackAt(u, roots, op).lowers, on, false) != []
    ensures NoStray(u, roots) ==> NoStray(Put(Put(u, op, on, v), np, nn, Some(e)), roots)
  {
    var u' := Put(Put(u, op, on, v), np, nn, Some(e));
    forall q: Path, m: Name | NoStray(u, roots) ensures !StrayAt(u', roots, q, m) {
      if StrayAt(u', roots, q, m) {
        MoveStray(u, roots, op, on, e, v, np, nn, q, m);
      }
    }
  }

  /** The whiteout left behind is taken away. */
  lemma CleanupStaysClean(u: Node, roots: seq<Node>, op: Path, on: Name, e: Node, np: Path, nn: Name)
    requires u.Dir? && UpperDir(u, op) && UpperDir(u, np) && Apart(op + [on], np + [nn])
    requires UpperAt(u, op + [on]) == Some(e) && e != Whiteout
    requires Portable(roots, e, StackAt(u, roots, op).lowers, on, StackAt(u, roots, np).lowers, nn)
    requires UpperDir(Put(u, op, on, Some(Whiteout)), np)
    requires UpperDir(Put(Put(u, op, on, Some(Whiteout)), np, nn, Some(e)), op)
    ensures NoStray(u, roots) ==>
        NoStray(Put(Put(Put(u, op, on, Some(Whiteout)), np, nn, Some(e)), op, on, None), roots)
  {
    var u2 := Put(Put(u, op, on, Some(Whiteout)), np, nn, Some(e));
    forall q: Path, m: Name | NoStray(u, roots) ensures !StrayAt(Put(u2, op, on, None), roots, q, m) {
      if StrayAt(Put(u2, op, on, None), roots, q, m) {
        PutStray(u2, roots, op, on, None, q, m);
        MoveStray(u, roots, op, on, e, Some(Whiteout), np, nn, q, m);
      }
    }
  }

  lemma SwapStaysClean(u: Node, roots: seq<Node>, op: Path, on: Name, e: Node, np: Path, nn: Name, t: Node)
    requires u.Dir? && Swappable(u, roots, op, on, e, np, nn, t)
    requires e != Whiteout && t != Whiteout && UpperDir(Put(u, op, on, Some(t)), np)
    ensures NoStray(u, roots) ==> NoStray(Put(Put(u, op, on, Some(t)), np, nn, Some(e)), roots)
  {
    ApartParents(op, on, np, nn);
    var u1 := Put(u, op, on, Some(t));
    var u2 := Put(u1, np, nn, Some(e));
    PutStackAt(u, roots, op, on, Some(t), np);
    UpperEntryIsAt(u, op, on);
    UpperEntryIsAt(u, np, nn);
    if NoStray(u, roots) {
      EntryIsClean(u, roots, op, on, e);
      EntryIsClean(u, roots, np, nn, t);
    }
    forall q: Path, m: Name | NoStray(u, roots) ensures !StrayAt(u2, roots, q, m) {
      if StrayAt(u2, roots, q, m) {
        PutStray(u1, roots, np, nn, Some(e), q, m);
        if !(np + [nn] <= q) && !(q == np && m == nn) {
          PutStray(u, roots, op, on, Some(t), q, m);
        }
      }
    }
  }

  /** Where every whiteout hides something, a directory without lower directories that holds an
      entry is not empty. */
  lemma EntriesShow(u: Node, roots: seq<Node>, p: Path)
    requires LayersOk(u, roots) && UpperDir(u, p) && NoStray(u, roots) && StackAt(u, roots, p).lowers == []
    requires UpperAt(u, p).value.children != map[]
    ensures !EmptyDir(u, roots, p)
  {
    var d := UpperAt(u, p).value;
    var m :| m in d.children;
    UpperEntryIsAt(u, p, m);
    assert !StrayAt(u, roots, p, m);
    StackAtPresent(u, roots, p + [m]);
    assert View(u, roots, p + [m]) == NodeKind(d.children[m]) != Absent;
  }
}
