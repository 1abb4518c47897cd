// The marks put on an upper directory before it is moved: a redirect to its lower
// directories, or an opaque mark.  Neither shows where the directory still is, and
// either makes it mean the same where it is going.

module Marks {
  import opened Tree
  import opened Frame
  import opened Compose
  import opened Changes
  import opened Presence

  /** Has lower directories merged below it, or is lower only. */
  predicate TypeMerge(s: Stack) {
    if s.upper.Some? then s.upper.value.Dir? && s.lowers != [] else |s.lowers| > 1
  }

  predicate TypeMergeOrLower(s: Stack) {
    TypeMerge(s) || s.upper.None?
  }

  ghost predicate Harmless(u: Node, u': Node, roots: seq<Node>) {
    SameTree(u, u', roots) && Grows(u, u') && SameWhiteouts(u, u') && LayersOk(u', roots)
  }

  /** Changing the marks of an upper directory so that the lower directories found below
      it stay the same. */
  lemma MarkIsHarmless(u: Node, roots: seq<Node>, p: Path, n: Name, d: Node)
    requires LayersOk(u, roots) && UpperDir(u, p) && UpperPresent(u, p + [n])
    requires var e := UpperAt(u, p + [n]).value; e.Dir? && d.Dir? && d.children == e.children
    requires var poe := StackAt(u, roots, p).lowers;
             Resolve(roots, poe, n, Some(d)).lowers == StackAt(u, roots, p + [n]).lowers
    ensures Harmless(u, Put(u, p, n, Some(d)), roots)
    ensures UpperAt(Put(u, p, n, Some(d)), p + [n]) == Some(d)
    ensures forall q: Path :: Apart(p + [n], q) ==> UpperAt(Put(u, p, n, Some(d)), q) == UpperAt(u, q)
  {
    var poe := StackAt(u, roots, p).lowers;
    var e := UpperAt(u, p + [n]).value;
    UpperEntryIsAt(u, p, n);
    StackAtChild(u, roots, p, n);
    StackAtUpper(u, roots, p);
    forall rest: Path
      ensures Alike(Below(u, roots, p, n, Some(d), rest), Below(u, roots, p, n, UpperEntryAt(u, p, n), rest))
    {
      MarksDoNotShow(roots, Resolve(roots, poe, n, Some(d)), Resolve(roots, poe, n, Some(e)), rest);
    }
    PutSameTree(u, roots, p, n, Some(d));
    PutGrows(u, p, n, d);
    forall q: Path ensures IsWhiteout(Put(u, p, n, Some(d)), q) <==> IsWhiteout(u, q) {
      PutKeepsWhiteout(u, p, n, d, q);
    }
    PutMarks(u, p, n, Some(d));
    forall q: Path | Apart(p + [n], q) ensures UpperAt(Put(u, p, n, Some(d)), q) == UpperAt(u, q) {
      PutApart(u, p, n, Some(d), q);
    }
  }

  lemma PutApart(u: Node, p: Path, n: Name, v: Option<Node>, q: Path)
    requires UpperDir(u, p) && Apart(p + [n], q)
    ensures UpperAt(Put(u, p, n, v), q) == UpperAt(u, q)
  {
    PutOther(u, p, n, v, q);
  }

  /** The redirect for a merged directory, relative or absolute, finds its lower
      directories. */
  lemma RedirectKeepsLowers(u: Node, roots: seq<Node>, p: Path, n: Name, r: Redirect)
    requires UpperDir(u, p) && UpperDir(u, p + [n]) && StackAt(u, roots, p + [n]).lowers != []
    requires var e := UpperAt(u, p + [n]).value;
             r == Abs(LowerPath(u, p + [n])) || (e.redirect == None && r == Rel(n))
    ensures var e := UpperAt(u, p + [n]).value;
            var poe := StackAt(u, roots, p).lowers;
            && !e.isOpaque
            && Resolve(roots, poe, n, Some(e.(redirect := Some(r)))).lowers == StackAt(u, roots, p + [n]).lowers
  {
    UpperEntryIsAt(u, p, n);
    StackAtChild(u, roots, p, n);
    StackAtUpper(u, roots, p);
    LowerPathFindsStack(u, roots, p + [n]);
  }

  /** What makes the entry mean the same under a new parent. */
  ghost predicate ReadyToMove(u: Node, roots: seq<Node>, op: Path, on: Name, np: Path)
    requires UpperDir(u, op) && UpperDir(u, np) && UpperPresent(u, op + [on])
  {
    forall nn: Name ::
      Portable(roots, UpperAt(u, op + [on]).value, StackAt(u, roots, op).lowers, on,
               StackAt(u, roots, np).lowers, nn)
  }

  lemma WhenReady(u: Node, roots: seq<Node>, op: Path, on: Name, np: Path)
    requires UpperDir(u, op) && UpperDir(u, np) && UpperPresent(u, op + [on])
    requires var e := UpperAt(u, op + [on]).value;
             e.Dir? && !e.isOpaque ==>
               || (e.redirect.Some? && (e.redirect.value.Abs? || op == np))
               || (StackAt(u, roots, np).lowers == [] && StackAt(u, roots, op + [on]).lowers == [])
    ensures ReadyToMove(u, roots, op, on, np)
  {
    var e := UpperAt(u, op + [on]).value;
    UpperEntryIsAt(u, op, on);
    StackAtChild(u, roots, op, on);
    StackAtUpper(u, roots, op);
    forall nn: Name
      ensures Portable(roots, e, StackAt(u, roots, op).lowers, on, StackAt(u, roots, np).lowers, nn)
    {
      WhenPortable(roots, e, StackAt(u, roots, op).lowers, on, StackAt(u, roots, np).lowers, nn);
    }
  }

  /** The parents' lower directories are all a harmless change can disturb. */
  lemma HarmlessLowers(u: Node, u': Node, roots: seq<Node>, p: Path)
    requires SameTree(u, u', roots) && View(u, roots, p) == ADir
    ensures StackAt(u', roots, p).lowers == StackAt(u, roots, p).lowers
  {
  }

  lemma SameTreeSameView(u: Node, u': Node, roots: seq<Node>)
    requires SameTree(u, u', roots)
    ensures SameView(u, u', roots)
  {
    forall q: Path ensures View(u', roots, q) == View(u, roots, q) {
      assert Alike(StackAt(u', roots, q), StackAt(u, roots, q));
    }
  }

  lemma HarmlessTwice(u: Node, u1: Node, u2: Node, roots: seq<Node>)
    requires Harmless(u, u1, roots) && Harmless(u1, u2, roots)
    ensures Harmless(u, u2, roots)
  {
    forall q: Path ensures Alike(StackAt(u2, roots, q), StackAt(u, roots, q)) {
      assert Alike(StackAt(u1, roots, q), StackAt(u, roots, q));
      assert Alike(StackAt(u2, roots, q), StackAt(u1, roots, q));
    }
    forall q: Path ensures IsWhiteout(u2, q) <==> IsWhiteout(u, q) {
      assert IsWhiteout(u1, q) <==> IsWhiteout(u, q);
    }
  }

}
