// Whole runs of operations: whatever is done and refused on the way, the merged tree is
// what the operations that took effect make of an ordinary tree, unless a creation has been
// undone where a whiteout hid something; and versions tell which directories have changed.

module Runs {
  import opened Tree
  import opened Changes
  import opened Whiteouts
  import opened Inodes
  import opened Versions
  import opened Namespace

  /** Of a creation, instantiates tells whether the overlay inode of the new object can be set
      up, and undoes whether otherwise the object can be taken away again; indexed tells whether
      the object has to be copied up for the index. */
  datatype Op =
    | OpCreate(p: Path, n: Name, obj: Obj, instantiates: bool, undoes: bool)
    | OpRemove(p: Path, n: Name, indexed: bool)
    | OpRename(op: Path, on: Name, np: Path, nn: Name, flags: RenameFlags, indexed: bool)

  /** What is checked of an operation before any filesystem sees it. */
  predicate Legal(u: Node, roots: seq<Node>, o: Op) {
    match o
    case OpCreate(p, n, obj, _, _) =>
      obj != Absent && View(u, roots, p) == ADir && View(u, roots, p + [n]) == Absent
    case OpRemove(p, n, _) => View(u, roots, p + [n]) != Absent
    case OpRename(op, on, np, nn, flags, _) =>
      var src, dst := View(u, roots, op + [on]), View(u, roots, np + [nn]);
      && src != Absent && View(u, roots, np) == ADir
      && (flags.noReplace ==> dst == Absent && !flags.exchange)
      && (if flags.exchange then dst != Absent else dst != Absent ==> (src == ADir <==> dst == ADir))
  }

  /** A directory that is removed or replaced is empty. */
  ghost predicate EmptyTarget(u: Node, roots: seq<Node>, o: Op) {
    match o
    case OpCreate(_, _, _, _, _) => true
    case OpRemove(p, n, _) => View(u, roots, p + [n]) == ADir ==> EmptyDir(u, roots, p + [n])
    case OpRename(_, _, np, nn, flags, _) =>
      !flags.exchange && View(u, roots, np + [nn]) == ADir ==> EmptyDir(u, roots, np + [nn])
  }

  /** The creation is over a whiteout that hides something. */
  ghost predicate OverCovered(u: Node, roots: seq<Node>, o: Op) {
    o.OpCreate? && Overlay.Covered(u, roots, o.p, o.n)
  }

  /** The operation was done, or its new object could not be taken away again. */
  predicate TookEffect(o: Op, err: Errno) {
    err.Ok? || (o.OpCreate? && err.EInst? && !o.undoes)
  }

  function PlainStep(t: PlainTree, o: Op): PlainTree {
    match o
    case OpCreate(p, n, obj, _, _) => PlainCreate(t, p + [n], obj)
    case OpRemove(p, n, _) => PlainRemove(t, p + [n])
    case OpRename(op, on, np, nn, flags, _) =>
      if flags.exchange then PlainExchange(t, op + [on], np + [nn])
      else PlainRename(t, op + [on], np + [nn])
  }

  /** How an operation that ended like this has moved the objects of the tree. */
  function ChangeOf(o: Op, err: Errno): Change {
    match o
    case OpCreate(p, n, _, _, _) => if err.Ok? || err.EInst? then Gone(p + [n]) else Stay
    case OpRemove(p, n, _) => if err.Ok? then Gone(p + [n]) else Stay
    case OpRename(op, on, np, nn, flags, _) =>
      if err.Ok? then Overlay.RenameChange(op, on, np, nn, flags) else Stay
  }

  lemma StepOfSame(u: Node, u': Node, roots: seq<Node>, t: PlainTree, o: Op)
    requires Shows(u, roots, t) && Shows(u', roots, PlainStep(TreeOf(u, roots), o))
    ensures Shows(u', roots, PlainStep(t, o))
  {
    forall q: Path ensures View(u', roots, q) == PlainStep(t, o)(q) {
      SameTreesStep(TreeOf(u, roots), t, o, q);
    }
  }

  /** The same step on trees that are the same everywhere. */
  lemma SameTreesStep(t1: PlainTree, t2: PlainTree, o: Op, q: Path)
    requires forall p: Path :: t1(p) == t2(p)
    ensures PlainStep(t1, o)(q) == PlainStep(t2, o)(q)
  {
    assert t1(q) == t2(q);
    if o.OpRename? {
      var src, dst := o.op + [o.on], o.np + [o.nn];
      if dst <= q {
        assert t1(src + q[|dst|..]) == t2(src + q[|dst|..]);
      }
      if src <= q {
        assert t1(dst + q[|src|..]) == t2(dst + q[|src|..]);
      }
    }
  }

  /** A rename, said path by path. */
  lemma RenameMoves(u: Node, u': Node, roots: seq<Node>, op: Path, on: Name, np: Path, nn: Name, flags: RenameFlags)
    requires Shows(u', roots, PlainStep(TreeOf(u, roots), OpRename(op, on, np, nn, flags, false)))
    ensures forall q: Path ::
        View(u', roots, q) == PlainMoved(u, roots, Overlay.RenameChange(op, on, np, nn, flags), q)
  {
    forall q: Path
      ensures View(u', roots, q) == PlainMoved(u, roots, Overlay.RenameChange(op, on, np, nn, flags), q)
    {
      assert View(u', roots, q) == PlainStep(TreeOf(u, roots), OpRename(op, on, np, nn, flags, false))(q);
    }
  }

  method StepCreate(fs: Overlay, o: Op) returns (err: Errno)
    requires fs.Valid() && o.OpCreate? && Legal(fs.upper, fs.roots, o)
    modifies fs`upper, fs`inodes
    ensures fs.Valid()
    ensures fs.reliable && NoStray(old(fs.upper), fs.roots) ==> NoStray(fs.upper, fs.roots)
    ensures TookEffect(o, err) ==> Shows(fs.upper, fs.roots, PlainStep(TreeOf(old(fs.upper), fs.roots), o))
    ensures !TookEffect(o, err) ==>
        (SameView(old(fs.upper), fs.upper, fs.roots) <==> !(err.EInst? && OverCovered(old(fs.upper), fs.roots, o)))
    ensures err.EInst? ==> !o.instantiates
    ensures fs.reliable && o.instantiates ==> err.Ok?
    ensures Told(old(fs.upper), old(fs.inodes), fs.upper, fs.inodes, fs.roots, ChangeOf(o, err))
  {
    ghost var u, i := fs.upper, fs.inodes;
    err := fs.Create(o.p, o.n, o.obj, o.instantiates, o.undoes);
    if err.Ok? {
      CreateTells(u, i, fs.upper, fs.inodes, fs.roots, o.p, o.n, o.obj);
    } else if err.EInst? {
      EntryTells(u, i, fs.upper, fs.inodes, fs.roots, o.p, o.n);
    } else {
      KeptIsNoted(i, fs.inodes);
      NothingTells(u, i, fs.upper, fs.inodes, fs.roots);
    }
  }

  method StepRemove(fs: Overlay, o: Op) returns (err: Errno)
    requires fs.Valid() && o.OpRemove? && Legal(fs.upper, fs.roots, o)
    modifies fs`upper, fs`inodes
    ensures fs.Valid()
    ensures fs.reliable && NoStray(old(fs.upper), fs.roots) ==> NoStray(fs.upper, fs.roots)
    ensures err.Ok? ==> Shows(fs.upper, fs.roots, PlainStep(TreeOf(old(fs.upper), fs.roots), o))
    ensures err.Ok? ==> EmptyTarget(old(fs.upper), fs.roots, o)
    ensures !err.Ok? ==> SameView(old(fs.upper), fs.upper, fs.roots)
    ensures fs.reliable && !err.Ok? ==> fs.StaysFor(old(fs.upper), o.p + [o.n])
    ensures fs.reliable && NoStray(old(fs.upper), fs.roots) ==> (err.Ok? <==> EmptyTarget(old(fs.upper), fs.roots, o))
    ensures Told(old(fs.upper), old(fs.inodes), fs.upper, fs.inodes, fs.roots, ChangeOf(o, err))
  {
    ghost var u, i := fs.upper, fs.inodes;
    err := fs.Remove(o.p, o.n, View(fs.upper, fs.roots, o.p + [o.n]) == ADir, o.indexed);
    if err.Ok? {
      RemoveTells(u, i, fs.upper, fs.inodes, fs.roots, o.p, o.n);
    } else {
      NothingTells(u, i, fs.upper, fs.inodes, fs.roots);
    }
  }

  method StepRename(fs: Overlay, o: Op) returns (err: Errno)
    requires fs.Valid() && o.OpRename? && Legal(fs.upper, fs.roots, o)
    modifies fs`upper, fs`inodes
    ensures fs.Valid()
    ensures fs.reliable && NoStray(old(fs.upper), fs.roots) ==> NoStray(fs.upper, fs.roots)
    ensures err.Ok? ==> Shows(fs.upper, fs.roots, PlainStep(TreeOf(old(fs.upper), fs.roots), o))
    ensures err.Ok? ==> EmptyTarget(old(fs.upper), fs.roots, o)
    ensures !err.Ok? ==> SameView(old(fs.upper), fs.upper, fs.roots)
    ensures fs.reliable && !err.Ok? && !o.flags.whiteout ==>
        fs.Refused(old(fs.upper), o.op, o.on, o.np, o.nn, o.flags.exchange, err)
    ensures Told(old(fs.upper), old(fs.inodes), fs.upper, fs.inodes, fs.roots, ChangeOf(o, err))
  {
    ghost var u, i := fs.upper, fs.inodes;
    err := fs.Rename(o.op, o.on, o.np, o.nn, o.flags, o.indexed);
    if err.Ok? {
      RenameMoves(u, fs.upper, fs.roots, o.op, o.on, o.np, o.nn, o.flags);
      MoveTells(u, i, fs.upper, fs.inodes, fs.roots, o.op, o.on, o.np, o.nn, ChangeOf(o, err));
    } else {
      KeptIsNoted(i, fs.inodes);
      NothingTells(u, i, fs.upper, fs.inodes, fs.roots);
    }
  }

  /** Why a legal operation fails when no step on the upper filesystem does. */
  ghost predicate HasReason(fs: Overlay, u: Node, o: Op, err: Errno) {
    match o
    case OpCreate(_, _, _, instantiates, _) => !instantiates
    case OpRemove(p, n, _) => fs.StaysFor(u, p + [n])
    case OpRename(op, on, np, nn, flags, _) => flags.whiteout || fs.Refused(u, op, on, np, nn, flags.exchange, err)
  }

  /** What one operation does, done or refused. */
  ghost predicate StepIs(roots: seq<Node>, u: Node, i: Inodes, o: Op, err: Errno, u': Node, i': Inodes) {
    && (TookEffect(o, err) ==> Legal(u, roots, o) && EmptyTarget(u, roots, o))
    && (TookEffect(o, err) ==> Shows(u', roots, PlainStep(TreeOf(u, roots), o)))
    && (!TookEffect(o, err) ==> (SameView(u, u', roots) <==> !(err.EInst? && OverCovered(u, roots, o))))
    && Told(u, i, u', i', roots, ChangeOf(o, err))
  }

  /** An operation with how it ended and the state it found. */
  datatype Event = Event(upper: Node, inodes: Inodes, op: Op, err: Errno)

  /** On a reliable mount an operation fails only if it is not legal or for a reason of its own. */
  ghost predicate FailsForAReason(fs: Overlay, e: Event) {
    fs.reliable && !e.err.Ok? ==> !Legal(e.upper, fs.roots, e.op) || HasReason(fs, e.upper, e.op, e.err)
  }

  /** A removal fails if and only if it is of a directory that is not empty. */
  ghost predicate RemovesIfEmpty(roots: seq<Node>, e: Event) {
    e.op.OpRemove? && Legal(e.upper, roots, e.op) ==> (e.err.Ok? <==> EmptyTarget(e.upper, roots, e.op))
  }

  method Step(fs: Overlay, o: Op) returns (err: Errno)
    requires fs.Valid()
    modifies fs`upper, fs`inodes
    ensures fs.Valid()
    ensures StepIs(fs.roots, old(fs.upper), old(fs.inodes), o, err, fs.upper, fs.inodes)
    ensures FailsForAReason(fs, Event(old(fs.upper), old(fs.inodes), o, err))
    ensures fs.reliable && NoStray(old(fs.upper), fs.roots) ==>
        NoStray(fs.upper, fs.roots) && RemovesIfEmpty(fs.roots, Event(old(fs.upper), old(fs.inodes), o, err))
  {
    if !Legal(fs.upper, fs.roots, o) {
      KeptIsNoted(fs.inodes, fs.inodes);
      NothingTells(fs.upper, fs.inodes, fs.upper, fs.inodes, fs.roots);
      return EInval;
    }
    match o {
      case OpCreate(_, _, _, _, _) => err := StepCreate(fs, o);
      case OpRemove(_, _, _) => err := StepRemove(fs, o);
      case OpRename(_, _, _, _, _, _) => err := StepRename(fs, o);
    }
  }

  /** The events lead from one state to the other. */
  ghost predicate Leads(roots: seq<Node>, u: Node, i: Inodes, events: seq<Event>, u': Node, i': Inodes) {
    if events == [] then u' == u && i' == i
    else
      var last := |events| - 1;
      var e := events[last];
      Leads(roots, u, i, events[..last], e.upper, e.inodes) && StepIs(roots, e.upper, e.inodes, e.op, e.err, u', i')
  }

  /** The ordinary tree after the operations that took effect. */
  function PlainRun(t: PlainTree, events: seq<Event>): PlainTree {
    if events == [] then t
    else
      var last := |events| - 1;
      var before := PlainRun(t, events[..last]);
      if TookEffect(events[last].op, events[last].err) then PlainStep(before, events[last].op) else before
  }

  /** No creation has been undone over something that a whiteout hid. */
  ghost predicate NothingUncovered(roots: seq<Node>, events: seq<Event>) {
    forall e :: e in events ==> TookEffect(e.op, e.err) || !(e.err.EInst? && OverCovered(e.upper, roots, e.op))
  }

  /** A run shows what the operations that took effect make of an ordinary tree. */
  lemma {:induction false} RunShows(roots: seq<Node>, u: Node, i: Inodes, events: seq<Event>, u': Node, i': Inodes)
    requires Leads(roots, u, i, events, u', i') && NothingUncovered(roots, events)
    ensures Shows(u', roots, PlainRun(TreeOf(u, roots), events))
  {
    if events == [] {
    } else {
      var last := |events| - 1;
      var e := events[last];
      RunShows(roots, u, i, events[..last], e.upper, e.inodes);
      var t := PlainRun(TreeOf(u, roots), events[..last]);
      if TookEffect(e.op, e.err) {
        StepOfSame(e.upper, u', roots, t, e.op);
      } else {
        assert e in events;
        forall q: Path ensures View(u', roots, q) == t(q) {
          assert View(u', roots, q) == View(e.upper, roots, q);
        }
      }
    }
  }

  /** Where a directory is after a run, if it still is. */
  function WhereAll(events: seq<Event>, p: Path): Option<Path> {
    if events == [] then Some(p)
    else
      var last := |events| - 1;
      match WhereAll(events[..last], p)
      case None => None
      case Some(q) => Where(ChangeOf(events[last].op, events[last].err), q)
  }

  /** A merged directory that is still there after a run shows other names only if its version
      has grown. */
  lemma {:induction false} RunTells(roots: seq<Node>, u: Node, i: Inodes, events: seq<Event>, u': Node, i': Inodes,
                                    p: Path)
    requires Leads(roots, u, i, events, u', i')
    requires View(u, roots, p) == ADir && i(p).whiteouts && WhereAll(events, p).Some?
    ensures ToldAt(u, i, u', i', roots, p, WhereAll(events, p).value)
  {
    if events == [] {
    } else {
      var last := |events| - 1;
      var e := events[last];
      RunTells(roots, u, i, events[..last], e.upper, e.inodes, p);
      var q := WhereAll(events[..last], p).value;
      ToldTwice(u, i, e.upper, e.inodes, u', i', roots, p, q, WhereAll(events, p).value);
    }
  }

  /** These operations were given and this is how they ended. */
  predicate Reports(events: seq<Event>, ops: seq<Op>, errs: seq<Errno>) {
    && |events| == |ops| == |errs|
    && forall k :: 0 <= k < |ops| ==> events[k].op == ops[k] && events[k].err == errs[k]
  }

  method Run(fs: Overlay, ops: seq<Op>) returns (errs: seq<Errno>, ghost events: seq<Event>)
    requires fs.Valid()
    modifies fs`upper, fs`inodes
    ensures fs.Valid() && Reports(events, ops, errs)
    ensures forall e :: e in events ==> FailsForAReason(fs, e)
    ensures fs.reliable && NoStray(old(fs.upper), fs.roots) ==>
        NoStray(fs.upper, fs.roots) && forall e :: e in events ==> RemovesIfEmpty(fs.roots, e)
    ensures Leads(fs.roots, old(fs.upper), old(fs.inodes), events, fs.upper, fs.inodes)
    ensures NothingUncovered(fs.roots, events) ==>
        Shows(fs.upper, fs.roots, PlainRun(TreeOf(old(fs.upper), fs.roots), events))
  {
    errs, events := [], [];
    ghost var u0, i0 := fs.upper, fs.inodes;
    for k := 0 to |ops|
      invariant fs.Valid() && Reports(events, ops[..k], errs)
      invariant forall e :: e in events ==> FailsForAReason(fs, e)
      invariant fs.reliable && NoStray(u0, fs.roots) ==>
                  NoStray(fs.upper, fs.roots) && forall e :: e in events ==> RemovesIfEmpty(fs.roots, e)
      invariant Leads(fs.roots, u0, i0, events, fs.upper, fs.inodes)
    {
      ghost var e := Event(fs.upper, fs.inodes, ops[k], Ok);
      var err := Step(fs, ops[k]);
      e := e.(err := err);
      OneMore(fs.roots, u0, i0, events, e, fs.upper, fs.inodes);
      ReportsMore(events, ops, k, errs, e);
      errs, events := errs + [err], events + [e];
    }
    assert ops[..|ops|] == ops;
    if NothingUncovered(fs.roots, events) {
      RunShows(fs.roots, u0, i0, events, fs.upper, fs.inodes);
    }
  }

  lemma OneMore(roots: seq<Node>, u: Node, i: Inodes, events: seq<Event>, e: Event, u': Node, i': Inodes)
    requires Leads(roots, u, i, events, e.upper, e.inodes)
    requires StepIs(roots, e.upper, e.inodes, e.op, e.err, u', i')
    ensures Leads(roots, u, i, events + [e], u', i')
  {
    var more := events + [e];
    assert more[..|more| - 1] == events && more[|more| - 1] == e;
  }

  lemma ReportsMore(events: seq<Event>, ops: seq<Op>, k: nat, errs: seq<Errno>, e: Event)
    requires k < |ops| && Reports(events, ops[..k], errs) && e.op == ops[k]
    ensures Reports(events + [e], ops[..k + 1], errs + [e.err])
  {
  }
}
