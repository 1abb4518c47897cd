// Copy-up by several threads at once.  Each thread finds the topmost ancestor not yet
// copied up, takes its inode's lock, looks again, copies, and starts over.  The steps of
// all threads may interleave in any way.

module CopyUpProtocol {

  type Data = seq<nat>
  type Thread = nat

  /** What does not change: dentries are numbered so that parents come first, 0 is the
      root; several dentries may be hard links to one inode.  indexed are the inodes that are
      copied up to the index first and then linked, which no directory is: an indexed directory
      gets its index entry in the step that installs it. */
  datatype World = World(parent: seq<nat>, inode: seq<nat>, lower: seq<Data>, indexed: set<nat>)

  ghost predicate Sound(w: World) {
    && |w.parent| == |w.inode| > 0 && w.parent[0] == 0
    && (forall d :: 0 < d < |w.parent| ==> w.parent[d] < d)
    && (forall d :: 0 <= d < |w.inode| ==> w.inode[d] < |w.lower|)
    && (forall d, e :: 0 <= d < |w.inode| && 0 <= e < |w.inode| && d != e && w.inode[d] == w.inode[e] ==>
          w.inode[d] in w.indexed)
    && w.inode[0] !in w.indexed
    && (forall d :: 0 < d < |w.parent| ==> w.inode[w.parent[d]] !in w.indexed)
  }

  /** Where a thread is.  target is what it has to copy up, next what it is copying now;
      missing is what was missing above target when the round began. */
  datatype PC =
    | Idle
    | Check(target: nat)
    | Search(target: nat, next: nat, missing: set<nat>)
    | Want(target: nat, next: nat, missing: set<nat>)
    | Held(target: nat, next: nat, missing: set<nat>)
    | Copy(target: nat, next: nat, missing: set<nat>, temp: Data)
    | Install(target: nat, next: nat, missing: set<nat>)
    | Link(target: nat, next: nat, missing: set<nat>)
    | Flag(target: nat, next: nat, missing: set<nat>)
    | Release(target: nat, next: nat, missing: set<nat>)
    | Done(target: nat)

  /** upper: inodes known to have an upper inode.  flagged: dentries known to have an upper
      name.  names: the names in the upper tree.  data: contents of upper inodes.  made and
      linked count how often each was created. */
  datatype State = State(
    pcs: map<Thread, PC>, lock: map<nat, Thread>,
    upper: set<nat>, flagged: set<nat>, names: set<nat>, data: map<nat, Data>,
    made: multiset<nat>, linked: multiset<nat>)

  predicate InRound(pc: PC) {
    !pc.Idle? && !pc.Check? && !pc.Done?
  }

  predicate Locked(pc: PC) {
    InRound(pc) && !pc.Search? && !pc.Want?
  }

  function Chain(w: World, d: nat): set<nat>
    requires Sound(w) && d < |w.parent|
  {
    if d == 0 then {} else {d} + Chain(w, w.parent[d])
  }

  predicate CopiedUp(w: World, s: State, d: nat)
    requires d < |w.inode|
  {
    w.inode[d] in s.upper && d in s.flagged
  }

  ghost function Missing(w: World, s: State, target: nat): set<nat>
    requires Sound(w) && target < |w.parent|
  {
    set d | d in Chain(w, target) && d < |w.inode| && !CopiedUp(w, s, d)
  }

  /** What a user reads from an inode. */
  function Visible(w: World, s: State, i: nat): Data
    requires i < |w.lower|
  {
    if i in s.upper && i in s.data then s.data[i] else w.lower[i]
  }

  // ---------------------------------------------------------------------- the steps

  predicate IsThread(s: State, t: Thread) {
    t in s.pcs
  }

  function Go(s: State, t: Thread, pc: PC): State {
    s.(pcs := s.pcs[t := pc])
  }

  ghost predicate Start(w: World, s: State, s': State, t: Thread) {
    && IsThread(s, t) && s.pcs[t].Idle?
    && exists target :: 0 <= target < |w.parent| && s' == Go(s, t, Check(target))
  }

  ghost predicate CheckStep(w: World, s: State, s': State, t: Thread)
    requires Sound(w)
  {
    && IsThread(s, t) && s.pcs[t].Check? && s.pcs[t].target < |w.parent|
    && var d := s.pcs[t].target;
    s' == Go(s, t, if CopiedUp(w, s, d) then Done(d) else Search(d, d, Missing(w, s, d)))
  }

  /** Find the topmost dentry not yet copied up. */
  ghost predicate SearchStep(w: World, s: State, s': State, t: Thread) {
    && IsThread(s, t) && s.pcs[t].Search? && s.pcs[t].next < |w.parent| && w.parent[s.pcs[t].next] < |w.inode|
    && var Search(d, next, m) := s.pcs[t];
    var p := w.parent[next];
    s' == Go(s, t, if w.inode[p] in s.upper then Want(d, next, m) else Search(d, p, m))
  }

  ghost predicate Acquire(w: World, s: State, s': State, t: Thread) {
    && IsThread(s, t) && s.pcs[t].Want? && s.pcs[t].next < |w.inode|
    && var Want(d, next, m) := s.pcs[t];
    && w.inode[next] !in s.lock
    && s' == Go(s, t, Held(d, next, m)).(lock := s.lock[w.inode[next] := t])
  }

  ghost predicate Recheck(w: World, s: State, s': State, t: Thread) {
    && IsThread(s, t) && s.pcs[t].Held? && s.pcs[t].next < |w.inode|
    && var Held(d, next, m) := s.pcs[t];
    s' == Go(s, t,
             if CopiedUp(w, s, next) then Release(d, next, m)
             else if w.inode[next] !in s.upper then Copy(d, next, m, [])
             else Link(d, next, m))
  }

  /** Some more of the lower file is written to the temporary one. */
  ghost predicate CopyStep(w: World, s: State, s': State, t: Thread) {
    && IsThread(s, t) && s.pcs[t].Copy? && s.pcs[t].next < |w.inode| && w.inode[s.pcs[t].next] < |w.lower|
    && var Copy(d, next, m, temp) := s.pcs[t];
    exists n :: |temp| < n <= |w.lower[w.inode[next]]| && s' == Go(s, t, Copy(d, next, m, w.lower[w.inode[next]][..n]))
  }

  /** The wait for the lock is interrupted, or nothing more is tried for another reason. */
  ghost predicate GivesUp(w: World, s: State, s': State, t: Thread) {
    IsThread(s, t) && s.pcs[t].Want? && s' == Go(s, t, Idle)
  }

  /** The copy, the link, or the link count noted after it fails; the lock is dropped and the
      thread gives up. */
  ghost predicate Fails(w: World, s: State, s': State, t: Thread) {
    && IsThread(s, t) && InRound(s.pcs[t]) && s.pcs[t].next < |w.inode|
    && (s.pcs[t].Copy? || s.pcs[t].Link? || (s.pcs[t].Release? && w.inode[s.pcs[t].next] in w.indexed))
    && s' == Go(s, t, Idle).(lock := s.lock - {w.inode[s.pcs[t].next]})
  }

  /** The finished copy gets its place: in the index, or under its name. */
  ghost predicate InstallStep(w: World, s: State, s': State, t: Thread) {
    && IsThread(s, t) && s.pcs[t].Copy? && s.pcs[t].next < |w.inode| && w.inode[s.pcs[t].next] < |w.lower|
    && var Copy(d, next, m, temp) := s.pcs[t];
    var i := w.inode[next];
    && temp == w.lower[i]
    && var s1 := Go(s, t, Install(d, next, m)).(data := s.data[i := temp], made := s.made + multiset{i});
    s' == if i in w.indexed then s1
          else s1.(names := s.names + {next}, linked := s.linked + multiset{next})
  }

  /** The inode learns of its upper inode. */
  ghost predicate UpdateStep(w: World, s: State, s': State, t: Thread) {
    && IsThread(s, t) && s.pcs[t].Install? && s.pcs[t].next < |w.inode|
    && var Install(d, next, m) := s.pcs[t];
    var i := w.inode[next];
    s' == Go(s, t, if i in w.indexed then Link(d, next, m) else Flag(d, next, m)).(upper := s.upper + {i})
  }

  /** An indexed inode is linked under one more name. */
  ghost predicate LinkStep(w: World, s: State, s': State, t: Thread) {
    && IsThread(s, t) && s.pcs[t].Link?
    && var Link(d, next, m) := s.pcs[t];
    s' == if next in s.flagged then Go(s, t, Release(d, next, m))
          else Go(s, t, Flag(d, next, m)).(names := s.names + {next}, linked := s.linked + multiset{next})
  }

  ghost predicate FlagStep(w: World, s: State, s': State, t: Thread) {
    && IsThread(s, t) && s.pcs[t].Flag?
    && var Flag(d, next, m) := s.pcs[t];
    s' == Go(s, t, Release(d, next, m)).(flagged := s.flagged + {next})
  }

  ghost predicate ReleaseStep(w: World, s: State, s': State, t: Thread) {
    && IsThread(s, t) && s.pcs[t].Release? && s.pcs[t].next < |w.inode|
    && s' == Go(s, t, Check(s.pcs[t].target)).(lock := s.lock - {w.inode[s.pcs[t].next]})
  }

  ghost predicate ThreadStep(w: World, s: State, s': State, t: Thread)
    requires Sound(w)
  {
    || Start(w, s, s', t) || CheckStep(w, s, s', t) || SearchStep(w, s, s', t)
    || Acquire(w, s, s', t) || GivesUp(w, s, s', t) || Recheck(w, s, s', t)
    || CopyStep(w, s, s', t) || Fails(w, s, s', t) || InstallStep(w, s, s', t) || UpdateStep(w, s, s', t)
    || LinkStep(w, s, s', t) || FlagStep(w, s, s', t) || ReleaseStep(w, s, s', t)
  }

  /** Somebody writes to a file that has been copied up. */
  ghost predicate WriteStep(w: World, s: State, s': State, i: nat, bytes: Data) {
    i in s.upper && s' == s.(data := s.data[i := bytes])
  }

  ghost predicate Step(w: World, s: State, s': State)
    requires Sound(w)
  {
    (exists t :: ThreadStep(w, s, s', t)) || (exists i, bytes :: WriteStep(w, s, s', i, bytes))
  }

  /** Nobody is copying anything up, and what is in the upper layer is known: whole paths of
      names, each with an upper inode, and perhaps inodes that only the index names. */
  ghost predicate Init(w: World, s: State)
    requires Sound(w)
  {
    && (forall t :: t in s.pcs ==> s.pcs[t].Idle?) && s.lock == map[]
    && w.inode[0] in s.upper && s.flagged == s.names
    && (forall i :: i in s.upper ==> i in s.data && i < |w.lower|)
    && (forall i :: s.made[i] == if i in s.upper then 1 else 0)
    && (forall d :: s.linked[d] == if d in s.names then 1 else 0)
    && (forall d :: d in s.names ==> d < |w.parent| && w.parent[d] in s.names && w.inode[d] in s.upper)
    && (forall d :: 0 <= d < |w.inode| && w.inode[d] in s.upper && w.inode[d] !in w.indexed ==> d in s.names)
  }

  // ------------------------------------------------------------------ the invariant

  /** A thread in a round works on an ancestor of its target, one that was missing when the
      round began. */
  ghost predicate OnItsWay(w: World, s: State, pc: PC)
    requires Sound(w)
  {
    && (pc.Check? || pc.Done? ==> pc.target < |w.parent|)
    && (pc.Done? ==> CopiedUp(w, s, pc.target))
    && (InRound(pc) ==>
          && pc.target < |w.parent| && 0 < pc.next < |w.parent| && pc.next in Chain(w, pc.target)
          && Missing(w, s, pc.target) <= pc.missing <= Chain(w, pc.target)
          && pc.next in pc.missing
          && (pc.Search? || w.inode[w.parent[pc.next]] in s.upper))
  }

  /** What a thread knows at each point under the lock. */
  ghost predicate Knows(w: World, s: State, t: Thread, pc: PC)
    requires Sound(w) && OnItsWay(w, s, pc) && Locked(pc)
  {
    var i := w.inode[pc.next];
    && i in s.lock && s.lock[i] == t
    && match pc
       case Copy(_, next, _, temp) => i !in s.upper && s.made[i] == 0 && next !in s.names && temp <= w.lower[i]
       case Install(_, next, _) =>
         && i !in s.upper && s.made[i] == 1 && i in s.data && s.data[i] == w.lower[i]
         && (i in w.indexed ==> next !in s.names) && (i !in w.indexed ==> next in s.names)
         && next !in s.flagged
       case Link(_, next, _) => i in s.upper && (next in s.names ==> next in s.flagged)
       case Flag(_, next, _) => i in s.upper && next in s.names && next !in s.flagged
       case Release(_, next, _) => CopiedUp(w, s, next)
       case _ => true
  }

  ghost predicate ThreadOk(w: World, s: State, t: Thread)
    requires Sound(w) && t in s.pcs
  {
    OnItsWay(w, s, s.pcs[t]) && (Locked(s.pcs[t]) ==> Knows(w, s, t, s.pcs[t]))
  }

  /** A lock is held by a thread that is working on that inode. */
  ghost predicate LockOk(w: World, s: State, i: nat)
    requires i in s.lock
  {
    && s.lock[i] in s.pcs && Locked(s.pcs[s.lock[i]])
    && s.pcs[s.lock[i]].next < |w.inode| && w.inode[s.pcs[s.lock[i]].next] == i
  }

  /** The thread that is between making and announcing something of this inode. */
  predicate InTheMaking(w: World, s: State, i: nat, d: nat) {
    && i in s.lock && s.lock[i] in s.pcs
    && var pc := s.pcs[s.lock[i]];
    (pc.Install? || pc.Flag?) && pc.next == d
  }

  /** An upper inode is made once. */
  ghost predicate InodeOk(w: World, s: State, i: nat) {
    && s.made[i] <= 1
    && (i in s.upper ==> s.made[i] == 1 && i in s.data && i < |w.lower|)
    && (s.made[i] == 1 ==> i in s.upper || exists d :: InTheMaking(w, s, i, d))
  }

  /** An upper name is linked once, and has an upper parent.  An inode known to be there is
      there, and a name not announced yet is just being made. */
  ghost predicate NameOk(w: World, s: State, d: nat)
    requires Sound(w)
  {
    && s.linked[d] == (if d in s.names then 1 else 0)
    && (d in s.names ==> d < |w.parent| && w.parent[d] in s.names)
    && (d < |w.inode| && w.inode[d] in s.upper && w.inode[d] !in w.indexed ==> d in s.names)
    && (d in s.flagged ==> d in s.names && w.inode[d] in s.upper)
    && (d in s.names && d !in s.flagged ==> InTheMaking(w, s, w.inode[d], d))
  }

  ghost predicate Inv(w: World, s: State)
    requires Sound(w)
  {
    && (forall t :: t in s.pcs ==> ThreadOk(w, s, t))
    && (forall i :: i in s.lock ==> LockOk(w, s, i))
    && (forall i :: InodeOk(w, s, i))
    && (forall d :: NameOk(w, s, d))
    && w.inode[0] in s.upper
  }

  lemma {:induction false} ChainOf(w: World, d: nat)
    requires Sound(w) && d < |w.parent|
    ensures forall a :: a in Chain(w, d) ==> 0 < a <= d && (w.parent[a] == 0 || w.parent[a] in Chain(w, d))
  {
    if d != 0 {
      ChainOf(w, w.parent[d]);
    }
  }

  lemma InitHolds(w: World, s: State)
    requires Sound(w) && Init(w, s)
    ensures Inv(w, s)
  {
  }

  // ------------------------------------------------------- every step keeps it

  /** Nothing that was known is taken back. */
  predicate Later(s: State, s': State) {
    s.upper <= s'.upper && s.flagged <= s'.flagged && s.names <= s'.names
  }

  lemma StillOnItsWay(w: World, s: State, s': State, pc: PC)
    requires Sound(w) && Later(s, s') && OnItsWay(w, s, pc)
    ensures OnItsWay(w, s', pc)
  {
    if InRound(pc) {
      assert Missing(w, s', pc.target) <= Missing(w, s, pc.target);
    }
  }

  ghost predicate SameInode(s: State, s': State, j: nat) {
    && (j in s'.lock <==> j in s.lock) && (j in s.lock ==> s'.lock[j] == s.lock[j])
    && s'.made[j] == s.made[j] && (j in s'.upper <==> j in s.upper)
    && (j in s'.data <==> j in s.data) && (j in s.data ==> s'.data[j] == s.data[j])
  }

  ghost predicate SameName(s: State, s': State, d: nat) {
    && (d in s'.names <==> d in s.names) && (d in s'.flagged <==> d in s.flagged)
    && s'.linked[d] == s.linked[d]
  }

  /** The step is one of thread t, and touches only the inode and name it works on. */
  ghost predicate Touches(w: World, s: State, s': State, t: Thread, next: nat)
    requires next < |w.inode|
  {
    && Later(s, s') && t in s.pcs && s'.pcs.Keys == s.pcs.Keys
    && InRound(s.pcs[t]) && s.pcs[t].next == next
    && (forall u :: u in s.pcs && u != t ==> s'.pcs[u] == s.pcs[u])
    && (forall j :: j != w.inode[next] ==> SameInode(s, s', j))
    && (forall d :: d != next ==> SameName(s, s', d))
    && (w.inode[next] in s.lock ==> s.lock[w.inode[next]] == t)
  }

  lemma OtherThread(w: World, s: State, s': State, t: Thread, next: nat, u: Thread)
    requires Sound(w) && Inv(w, s) && next < |w.inode| && Touches(w, s, s', t, next)
    requires u in s.pcs && u != t
    ensures ThreadOk(w, s', u)
  {
    assert ThreadOk(w, s, u);
    StillOnItsWay(w, s, s', s.pcs[u]);
    if Locked(s.pcs[u]) {
      var pc := s.pcs[u];
      assert Knows(w, s, u, pc);
      assert SameInode(s, s', w.inode[pc.next]);
      assert SameName(s, s', pc.next);
    }
  }

  lemma OtherInode(w: World, s: State, s': State, t: Thread, next: nat, j: nat)
    requires Sound(w) && Inv(w, s) && next < |w.inode| && Touches(w, s, s', t, next)
    requires j != w.inode[next]
    ensures j in s'.lock ==> LockOk(w, s', j)
    ensures InodeOk(w, s', j)
  {
    assert SameInode(s, s', j) && InodeOk(w, s, j);
    if j in s.lock {
      assert LockOk(w, s, j);
      assert s.lock[j] != t;
    }
    if s.made[j] == 1 && j !in s.upper {
      var d :| InTheMaking(w, s, j, d);
      assert InTheMaking(w, s', j, d);
    }
  }

  lemma OtherName(w: World, s: State, s': State, t: Thread, next: nat, d: nat)
    requires Sound(w) && Inv(w, s) && next < |w.inode| && Touches(w, s, s', t, next)
    requires d != next
    ensures NameOk(w, s', d)
  {
    assert SameName(s, s', d) && NameOk(w, s, d);
    if d in s.names && d !in s.flagged {
      var i := w.inode[d];
      assert InTheMaking(w, s, i, d);
      assert i != w.inode[next];
      assert SameInode(s, s', i);
      assert LockOk(w, s, i);
    }
    if d < |w.inode| && w.inode[d] != w.inode[next] {
      assert SameInode(s, s', w.inode[d]);
    }
  }

  /** A step keeps the invariant if it does for its own thread, inode and name. */
  lemma Keeps(w: World, s: State, s': State, t: Thread, next: nat)
    requires Sound(w) && Inv(w, s) && next < |w.inode| && Touches(w, s, s', t, next)
    requires ThreadOk(w, s', t)
    requires w.inode[next] in s'.lock ==> LockOk(w, s', w.inode[next])
    requires InodeOk(w, s', w.inode[next]) && NameOk(w, s', next)
    ensures Inv(w, s')
  {
    forall u | u in s'.pcs ensures ThreadOk(w, s', u) {
      if u != t { OtherThread(w, s, s', t, next, u); }
    }
    forall j | j in s'.lock ensures LockOk(w, s', j) {
      if j != w.inode[next] { OtherInode(w, s, s', t, next, j); }
    }
    forall j ensures InodeOk(w, s', j) {
      if j != w.inode[next] { OtherInode(w, s, s', t, next, j); }
    }
    forall d ensures NameOk(w, s', d) {
      if d != next { OtherName(w, s, s', t, next, d); }
    }
  }

  lemma MovedThread(w: World, s: State, t: Thread, pc: PC, u: Thread)
    requires Sound(w) && Inv(w, s) && t in s.pcs && !Locked(s.pcs[t]) && !Locked(pc) && OnItsWay(w, s, pc)
    requires u in s.pcs
    ensures ThreadOk(w, Go(s, t, pc), u)
  {
    assert ThreadOk(w, s, u);
    StillOnItsWay(w, s, Go(s, t, pc), if u == t then pc else s.pcs[u]);
  }

  /** A step that only moves an unlocked thread on. */
  lemma MoveKeeps(w: World, s: State, t: Thread, pc: PC)
    requires Sound(w) && Inv(w, s) && t in s.pcs && !Locked(s.pcs[t]) && !Locked(pc) && OnItsWay(w, s, pc)
    ensures Inv(w, Go(s, t, pc))
  {
    var s' := Go(s, t, pc);
    forall u | u in s'.pcs ensures ThreadOk(w, s', u) {
      MovedThread(w, s, t, pc, u);
    }
    forall j | j in s'.lock ensures LockOk(w, s', j) {
      assert LockOk(w, s, j);
    }
    forall j ensures InodeOk(w, s', j) {
      assert InodeOk(w, s, j);
      if s.made[j] == 1 && j !in s.upper {
        var d :| InTheMaking(w, s, j, d);
        assert InTheMaking(w, s', j, d);
      }
    }
    forall d ensures NameOk(w, s', d) {
      assert NameOk(w, s, d);
    }
  }

  lemma StartKeeps(w: World, s: State, s': State, t: Thread)
    requires Sound(w) && Inv(w, s) && Start(w, s, s', t)
    ensures Inv(w, s')
  {
    var target :| 0 <= target < |w.parent| && s' == Go(s, t, Check(target));
    MoveKeeps(w, s, t, Check(target));
  }

  lemma CheckKeeps(w: World, s: State, s': State, t: Thread)
    requires Sound(w) && Inv(w, s) && CheckStep(w, s, s', t)
    ensures Inv(w, s')
  {
    assert NameOk(w, s, 0);
    MoveKeeps(w, s, t, s'.pcs[t]);
  }

  lemma SearchKeeps(w: World, s: State, s': State, t: Thread)
    requires Sound(w) && Inv(w, s) && SearchStep(w, s, s', t)
    ensures Inv(w, s')
  {
    assert ThreadOk(w, s, t);
    ChainOf(w, s.pcs[t].target);
    MoveKeeps(w, s, t, s'.pcs[t]);
  }

  lemma GivesUpKeeps(w: World, s: State, s': State, t: Thread)
    requires Sound(w) && Inv(w, s) && GivesUp(w, s, s', t)
    ensures Inv(w, s')
  {
    MoveKeeps(w, s, t, Idle);
  }

  /** A thread that stays in its round stays on its way. */
  lemma SameRound(w: World, s: State, s': State, pc: PC, pc': PC)
    requires Sound(w) && Later(s, s') && OnItsWay(w, s, pc) && InRound(pc) && !pc.Search?
    requires InRound(pc') && pc'.target == pc.target && pc'.next == pc.next && pc'.missing == pc.missing
    ensures OnItsWay(w, s', pc')
  {
    StillOnItsWay(w, s, s', pc);
  }

  // These three say the same of different steps; together they are too much at once.

  lemma LockTouches(w: World, s: State, s': State, t: Thread, next: nat)
    requires t in s.pcs && InRound(s.pcs[t]) && s.pcs[t].next == next < |w.inode|
    requires w.inode[next] in s.lock ==> s.lock[w.inode[next]] == t
    requires
      || Acquire(w, s, s', t) || Recheck(w, s, s', t) || CopyStep(w, s, s', t) || Fails(w, s, s', t)
      || ReleaseStep(w, s, s', t)
    ensures Touches(w, s, s', t, next)
  {
  }

  lemma InstallTouches(w: World, s: State, s': State, t: Thread, next: nat)
    requires t in s.pcs && InRound(s.pcs[t]) && s.pcs[t].next == next < |w.inode|
    requires w.inode[next] in s.lock ==> s.lock[w.inode[next]] == t
    requires InstallStep(w, s, s', t)
    ensures Touches(w, s, s', t, next)
  {
  }

  lemma MakeTouches(w: World, s: State, s': State, t: Thread, next: nat)
    requires t in s.pcs && InRound(s.pcs[t]) && s.pcs[t].next == next < |w.inode|
    requires w.inode[next] in s.lock ==> s.lock[w.inode[next]] == t
    requires UpdateStep(w, s, s', t) || LinkStep(w, s, s', t) || FlagStep(w, s, s', t)
    ensures Touches(w, s, s', t, next)
  {
  }

  lemma AcquireKeeps(w: World, s: State, s': State, t: Thread)
    requires Sound(w) && Inv(w, s) && Acquire(w, s, s', t)
    ensures Inv(w, s')
  {
    var next := s.pcs[t].next;
    var i := w.inode[next];
    assert ThreadOk(w, s, t) && InodeOk(w, s, i) && NameOk(w, s, next);
    LockTouches(w, s, s', t, next);
    SameRound(w, s, s', s.pcs[t], s'.pcs[t]);
    Keeps(w, s, s', t, next);
  }

  lemma RecheckKeeps(w: World, s: State, s': State, t: Thread)
    requires Sound(w) && Inv(w, s) && Recheck(w, s, s', t)
    ensures Inv(w, s')
  {
    var next := s.pcs[t].next;
    var i := w.inode[next];
    assert ThreadOk(w, s, t) && InodeOk(w, s, i) && NameOk(w, s, next) && LockOk(w, s, i);
    LockTouches(w, s, s', t, next);
    SameRound(w, s, s', s.pcs[t], s'.pcs[t]);
    Keeps(w, s, s', t, next);
  }

  lemma CopyKeeps(w: World, s: State, s': State, t: Thread)
    requires Sound(w) && Inv(w, s) && CopyStep(w, s, s', t)
    ensures Inv(w, s')
  {
    var next := s.pcs[t].next;
    var i := w.inode[next];
    assert ThreadOk(w, s, t) && InodeOk(w, s, i) && NameOk(w, s, next) && LockOk(w, s, i);
    LockTouches(w, s, s', t, next);
    SameRound(w, s, s', s.pcs[t], s'.pcs[t]);
    Keeps(w, s, s', t, next);
  }

  lemma FailsKeeps(w: World, s: State, s': State, t: Thread)
    requires Sound(w) && Inv(w, s) && Fails(w, s, s', t)
    ensures Inv(w, s')
  {
    var next := s.pcs[t].next;
    var i := w.inode[next];
    assert ThreadOk(w, s, t) && InodeOk(w, s, i) && NameOk(w, s, next) && LockOk(w, s, i);
    LockTouches(w, s, s', t, next);
    Keeps(w, s, s', t, next);
  }

  lemma InstallKeeps(w: World, s: State, s': State, t: Thread)
    requires Sound(w) && Inv(w, s) && InstallStep(w, s, s', t)
    ensures Inv(w, s')
  {
    var next := s.pcs[t].next;
    var i := w.inode[next];
    assert ThreadOk(w, s, t) && InodeOk(w, s, i) && NameOk(w, s, next) && LockOk(w, s, i);
    assert NameOk(w, s, w.parent[next]);
    assert InTheMaking(w, s', i, next);
    InstallTouches(w, s, s', t, next);
    SameRound(w, s, s', s.pcs[t], s'.pcs[t]);
    Keeps(w, s, s', t, next);
  }

  lemma UpdateKeeps(w: World, s: State, s': State, t: Thread)
    requires Sound(w) && Inv(w, s) && UpdateStep(w, s, s', t)
    ensures Inv(w, s')
  {
    var next := s.pcs[t].next;
    var i := w.inode[next];
    assert ThreadOk(w, s, t) && InodeOk(w, s, i) && NameOk(w, s, next) && LockOk(w, s, i);
    MakeTouches(w, s, s', t, next);
    SameRound(w, s, s', s.pcs[t], s'.pcs[t]);
    Keeps(w, s, s', t, next);
  }

  lemma LinkKeeps(w: World, s: State, s': State, t: Thread)
    requires Sound(w) && Inv(w, s) && LinkStep(w, s, s', t)
    ensures Inv(w, s')
  {
    var next := s.pcs[t].next;
    var i := w.inode[next];
    assert ThreadOk(w, s, t) && InodeOk(w, s, i) && NameOk(w, s, next) && LockOk(w, s, i);
    assert NameOk(w, s, w.parent[next]);
    MakeTouches(w, s, s', t, next);
    SameRound(w, s, s', s.pcs[t], s'.pcs[t]);
    Keeps(w, s, s', t, next);
  }

  lemma FlagKeeps(w: World, s: State, s': State, t: Thread)
    requires Sound(w) && Inv(w, s) && FlagStep(w, s, s', t)
    ensures Inv(w, s')
  {
    var next := s.pcs[t].next;
    var i := w.inode[next];
    assert ThreadOk(w, s, t) && InodeOk(w, s, i) && NameOk(w, s, next) && LockOk(w, s, i);
    MakeTouches(w, s, s', t, next);
    SameRound(w, s, s', s.pcs[t], s'.pcs[t]);
    Keeps(w, s, s', t, next);
  }

  lemma ReleaseKeeps(w: World, s: State, s': State, t: Thread)
    requires Sound(w) && Inv(w, s) && ReleaseStep(w, s, s', t)
    ensures Inv(w, s')
  {
    var next := s.pcs[t].next;
    var i := w.inode[next];
    assert ThreadOk(w, s, t) && InodeOk(w, s, i) && NameOk(w, s, next) && LockOk(w, s, i);
    LockTouches(w, s, s', t, next);
    Keeps(w, s, s', t, next);
  }

  lemma WriteKeeps(w: World, s: State, s': State, i: nat, bytes: Data)
    requires Sound(w) && Inv(w, s) && WriteStep(w, s, s', i, bytes)
    ensures Inv(w, s')
  {
    forall t | t in s'.pcs ensures ThreadOk(w, s', t) {
      assert ThreadOk(w, s, t);
      StillOnItsWay(w, s, s', s.pcs[t]);
    }
    forall j | j in s'.lock ensures LockOk(w, s', j) {
      assert LockOk(w, s, j);
    }
    forall j ensures InodeOk(w, s', j) {
      assert InodeOk(w, s, j);
      if s.made[j] == 1 && j !in s.upper {
        var d :| InTheMaking(w, s, j, d);
        assert InTheMaking(w, s', j, d);
      }
    }
    forall d ensures NameOk(w, s', d) {
      assert NameOk(w, s, d);
    }
  }

  lemma StepKeeps(w: World, s: State, s': State)
    requires Sound(w) && Inv(w, s) && Step(w, s, s')
    ensures Inv(w, s')
  {
    if i, bytes :| WriteStep(w, s, s', i, bytes) {
      WriteKeeps(w, s, s', i, bytes);
    } else {
      var t :| ThreadStep(w, s, s', t);
      if Start(w, s, s', t) { StartKeeps(w, s, s', t); }
      else if CheckStep(w, s, s', t) { CheckKeeps(w, s, s', t); }
      else if SearchStep(w, s, s', t) { SearchKeeps(w, s, s', t); }
      else if Acquire(w, s, s', t) { AcquireKeeps(w, s, s', t); }
      else if GivesUp(w, s, s', t) { GivesUpKeeps(w, s, s', t); }
      else if Recheck(w, s, s', t) { RecheckKeeps(w, s, s', t); }
      else if CopyStep(w, s, s', t) { CopyKeeps(w, s, s', t); }
      else if Fails(w, s, s', t) { FailsKeeps(w, s, s', t); }
      else if InstallStep(w, s, s', t) { InstallKeeps(w, s, s', t); }
      else if UpdateStep(w, s, s', t) { UpdateKeeps(w, s, s', t); }
      else if LinkStep(w, s, s', t) { LinkKeeps(w, s, s', t); }
      else if FlagStep(w, s, s', t) { FlagKeeps(w, s, s', t); }
      else { ReleaseKeeps(w, s, s', t); }
    }
  }

  // ------------------------------------------------------------- what every run does

  datatype Event = ByThread(t: Thread) | Wrote(i: nat, bytes: Data)

  ghost predicate Happens(w: World, s: State, s': State, e: Event)
    requires Sound(w)
  {
    match e
    case ByThread(t) => ThreadStep(w, s, s', t)
    case Wrote(i, bytes) => WriteStep(w, s, s', i, bytes)
  }

  ghost predicate IsRun(w: World, run: seq<State>, events: seq<Event>)
    requires Sound(w)
  {
    && |run| == |events| + 1 && Init(w, run[0])
    && forall n :: 0 <= n < |events| ==> Happens(w, run[n], run[n + 1], events[n])
  }

  /** What an inode that held this at first holds after these events if copy-up is never
      noticed: the last thing written to it, or what it held. */
  function Written(first: Data, events: seq<Event>, i: nat): Data {
    if events == [] then first
    else
      match events[|events| - 1]
      case Wrote(j, bytes) => if j == i then bytes else Written(first, events[..|events| - 1], i)
      case ByThread(_) => Written(first, events[..|events| - 1], i)
  }

  /** No step of a copy-up changes what is read from any inode. */
  lemma CopyUpDoesNotShow(w: World, s: State, s': State, t: Thread, i: nat)
    requires Sound(w) && Inv(w, s) && ThreadStep(w, s, s', t) && i < |w.lower|
    ensures Visible(w, s', i) == Visible(w, s, i)
  {
    assert ThreadOk(w, s, t) && InodeOk(w, s, i);
  }

  lemma EventKeeps(w: World, s: State, s': State, e: Event)
    requires Sound(w) && Inv(w, s) && Happens(w, s, s', e)
    ensures Inv(w, s')
  {
    StepKeeps(w, s, s');
  }

  lemma EventShows(w: World, s: State, s': State, e: Event, i: nat)
    requires Sound(w) && Inv(w, s) && Happens(w, s, s', e) && i < |w.lower|
    ensures Visible(w, s', i) == if e.Wrote? && e.i == i then e.bytes else Visible(w, s, i)
  {
    if e.ByThread? {
      CopyUpDoesNotShow(w, s, s', e.t, i);
    }
  }

  lemma {:induction false} RunKeeps(w: World, run: seq<State>, events: seq<Event>)
    requires Sound(w) && IsRun(w, run, events)
    ensures Inv(w, run[|events|])
    decreases |events|
  {
    if events == [] {
      InitHolds(w, run[0]);
    } else {
      var n := |events| - 1;
      var s, s' := run[n], run[|events|];
      RunKeeps(w, run[..n + 1], events[..n]);
      assert Happens(w, s, s', events[n]);
      EventKeeps(w, s, s', events[n]);
    }
  }

  /** Over every run and every interleaving, each inode reads as if there were no copy-up:
      nothing written is lost, and nothing else ever appears. */
  lemma {:induction false} NothingIsLost(w: World, run: seq<State>, events: seq<Event>, i: nat)
    requires Sound(w) && IsRun(w, run, events) && i < |w.lower|
    ensures Visible(w, run[|events|], i) == Written(Visible(w, run[0], i), events, i)
    decreases |events|
  {
    if events != [] {
      var n := |events| - 1;
      assert IsRun(w, run[..n + 1], events[..n]);
      RunKeeps(w, run[..n + 1], events[..n]);
      NothingIsLost(w, run[..n + 1], events[..n], i);
      EventShows(w, run[n], run[n + 1], events[n], i);
    }
  }

  lemma {:induction false} NamesReachUp(w: World, s: State, d: nat)
    requires Sound(w) && Inv(w, s) && d < |w.parent| && d in s.names
    ensures Chain(w, d) <= s.names
  {
    assert NameOk(w, s, d);
    if d != 0 {
      NamesReachUp(w, s, w.parent[d]);
    }
  }

  /** Thread t is between taking and dropping the lock for a copy-up of inode i. */
  predicate AtWork(w: World, s: State, t: Thread, i: nat) {
    && t in s.pcs && Locked(s.pcs[t])
    && s.pcs[t].next < |w.inode| && w.inode[s.pcs[t].next] == i
  }

  ghost predicate Finished(w: World, s: State, d: nat)
    requires Sound(w)
  {
    d < |w.parent| && CopiedUp(w, s, d) && Chain(w, d) <= s.names
  }

  /** In every state of every run: an inode gets its upper inode at most once and a name is
      linked at most once; an upper name has an upper parent; no two threads are at work on
      one inode; and a finished copy-up has its whole path in the upper tree. */
  lemma EveryRunIsSafe(w: World, run: seq<State>, events: seq<Event>, n: nat)
    requires Sound(w) && IsRun(w, run, events) && n < |run|
    ensures forall i: nat :: run[n].made[i] <= 1
    ensures forall d: nat :: run[n].linked[d] <= 1
    ensures forall d :: d in run[n].names ==> d < |w.parent| && w.parent[d] in run[n].names
    ensures forall i, t, u :: AtWork(w, run[n], t, i) && AtWork(w, run[n], u, i) ==> t == u
    ensures forall t :: t in run[n].pcs && run[n].pcs[t].Done? ==> Finished(w, run[n], run[n].pcs[t].target)
  {
    var s := run[n];
    assert Inv(w, s) by {
      RunKeeps(w, run[..n + 1], events[..n]);
    }
    forall i: nat ensures s.made[i] <= 1 {
      assert InodeOk(w, s, i);
    }
    forall d: nat ensures s.linked[d] <= 1 {
      assert NameOk(w, s, d);
    }
    forall d | d in s.names ensures d < |w.parent| && w.parent[d] in s.names {
      assert NameOk(w, s, d);
    }
    forall i, t | AtWork(w, s, t, i) ensures i in s.lock && s.lock[i] == t {
      assert ThreadOk(w, s, t);
    }
    forall t | t in s.pcs && s.pcs[t].Done? ensures Finished(w, s, s.pcs[t].target) {
      assert ThreadOk(w, s, t) && NameOk(w, s, s.pcs[t].target);
      NamesReachUp(w, s, s.pcs[t].target);
    }
  }

  /** A step of a thread that has started, and neither a failure nor giving up. */
  ghost predicate Proceeds(w: World, s: State, s': State, t: Thread)
    requires Sound(w)
  {
    ThreadStep(w, s, s', t) && !Start(w, s, s', t) && !GivesUp(w, s, s', t) && !Fails(w, s, s', t)
  }

  ghost predicate CanProceed(w: World, s: State, t: Thread)
    requires Sound(w)
  {
    exists s' :: Proceeds(w, s, s', t)
  }

  /** The thread waits for a lock that another thread holds. */
  predicate Waits(w: World, s: State, t: Thread, u: Thread) {
    && t in s.pcs && s.pcs[t].Want? && s.pcs[t].next < |w.inode|
    && w.inode[s.pcs[t].next] in s.lock && s.lock[w.inode[s.pcs[t].next]] == u
  }

  /** A thread that has started and is not done can go on, or the thread whose lock it waits for
      can; nobody need fail or start for that. */
  lemma NoDeadlock(w: World, s: State, t: Thread)
    requires Sound(w) && Inv(w, s) && t in s.pcs && !s.pcs[t].Done? && !s.pcs[t].Idle?
    ensures CanProceed(w, s, t) || exists u :: Waits(w, s, t, u) && CanProceed(w, s, u)
  {
    assert ThreadOk(w, s, t);
    var pc := s.pcs[t];
    if pc.Want? && w.inode[pc.next] in s.lock {
      var i := w.inode[pc.next];
      assert LockOk(w, s, i);
      LockedGoesOn(w, s, s.lock[i]);
      assert Waits(w, s, t, s.lock[i]);
    } else if Locked(pc) {
      LockedGoesOn(w, s, t);
    } else {
      var s' := match pc
        case Check(d) => Go(s, t, if CopiedUp(w, s, d) then Done(d) else Search(d, d, Missing(w, s, d)))
        case Search(d, next, m) =>
          var p := w.parent[next];
          Go(s, t, if w.inode[p] in s.upper then Want(d, next, m) else Search(d, p, m))
        case Want(d, next, m) => Go(s, t, Held(d, next, m)).(lock := s.lock[w.inode[next] := t])
        case _ => s;
      assert ThreadStep(w, s, s', t);
      NeitherStartsNorFails(w, s, s', t);
    }
  }

  /** So when nobody can go on, everybody who has started is done or has given up. */
  lemma NobodyIsLeft(w: World, s: State, t: Thread)
    requires Sound(w) && Inv(w, s) && t in s.pcs && forall u :: !CanProceed(w, s, u)
    ensures s.pcs[t].Done? || s.pcs[t].Idle?
  {
    if !s.pcs[t].Done? && !s.pcs[t].Idle? {
      NoDeadlock(w, s, t);
    }
  }

  /** A thread that holds a lock can go on with what it is doing. */
  lemma LockedGoesOn(w: World, s: State, t: Thread)
    requires Sound(w) && Inv(w, s) && t in s.pcs && Locked(s.pcs[t])
    ensures CanProceed(w, s, t)
  {
    assert ThreadOk(w, s, t);
    var d, next, m := s.pcs[t].target, s.pcs[t].next, s.pcs[t].missing;
    var i := w.inode[next];
    if s.pcs[t].Copy? {
      CopyGoesOn(w, s, t);
    } else {
      var s' := match s.pcs[t]
        case Held(_, _, _) =>
          Go(s, t, if CopiedUp(w, s, next) then Release(d, next, m)
                   else if i !in s.upper then Copy(d, next, m, []) else Link(d, next, m))
        case Install(_, _, _) =>
          Go(s, t, if i in w.indexed then Link(d, next, m) else Flag(d, next, m)).(upper := s.upper + {i})
        case Link(_, _, _) =>
          if next in s.flagged then Go(s, t, Release(d, next, m))
          else Go(s, t, Flag(d, next, m)).(names := s.names + {next}, linked := s.linked + multiset{next})
        case Flag(_, _, _) => Go(s, t, Release(d, next, m)).(flagged := s.flagged + {next})
        case Release(_, _, _) => Go(s, t, Check(d)).(lock := s.lock - {i})
        case _ => s;
      assert ThreadStep(w, s, s', t);
      NeitherStartsNorFails(w, s, s', t);
    }
  }

  lemma NeitherStartsNorFails(w: World, s: State, s': State, t: Thread)
    requires Sound(w) && ThreadStep(w, s, s', t) && !s.pcs[t].Idle? && t in s'.pcs && !s'.pcs[t].Idle?
    ensures Proceeds(w, s, s', t)
  {
    assert Go(s, t, Idle).pcs[t] == Idle;
  }

  /** There is more to copy, or the copy is whole. */
  lemma CopyGoesOn(w: World, s: State, t: Thread)
    requires Sound(w) && t in s.pcs && s.pcs[t].Copy? && ThreadOk(w, s, t)
    ensures CanProceed(w, s, t)
  {
    var Copy(d, next, m, temp) := s.pcs[t];
    var i := w.inode[next];
    if |temp| < |w.lower[i]| {
      var n := |temp| + 1;
      var s' := Go(s, t, Copy(d, next, m, w.lower[i][..n]));
      assert CopyStep(w, s, s', t);
      NeitherStartsNorFails(w, s, s', t);
    } else {
      var s1 := Go(s, t, Install(d, next, m)).(data := s.data[i := temp], made := s.made + multiset{i});
      var s' := if i in w.indexed then s1
                else s1.(names := s.names + {next}, linked := s.linked + multiset{next});
      assert InstallStep(w, s, s', t);
      NeitherStartsNorFails(w, s, s', t);
    }
  }

  // ------------------------------------------------------------------- termination

  /** How far a thread has to go: what is still missing above its target, where it is in
      the round, and what is left there. */
  datatype Rank = Rank(missing: nat, phase: nat, left: nat)

  predicate LowerRank(a: Rank, b: Rank) {
    || a.missing < b.missing
    || (a.missing == b.missing && a.phase < b.phase)
    || (a.missing == b.missing && a.phase == b.phase && a.left < b.left)
  }

  ghost function RankOf(w: World, s: State, pc: PC): Rank
    requires Sound(w) && OnItsWay(w, s, pc)
  {
    match pc
    case Idle => Rank(0, 0, 0)
    case Done(_) => Rank(0, 0, 0)
    case Check(d) => Rank(|Missing(w, s, d)|, 9, 0)
    case Search(_, next, m) => Rank(|m|, 8, next)
    case Want(_, _, m) => Rank(|m|, 7, 0)
    case Held(_, _, m) => Rank(|m|, 6, 0)
    case Copy(_, next, m, temp) =>
      var size := |w.lower[w.inode[next]]|;
      Rank(|m|, 5, if |temp| <= size then size - |temp| else 0)
    case Install(_, _, m) => Rank(|m|, 4, 0)
    case Link(_, _, m) => Rank(|m|, 3, 0)
    case Flag(_, _, m) => Rank(|m|, 2, 0)
    case Release(_, _, m) => Rank(|m|, 1, 0)
  }

  lemma Fewer(a: set<nat>, b: set<nat>)
    requires a <= b
    ensures |a| <= |b|
    ensures a != b ==> |a| < |b|
  {
    assert b == a + (b - a);
  }

  /** A round that ends has made the set of missing ancestors strictly smaller. */
  lemma RoundProgress(w: World, s: State, s': State, t: Thread)
    requires Sound(w) && Inv(w, s) && ReleaseStep(w, s, s', t)
    ensures s.pcs[t].target < |w.parent| && Missing(w, s', s.pcs[t].target) < s.pcs[t].missing
  {
    assert ThreadOk(w, s, t);
    var pc := s.pcs[t];
    assert pc.next in pc.missing && pc.next !in Missing(w, s', pc.target);
    assert Missing(w, s', pc.target) <= Missing(w, s, pc.target);
  }

  lemma LooksDescend(w: World, s: State, s': State, t: Thread)
    requires Sound(w)
    requires SearchStep(w, s, s', t) || Acquire(w, s, s', t) || Recheck(w, s, s', t)
    requires OnItsWay(w, s, s.pcs[t]) && t in s'.pcs && OnItsWay(w, s', s'.pcs[t])
    ensures LowerRank(RankOf(w, s', s'.pcs[t]), RankOf(w, s, s.pcs[t]))
  {
  }

  lemma CopyDescends(w: World, s: State, s': State, t: Thread)
    requires Sound(w)
    requires CopyStep(w, s, s', t) || Fails(w, s, s', t) || InstallStep(w, s, s', t)
    requires OnItsWay(w, s, s.pcs[t]) && t in s'.pcs && OnItsWay(w, s', s'.pcs[t])
    requires |s.pcs[t].missing| > 0
    ensures LowerRank(RankOf(w, s', s'.pcs[t]), RankOf(w, s, s.pcs[t]))
  {
  }

  lemma RestDescends(w: World, s: State, s': State, t: Thread)
    requires Sound(w)
    requires UpdateStep(w, s, s', t) || LinkStep(w, s, s', t) || FlagStep(w, s, s', t)
    requires OnItsWay(w, s, s.pcs[t]) && t in s'.pcs && OnItsWay(w, s', s'.pcs[t])
    ensures LowerRank(RankOf(w, s', s'.pcs[t]), RankOf(w, s, s.pcs[t]))
  {
  }

  lemma StepDescends(w: World, s: State, s': State, t: Thread)
    requires Sound(w) && ThreadStep(w, s, s', t) && !Start(w, s, s', t)
    requires OnItsWay(w, s, s.pcs[t]) && t in s'.pcs && OnItsWay(w, s', s'.pcs[t])
    requires ReleaseStep(w, s, s', t) ==> |Missing(w, s', s.pcs[t].target)| < |s.pcs[t].missing|
    ensures LowerRank(RankOf(w, s', s'.pcs[t]), RankOf(w, s, s.pcs[t]))
  {
    var pc := s.pcs[t];
    if GivesUp(w, s, s', t) {
      assert pc.next in pc.missing;
    } else if pc.Search? || pc.Want? || pc.Held? {
      LooksDescend(w, s, s', t);
    } else if pc.Copy? || Fails(w, s, s', t) {
      assert pc.next in pc.missing;
      CopyDescends(w, s, s', t);
    } else if InRound(pc) && !pc.Release? {
      RestDescends(w, s, s', t);
    }
  }

  /** A thread that was at pc in s is nearer to its end at pc' in s'. */
  ghost predicate Nearer(w: World, s: State, pc: PC, s': State, pc': PC)
    requires Sound(w)
  {
    OnItsWay(w, s, pc) && OnItsWay(w, s', pc') && LowerRank(RankOf(w, s', pc'), RankOf(w, s, pc))
  }

  lemma BothOnTheirWay(w: World, s: State, s': State, t: Thread)
    requires Sound(w) && Inv(w, s) && ThreadStep(w, s, s', t)
    ensures t in s.pcs && t in s'.pcs && OnItsWay(w, s, s.pcs[t]) && OnItsWay(w, s', s'.pcs[t])
  {
    StepKeeps(w, s, s');
    assert ThreadOk(w, s, t) && ThreadOk(w, s', t);
  }

  lemma ThatWasRelease(w: World, s: State, s': State, t: Thread)
    requires Sound(w) && Inv(w, s) && ReleaseStep(w, s, s', t)
    ensures s.pcs[t].target < |w.parent| && |Missing(w, s', s.pcs[t].target)| < |s.pcs[t].missing|
  {
    RoundProgress(w, s, s', t);
    Fewer(Missing(w, s', s.pcs[t].target), s.pcs[t].missing);
  }

  /** Every step a thread takes after it has started brings it nearer to its end, and no
      step of another thread or a writer takes it further away: the loop terminates. */
  lemma EveryThreadEnds(w: World, s: State, s': State, t: Thread)
    requires Sound(w) && Inv(w, s) && ThreadStep(w, s, s', t) && !Start(w, s, s', t)
    ensures t in s.pcs && t in s'.pcs && Nearer(w, s, s.pcs[t], s', s'.pcs[t])
  {
    BothOnTheirWay(w, s, s', t);
    if ReleaseStep(w, s, s', t) {
      ThatWasRelease(w, s, s', t);
    }
    StepDescends(w, s, s', t);
  }

  lemma NothingTakenBack(w: World, s: State, s': State)
    requires Sound(w) && Step(w, s, s')
    ensures Later(s, s')
  {
    if t :| ThreadStep(w, s, s', t) && t in s.pcs {
      if InRound(s.pcs[t]) && Locked(s.pcs[t]) {
        LockedTakesNothingBack(w, s, s', t);
      }
    }
  }

  lemma LockedTakesNothingBack(w: World, s: State, s': State, t: Thread)
    requires Sound(w) && ThreadStep(w, s, s', t) && Locked(s.pcs[t])
    ensures Later(s, s')
  {
  }

  lemma NobodyIsSetBack(w: World, s: State, s': State, u: Thread)
    requires Sound(w) && Inv(w, s) && Step(w, s, s') && u in s.pcs && u in s'.pcs && s'.pcs[u] == s.pcs[u]
    ensures OnItsWay(w, s, s.pcs[u]) && OnItsWay(w, s', s.pcs[u])
    ensures !LowerRank(RankOf(w, s, s.pcs[u]), RankOf(w, s', s.pcs[u]))
  {
    assert ThreadOk(w, s, u);
    NothingTakenBack(w, s, s');
    StillOnItsWay(w, s, s', s.pcs[u]);
    RanksFall(w, s, s', s.pcs[u]);
  }

  lemma RanksFall(w: World, s: State, s': State, pc: PC)
    requires Sound(w) && Later(s, s') && OnItsWay(w, s, pc) && OnItsWay(w, s', pc)
    ensures !LowerRank(RankOf(w, s, pc), RankOf(w, s', pc))
  {
    if pc.Check? {
      assert Missing(w, s', pc.target) <= Missing(w, s, pc.target);
      Fewer(Missing(w, s', pc.target), Missing(w, s, pc.target));
    }
  }

  // ------------------------------------------------------------- every run comes to an end

  function Sizes(lower: seq<Data>): nat {
    if lower == [] then 0 else |lower[0]| + Sizes(lower[1..])
  }

  lemma {:induction false} SizeBelow(lower: seq<Data>, i: nat)
    requires i < |lower|
    ensures |lower[i]| <= Sizes(lower)
  {
    if i > 0 {
      SizeBelow(lower[1..], i - 1);
    }
  }

  /** More than is ever left within one phase. */
  function Unit(w: World): nat {
    |w.parent| + Sizes(w.lower) + 1
  }

  function Weight(r: Rank, unit: nat): nat {
    (r.missing * 10 + r.phase) * unit + r.left
  }

  predicate Within(r: Rank, unit: nat) {
    r.phase < 10 && r.left < unit
  }

  lemma Heavier(k: nat, l: nat, unit: nat)
    requires k < l
    ensures k * unit + unit <= l * unit
  {
    var more: nat := l - k - 1;
    calc {
      l * unit;
      (k + 1 + more) * unit;
      k * unit + unit + more * unit;
    }
  }

  /** The order of ranks is the order of their weights. */
  lemma WeightsFall(a: Rank, b: Rank, unit: nat)
    requires Within(a, unit) && Within(b, unit)
    ensures LowerRank(a, b) ==> Weight(a, unit) < Weight(b, unit)
    ensures !LowerRank(b, a) ==> Weight(a, unit) <= Weight(b, unit)
  {
    var k, l := a.missing * 10 + a.phase, b.missing * 10 + b.phase;
    if k < l {
      Heavier(k, l, unit);
    } else if l < k {
      Heavier(l, k, unit);
    }
  }

  lemma RankWithin(w: World, s: State, pc: PC)
    requires Sound(w) && OnItsWay(w, s, pc)
    ensures Within(RankOf(w, s, pc), Unit(w))
  {
    if pc.Copy? {
      SizeBelow(w.lower, w.inode[pc.next]);
    }
  }

  /** What is left to do for the thread. */
  ghost function Effort(w: World, s: State, t: Thread): nat
    requires Sound(w) && Inv(w, s) && t in s.pcs
  {
    assert ThreadOk(w, s, t);
    Weight(RankOf(w, s, s.pcs[t]), Unit(w))
  }

  ghost function TotalEffort(w: World, s: State, ts: set<Thread>): nat
    requires Sound(w) && Inv(w, s) && ts <= s.pcs.Keys
    decreases ts
  {
    if ts == {} then 0
    else
      var t :| t in ts;
      Effort(w, s, t) + TotalEffort(w, s, ts - {t})
  }

  lemma {:induction false} TakeOut(w: World, s: State, ts: set<Thread>, t: Thread)
    requires Sound(w) && Inv(w, s) && ts <= s.pcs.Keys && t in ts
    ensures TotalEffort(w, s, ts) == Effort(w, s, t) + TotalEffort(w, s, ts - {t})
    decreases ts
  {
    var first :| first in ts && TotalEffort(w, s, ts) == Effort(w, s, first) + TotalEffort(w, s, ts - {first});
    if first != t {
      TakeOut(w, s, ts - {first}, t);
      TakeOut(w, s, ts - {t}, first);
      assert ts - {first} - {t} == ts - {t} - {first};
    }
  }

  /** The step of a thread that had started leaves less to do for it, and no more for another. */
  lemma StepTakesEffort(w: World, s: State, s': State, t: Thread, u: Thread)
    requires Sound(w) && Inv(w, s) && Inv(w, s') && ThreadStep(w, s, s', t) && !Start(w, s, s', t)
    requires u in s.pcs && u in s'.pcs && (u != t ==> s'.pcs[u] == s.pcs[u])
    ensures Effort(w, s', u) <= Effort(w, s, u) && (u == t ==> Effort(w, s', u) < Effort(w, s, u))
  {
    assert ThreadOk(w, s, u) && ThreadOk(w, s', u);
    RankWithin(w, s, s.pcs[u]);
    RankWithin(w, s', s'.pcs[u]);
    WeightsFall(RankOf(w, s', s'.pcs[u]), RankOf(w, s, s.pcs[u]), Unit(w));
    if u == t {
      EveryThreadEnds(w, s, s', t);
    } else {
      NobodyIsSetBack(w, s, s', u);
    }
  }

  lemma OneThreadMoves(w: World, s: State, s': State, t: Thread)
    requires Sound(w) && ThreadStep(w, s, s', t)
    ensures t in s.pcs && s'.pcs.Keys == s.pcs.Keys && forall u :: u in s.pcs && u != t ==> s'.pcs[u] == s.pcs[u]
  {
  }

  lemma {:induction false} TotalFalls(w: World, s: State, s': State, t: Thread, ts: set<Thread>)
    requires Sound(w) && Inv(w, s) && Inv(w, s') && ThreadStep(w, s, s', t) && !Start(w, s, s', t)
    requires s'.pcs.Keys == s.pcs.Keys && forall u :: u in s.pcs && u != t ==> s'.pcs[u] == s.pcs[u]
    requires ts <= s.pcs.Keys
    ensures TotalEffort(w, s', ts) <= TotalEffort(w, s, ts) - (if t in ts then 1 else 0)
    decreases ts
  {
    if ts != {} {
      var u :| u in ts;
      TakeOut(w, s, ts, u);
      TakeOut(w, s', ts, u);
      StepTakesEffort(w, s, s', t, u);
      TotalFalls(w, s, s', t, ts - {u});
    }
  }

  /** A run in which nobody starts, of the steps of any threads in any order. */
  ghost predicate IsWork(w: World, run: seq<State>, who: seq<Thread>)
    requires Sound(w)
  {
    && |run| == |who| + 1
    && forall n :: 0 <= n < |who| ==> ThreadStep(w, run[n], run[n + 1], who[n]) && !Start(w, run[n], run[n + 1], who[n])
  }

  /** However the threads that have started are interleaved and whichever of them fail, they come
      to an end: there are no more steps than there was to do; and once none of them can go on,
      each is done or has given up. */
  lemma {:induction false} EveryRunEnds(w: World, run: seq<State>, who: seq<Thread>)
    requires Sound(w) && IsWork(w, run, who) && Inv(w, run[0])
    ensures |who| <= TotalEffort(w, run[0], run[0].pcs.Keys)
    ensures var last := run[|who|];
            (forall u :: !CanProceed(w, last, u)) ==>
            forall t :: t in last.pcs ==> last.pcs[t].Done? || last.pcs[t].Idle?
    decreases |who|
  {
    if who == [] {
      forall t | t in run[0].pcs && forall u :: !CanProceed(w, run[0], u)
        ensures run[0].pcs[t].Done? || run[0].pcs[t].Idle?
      {
        NobodyIsLeft(w, run[0], t);
      }
    } else {
      StepKeeps(w, run[0], run[1]);
      OneThreadMoves(w, run[0], run[1], who[0]);
      TotalFalls(w, run[0], run[1], who[0], run[0].pcs.Keys);
      EveryRunEnds(w, run[1..], who[1..]);
    }
  }

  // ------------------------------------------------------------- who finishes

  /** A thread that has started gives up only by giving up or failing, and what it has to copy up
      stays the same. */
  lemma OnlyThenIdle(w: World, s: State, s': State, t: Thread)
    requires Sound(w) && ThreadStep(w, s, s', t) && t in s.pcs && !s.pcs[t].Idle? && t in s'.pcs
    ensures s'.pcs[t].Idle? <==> GivesUp(w, s, s', t) || Fails(w, s, s', t)
    ensures !s'.pcs[t].Idle? ==> s'.pcs[t].target == s.pcs[t].target
  {
  }

  /** No step of the thread in the run is a failure, and it never gives up. */
  ghost predicate KeepsAtIt(w: World, run: seq<State>, who: seq<Thread>, t: Thread)
    requires |run| == |who| + 1
  {
    forall n :: 0 <= n < |who| && who[n] == t ==>
      !GivesUp(w, run[n], run[n + 1], t) && !Fails(w, run[n], run[n + 1], t)
  }

  lemma {:induction false} StaysAtIt(w: World, run: seq<State>, who: seq<Thread>, t: Thread)
    requires Sound(w) && IsWork(w, run, who) && Inv(w, run[0]) && KeepsAtIt(w, run, who, t)
    requires t in run[0].pcs && !run[0].pcs[t].Idle?
    ensures var last := run[|who|];
            Inv(w, last) && t in last.pcs && !last.pcs[t].Idle? && last.pcs[t].target == run[0].pcs[t].target
    decreases |who|
  {
    if who != [] {
      StepKeeps(w, run[0], run[1]);
      OneThreadMoves(w, run[0], run[1], who[0]);
      if who[0] == t {
        OnlyThenIdle(w, run[0], run[1], t);
      }
      StaysAtIt(w, run[1..], who[1..], t);
    }
  }

  /** However the threads are interleaved and whichever of the others fail, once none of them can
      go on, a thread that has never failed or given up is done, and its target has been copied up
      with its whole path. */
  lemma EveryThreadFinishes(w: World, run: seq<State>, who: seq<Thread>, t: Thread)
    requires Sound(w) && IsWork(w, run, who) && Inv(w, run[0]) && KeepsAtIt(w, run, who, t)
    requires t in run[0].pcs && !run[0].pcs[t].Idle? && forall u :: !CanProceed(w, run[|who|], u)
    ensures var last, d := run[|who|], run[0].pcs[t].target;
            t in last.pcs && last.pcs[t] == Done(d) && Finished(w, last, d)
  {
    var last, d := run[|who|], run[0].pcs[t].target;
    StaysAtIt(w, run, who, t);
    NobodyIsLeft(w, last, t);
    assert ThreadOk(w, last, t) && NameOk(w, last, d);
    NamesReachUp(w, last, d);
  }
}
