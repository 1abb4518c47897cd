// The worker threads that drain the queue of a promotion, in any interleaving.

module PromoteWorkers {
  import opened Tree
  import opened Promote

  /** A worker asks for a task, promotes the files of one, or has stopped. */
  datatype Worker = Ready | Working(left: seq<Path>) | Stopped

  /** promoted counts how often each file was. */
  datatype State = State(next: nat, workers: seq<Worker>, promoted: multiset<Path>)

  /** Taking the next index is one step under the lock of the queue. */
  ghost predicate TakeStep(tasks: seq<Task>, s: State, s': State, w: nat) {
    && w < |s.workers| && s.workers[w].Ready?
    && var worker := if s.next < |tasks|
                     then Working(Visit(tasks[s.next].path, tasks[s.next].len, tasks[s.next].item)) else Stopped;
    s' == s.(next := s.next + 1, workers := s.workers[w := worker])
  }

  ghost predicate PromoteOne(s: State, s': State, w: nat) {
    && w < |s.workers| && s.workers[w].Working? && s.workers[w].left != []
    && s' == s.(workers := s.workers[w := Working(s.workers[w].left[1..])],
                promoted := s.promoted + multiset{s.workers[w].left[0]})
  }

  ghost predicate Finish(s: State, s': State, w: nat) {
    && w < |s.workers| && s.workers[w].Working? && s.workers[w].left == []
    && s' == s.(workers := s.workers[w := Ready])
  }

  ghost predicate Step(tasks: seq<Task>, s: State, s': State, w: nat) {
    TakeStep(tasks, s, s', w) || PromoteOne(s, s', w) || Finish(s, s', w)
  }

  ghost predicate Init(s: State) {
    && s.next == 0 && s.workers != [] && s.promoted == multiset{}
    && forall w :: 0 <= w < |s.workers| ==> s.workers[w].Ready?
  }

  ghost predicate IsRun(tasks: seq<Task>, run: seq<State>, who: seq<nat>) {
    && |run| == |who| + 1 && Init(run[0])
    && forall n :: 0 <= n < |who| ==> Step(tasks, run[n], run[n + 1], who[n])
  }

  // ----------------------------------------------------- nothing is lost or done twice

  /** How often a file is in a list. */
  function Times(s: seq<Path>, x: Path): nat {
    multiset(s)[x]
  }

  lemma TimesSum(a: seq<Path>, b: seq<Path>, x: Path)
    ensures Times(a + b, x) == Times(a, x) + Times(b, x)
  {
  }

  function Hand(w: Worker, x: Path): nat {
    if w.Working? then Times(w.left, x) else 0
  }

  function InHand(ws: seq<Worker>, x: Path): nat {
    if ws == [] then 0 else Hand(ws[0], x) + InHand(ws[1..], x)
  }

  lemma {:induction false} InHandUpdate(ws: seq<Worker>, w: nat, worker: Worker, x: Path)
    requires w < |ws|
    ensures InHand(ws[w := worker], x) + Hand(ws[w], x) == InHand(ws, x) + Hand(worker, x)
  {
    if w == 0 {
      assert ws[w := worker][1..] == ws[1..];
    } else {
      InHandUpdate(ws[1..], w - 1, worker, x);
      assert ws[w := worker][1..] == ws[1..][w - 1 := worker];
    }
  }

  function ToCome(tasks: seq<Task>, next: nat): seq<Path> {
    if next < |tasks| then VisitTasks(tasks[next..]) else []
  }

  /** What is promoted, what workers hold and what is still queued is always everything. */
  ghost predicate Balanced(tasks: seq<Task>, s: State, x: Path) {
    && s.promoted[x] + InHand(s.workers, x) + Times(ToCome(tasks, s.next), x) == Times(VisitTasks(tasks), x)
    && s.workers != []
    && forall w :: 0 <= w < |s.workers| && s.workers[w].Stopped? ==> s.next >= |tasks|
  }

  lemma {:induction false} NothingInHand(ws: seq<Worker>, x: Path)
    requires forall w :: 0 <= w < |ws| ==> !ws[w].Working?
    ensures InHand(ws, x) == 0
  {
    if ws != [] {
      assert forall w :: 0 <= w < |ws[1..]| ==> ws[1..][w] == ws[w + 1];
      NothingInHand(ws[1..], x);
    }
  }

  lemma TakeKeeps(tasks: seq<Task>, s: State, s': State, w: nat, x: Path)
    requires Balanced(tasks, s, x) && TakeStep(tasks, s, s', w)
    ensures Balanced(tasks, s', x)
  {
    InHandUpdate(s.workers, w, s'.workers[w], x);
    if s.next < |tasks| {
      NextToCome(tasks, s.next, x);
    }
  }

  lemma NextToCome(tasks: seq<Task>, next: nat, x: Path)
    requires next < |tasks|
    ensures Times(ToCome(tasks, next), x)
         == Times(Visit(tasks[next].path, tasks[next].len, tasks[next].item), x) + Times(ToCome(tasks, next + 1), x)
  {
    var rest := tasks[next..];
    assert rest[0] == tasks[next] && rest[1..] == tasks[next + 1..];
    TimesSum(Visit(rest[0].path, rest[0].len, rest[0].item), VisitTasks(rest[1..]), x);
  }

  lemma WorkKeeps(tasks: seq<Task>, s: State, s': State, w: nat, x: Path)
    requires Balanced(tasks, s, x) && (PromoteOne(s, s', w) || Finish(s, s', w))
    ensures Balanced(tasks, s', x)
  {
    var left := s.workers[w].left;
    InHandUpdate(s.workers, w, s'.workers[w], x);
    if left != [] {
      assert left == [left[0]] + left[1..];
      TimesSum([left[0]], left[1..], x);
    }
  }

  lemma {:induction false} RunKeeps(tasks: seq<Task>, run: seq<State>, who: seq<nat>, x: Path)
    requires IsRun(tasks, run, who)
    ensures Balanced(tasks, run[|who|], x)
    decreases |who|
  {
    if who == [] {
      NothingInHand(run[0].workers, x);
      assert tasks[0..] == tasks;
    } else {
      var n := |who| - 1;
      RunKeeps(tasks, run[..n + 1], who[..n], x);
      assert Step(tasks, run[n], run[n + 1], who[n]);
      if TakeStep(tasks, run[n], run[n + 1], who[n]) {
        TakeKeeps(tasks, run[n], run[n + 1], who[n], x);
      } else {
        WorkKeeps(tasks, run[n], run[n + 1], who[n], x);
      }
    }
  }

  /** However the workers were interleaved: no file is ever promoted twice, and when all have
      stopped every file of the tree that is to be promoted has been, once, and no other. */
  lemma PromotedExactlyOnce(root: Path, len: nat, es: Entries, maxDepth: nat, run: seq<State>, who: seq<nat>, q: Path)
    requires SoundEntries(es) && q != [] && IsRun(TasksAll(root, len, es, 0, maxDepth), run, who)
    ensures run[|who|].promoted[root + q] <= if Wanted(Folder(es), len, q) then 1 else 0
    ensures (forall w :: 0 <= w < |run[|who|].workers| ==> run[|who|].workers[w].Stopped?) ==>
        run[|who|].promoted[root + q] == if Wanted(Folder(es), len, q) then 1 else 0
  {
    var tasks := TasksAll(root, len, es, 0, maxDepth);
    var s := run[|who|];
    RunKeeps(tasks, run, who, root + q);
    AllTasksCover(root, len, es, 0, maxDepth);
    AllVisitedOnce(root, len, es, q);
    if forall w :: 0 <= w < |s.workers| ==> s.workers[w].Stopped? {
      NothingInHand(s.workers, root + q);
      assert s.workers[0].Stopped?;
    }
  }

  // -------------------------------------------------------------------- everybody stops

  function Share(w: Worker): nat {
    match w
    case Stopped => 0
    case Ready => 1
    case Working(left) => |left| + 2
  }

  function Effort(ws: seq<Worker>): nat {
    if ws == [] then 0 else Share(ws[0]) + Effort(ws[1..])
  }

  lemma {:induction false} EffortUpdate(ws: seq<Worker>, w: nat, worker: Worker)
    requires w < |ws|
    ensures Effort(ws[w := worker]) + Share(ws[w]) == Effort(ws) + Share(worker)
  {
    if w == 0 {
      assert ws[w := worker][1..] == ws[1..];
    } else {
      EffortUpdate(ws[1..], w - 1, worker);
      assert ws[w := worker][1..] == ws[1..][w - 1 := worker];
    }
  }

  function Queued(tasks: seq<Task>, s: State): nat {
    if s.next < |tasks| then |tasks| - s.next else 0
  }

  /** Every step leaves fewer tasks in the queue, or as many and less to do: no run goes on for
      ever. */
  lemma StepsRunOut(tasks: seq<Task>, s: State, s': State, w: nat)
    requires Step(tasks, s, s', w)
    ensures Queued(tasks, s') < Queued(tasks, s)
         || (Queued(tasks, s') == Queued(tasks, s) && Effort(s'.workers) < Effort(s.workers))
  {
    EffortUpdate(s.workers, w, s'.workers[w]);
  }

  /** A worker that has not stopped can always go on, whatever the others do. */
  lemma NobodyIsStuck(tasks: seq<Task>, s: State, w: nat)
    requires w < |s.workers| && !s.workers[w].Stopped?
    ensures exists s' :: Step(tasks, s, s', w)
  {
    var s' := match s.workers[w]
      case Ready =>
        var worker := if s.next < |tasks|
          then Working(Visit(tasks[s.next].path, tasks[s.next].len, tasks[s.next].item)) else Stopped;
        s.(next := s.next + 1, workers := s.workers[w := worker])
      case Working(left) =>
        if left == [] then s.(workers := s.workers[w := Ready])
        else s.(workers := s.workers[w := Working(left[1..])], promoted := s.promoted + multiset{left[0]})
      case Stopped => s;
    assert Step(tasks, s, s', w);
  }
}
