// Promoting a tree: it is split into subtrees, which a queue hands to worker threads.

module Promote {
  import opened Seqs
  import opened Tree

  /** PROMOTE_MAX_FILE_SIZE */
  const MAX_FILE_SIZE: nat := 100 * 1024 * 1024
  const PATH_SIZE: nat := 4096
  /** TASK_QUEUE_INITIAL, TASK_ENQUEUE_LEVELS */
  const INITIAL_CAPACITY: nat := 4096
  const ENQUEUE_LEVELS: nat := 6

  /** Folder holds what readdir returns, without "." and "..". */
  datatype Item = File(size: nat) | Folder(entries: Entries)
  datatype Entries = NoMore | Entry(name: Name, item: Item, rest: Entries)

  function Names(es: Entries): set<Name> {
    match es
    case NoMore => {}
    case Entry(name, _, rest) => {name} + Names(rest)
  }

  /** In a directory each name is there once. */
  ghost predicate Sound(it: Item) {
    it.Folder? ==> SoundEntries(it.entries)
  }

  ghost predicate SoundEntries(es: Entries) {
    es.Entry? ==> es.name !in Names(es.rest) && Sound(es.item) && SoundEntries(es.rest)
  }

  /** An entry is left out if it is ".git", or its path is too long for the buffer. */
  predicate Skipped(len: nat, name: Name) {
    name == ".git" || len + 1 + |name| >= PATH_SIZE
  }

  // -------------------------------------------------------------------- what is wanted

  function Find(es: Entries, name: Name): Option<Item> {
    match es
    case NoMore => None
    case Entry(n, item, rest) => if n == name then Some(item) else Find(rest, name)
  }

  function ItemAt(it: Item, q: Path): Option<Item>
    decreases |q|
  {
    if q == [] then Some(it)
    else if it.File? then None
    else
      match Find(it.entries, q[0])
      case None => None
      case Some(item) => ItemAt(item, q[1..])
  }

  function TextLength(q: Path): nat {
    if q == [] then 0 else 1 + |q[0]| + TextLength(q[1..])
  }

  /** A file below here that is to be promoted: not too big, not inside a ".git". */
  ghost predicate Wanted(it: Item, len: nat, q: Path) {
    && ItemAt(it, q).Some? && ItemAt(it, q).value.File? && ItemAt(it, q).value.size <= MAX_FILE_SIZE
    && ".git" !in q
    && (q != [] ==> len + TextLength(q) < PATH_SIZE)
  }

  // -------------------------------------------------------------- promoting one subtree

  /** The files promote_tree_opendir promotes, in its order; len is the length of the text
      of the path. */
  function Visit(p: Path, len: nat, it: Item): seq<Path>
    decreases it
  {
    match it
    case File(size) => if size > MAX_FILE_SIZE then [] else [p]
    case Folder(es) => VisitAll(p, len, es)
  }

  function VisitAll(p: Path, len: nat, es: Entries): seq<Path>
    decreases es
  {
    match es
    case NoMore => []
    case Entry(name, item, rest) =>
      (if Skipped(len, name) then [] else Visit(p + [name], len + 1 + |name|, item)) + VisitAll(p, len, rest)
  }

  class Log {
    var promoted: seq<Path>

    constructor ()
      ensures promoted == []
    {
      promoted := [];
    }
  }

  /** promote_tree_opendir */
  method PromoteTree(p: Path, len: nat, it: Item, log: Log)
    modifies log
    ensures log.promoted == old(log.promoted) + Visit(p, len, it)
    decreases it
  {
    if it.File? {
      if it.size > MAX_FILE_SIZE {
        return;
      }
      log.promoted := log.promoted + [p];
      return;
    }
    var es := it.entries;
    ghost var seen: seq<Path> := [];
    while es.Entry?
      invariant es == it.entries || es < it.entries
      invariant log.promoted == old(log.promoted) + seen && seen + VisitAll(p, len, es) == Visit(p, len, it)
      decreases es
    {
      ghost var more: seq<Path> := [];
      if !Skipped(len, es.name) {
        more := Visit(p + [es.name], len + 1 + |es.name|, es.item);
        if es.item.Folder? {
          PromoteTree(p + [es.name], len + 1 + |es.name|, es.item, log);
        } else if es.item.size <= MAX_FILE_SIZE {
          log.promoted := log.promoted + [p + [es.name]];
        }
      }
      Regroup(seen, more, VisitAll(p, len, es.rest));
      Regroup(old(log.promoted), seen, more);
      seen := seen + more;
      es := es.rest;
    }
  }

  lemma Extend(p: Path, q: Path)
    requires q != []
    ensures p + q == (p + [q[0]]) + q[1..]
  {
    assert q == [q[0]] + q[1..];
  }

  /** Everything visited is at or below the path. */
  lemma {:induction false} VisitBelow(p: Path, len: nat, it: Item, x: Path)
    requires x in Visit(p, len, it)
    ensures p <= x && (it.Folder? ==> |x| > |p| && x[|p|] in Names(it.entries))
    decreases it
  {
    if it.Folder? {
      VisitAllBelow(p, len, it.entries, x);
    }
  }

  lemma {:induction false} VisitAllBelow(p: Path, len: nat, es: Entries, x: Path)
    requires x in VisitAll(p, len, es)
    ensures p < x && x[|p|] in Names(es)
    decreases es
  {
    if !Skipped(len, es.name) && x in Visit(p + [es.name], len + 1 + |es.name|, es.item) {
      VisitBelow(p + [es.name], len + 1 + |es.name|, es.item, x);
    } else {
      VisitAllBelow(p, len, es.rest, x);
    }
  }

  lemma {:induction false} FindIn(es: Entries, name: Name)
    ensures Find(es, name).Some? <==> name in Names(es)
    decreases es
  {
    if es.Entry? {
      FindIn(es.rest, name);
    }
  }

  /** Each file is visited once if it is wanted, and not at all otherwise. */
  lemma {:induction false} VisitedOnce(p: Path, len: nat, it: Item, q: Path)
    requires Sound(it)
    ensures multiset(Visit(p, len, it))[p + q] == if Wanted(it, len, q) then 1 else 0
    decreases it, 1
  {
    match it
    case File(_) =>
      assert p + q == p <==> q == [];
    case Folder(es) =>
      if q == [] {
        if p + q in Visit(p, len, it) {
          VisitBelow(p, len, it, p + q);
        }
      } else {
        AllVisitedOnce(p, len, es, q);
      }
  }

  lemma {:induction false} AllVisitedOnce(p: Path, len: nat, es: Entries, q: Path)
    requires SoundEntries(es) && q != []
    ensures multiset(VisitAll(p, len, es))[p + q] == if Wanted(Folder(es), len, q) then 1 else 0
    decreases es, 1
  {
    if es.Entry? {
      var here := if Skipped(len, es.name) then [] else Visit(p + [es.name], len + 1 + |es.name|, es.item);
      Counts(here, VisitAll(p, len, es.rest), p + q);
      AllVisitedOnce(p, len, es.rest, q);
      if Skipped(len, es.name) {
        SkippedNotWanted(es, len, q);
      } else {
        HereVisitedOnce(p, len, es, q);
      }
    }
  }

  lemma Counts(a: seq<Path>, b: seq<Path>, x: Path)
    ensures multiset(a + b)[x] == multiset(a)[x] + multiset(b)[x]
  {
  }

  lemma FirstName(p: Path, name: Name, q: Path)
    requires q != [] && p + [name] <= p + q
    ensures q[0] == name
  {
    assert (p + [name])[|p|] == (p + q)[|p|];
  }

  lemma {:induction false} HereVisitedOnce(p: Path, len: nat, es: Entries, q: Path)
    requires es.Entry? && SoundEntries(es) && q != [] && !Skipped(len, es.name)
    ensures multiset(Visit(p + [es.name], len + 1 + |es.name|, es.item))[p + q]
         == (if Wanted(Folder(es), len, q) then 1 else 0) - (if Wanted(Folder(es.rest), len, q) then 1 else 0)
    decreases es, 0
  {
    var here := Visit(p + [es.name], len + 1 + |es.name|, es.item);
    if q[0] == es.name {
      FindIn(es.rest, q[0]);
      assert ItemAt(Folder(es.rest), q).None?;
      Extend(p, q);
      VisitedOnce(p + [es.name], len + 1 + |es.name|, es.item, q[1..]);
      WantedBelow(es, len, q);
    } else {
      assert ItemAt(Folder(es), q) == ItemAt(Folder(es.rest), q);
      if p + q in here {
        VisitBelow(p + [es.name], len + 1 + |es.name|, es.item, p + q);
        FirstName(p, es.name, q);
      }
    }
  }

  lemma SkippedNotWanted(es: Entries, len: nat, q: Path)
    requires es.Entry? && SoundEntries(es) && q != [] && Skipped(len, es.name)
    ensures Wanted(Folder(es), len, q) <==> Wanted(Folder(es.rest), len, q)
  {
    if q[0] == es.name {
      FindIn(es.rest, q[0]);
      assert ItemAt(Folder(es.rest), q).None?;
      assert TextLength(q) >= 1 + |q[0]|;
    } else {
      assert ItemAt(Folder(es), q) == ItemAt(Folder(es.rest), q);
    }
  }

  lemma WantedBelow(es: Entries, len: nat, q: Path)
    requires es.Entry? && q != [] && q[0] == es.name && !Skipped(len, es.name)
    ensures Wanted(Folder(es), len, q) <==> Wanted(es.item, len + 1 + |es.name|, q[1..])
  {
    assert q == [q[0]] + q[1..];
    assert ItemAt(Folder(es), q) == ItemAt(es.item, q[1..]);
  }

  // -------------------------------------------------------------------- splitting the work

  datatype Task = Task(path: Path, len: nat, item: Item)

  function VisitTasks(ts: seq<Task>): seq<Path> {
    if ts == [] then [] else Visit(ts[0].path, ts[0].len, ts[0].item) + VisitTasks(ts[1..])
  }

  /** The tasks enqueue_promote_tasks pushes. */
  function Tasks(p: Path, len: nat, it: Item, depth: nat, maxDepth: nat): (ts: seq<Task>)
    ensures ts != []
    decreases it, 1
  {
    if it.File? || depth >= maxDepth then [Task(p, len, it)]
    else
      var ts := TasksAll(p, len, it.entries, depth, maxDepth);
      if ts == [] then [Task(p, len, it)] else ts
  }

  function TasksAll(p: Path, len: nat, es: Entries, depth: nat, maxDepth: nat): seq<Task>
    decreases es, 0
  {
    match es
    case NoMore => []
    case Entry(name, item, rest) =>
      (if Skipped(len, name) then [] else Tasks(p + [name], len + 1 + |name|, item, depth + 1, maxDepth))
      + TasksAll(p, len, rest, depth, maxDepth)
  }

  class TaskQueue {
    var tasks: array<Task>
    var total: nat
    var next: nat

    ghost predicate Valid() reads this {
      total <= tasks.Length
    }

    ghost function Contents(): seq<Task>
      requires Valid()
      reads this, tasks
    {
      tasks[..total]
    }

    constructor ()
      ensures Valid() && Contents() == [] && next == 0 && fresh(tasks)
    {
      tasks := new Task[0];
      total, next := 0, 0;
    }

    /** task_queue_push */
    method Push(t: Task)
      requires Valid()
      modifies this`tasks, this`total, tasks
      ensures Valid() && (tasks == old(tasks) || fresh(tasks))
      ensures Contents() == old(Contents()) + [t]
    {
      if total >= tasks.Length {
        var capacity := if tasks.Length != 0 then tasks.Length * 2 else INITIAL_CAPACITY;
        var kept := tasks[..total];
        tasks := new Task[capacity](i => if 0 <= i < |kept| then kept[i] else t);
      }
      tasks[total] := t;
      total := total + 1;
    }

    /** task_queue_next */
    method Next() returns (index: int)
      requires Valid()
      modifies this`next
      ensures next == old(next) + 1
      ensures index == if old(next) < total then old(next) else -1
    {
      index := next;
      next := next + 1;
      index := if index < total then index else -1;
    }
  }

  /** enqueue_promote_tasks */
  method Enqueue(queue: TaskQueue, p: Path, len: nat, it: Item, depth: nat, maxDepth: nat) returns (pushed: nat)
    requires queue.Valid()
    modifies queue`tasks, queue`total, queue.tasks
    ensures queue.Valid() && (queue.tasks == old(queue.tasks) || fresh(queue.tasks))
    ensures queue.Contents() == old(queue.Contents()) + Tasks(p, len, it, depth, maxDepth)
    ensures pushed == |Tasks(p, len, it, depth, maxDepth)|
    decreases it, 1
  {
    if it.File? || depth >= maxDepth {
      queue.Push(Task(p, len, it));
      return 1;
    }
    pushed := EnqueueEntries(queue, p, len, it.entries, depth, maxDepth);
    if pushed == 0 {
      queue.Push(Task(p, len, it));
      pushed := 1;
    }
  }

  /** The directory loop of enqueue_promote_tasks, and of promote_mountpoint_thread. */
  method EnqueueEntries(queue: TaskQueue, p: Path, len: nat, entries: Entries, depth: nat, maxDepth: nat)
    returns (pushed: nat)
    requires queue.Valid()
    modifies queue`tasks, queue`total, queue.tasks
    ensures queue.Valid() && (queue.tasks == old(queue.tasks) || fresh(queue.tasks))
    ensures queue.Contents() == old(queue.Contents()) + TasksAll(p, len, entries, depth, maxDepth)
    ensures pushed == |TasksAll(p, len, entries, depth, maxDepth)|
    decreases entries, 0
  {
    var es := entries;
    pushed := 0;
    ghost var start, done: seq<Task> := queue.Contents(), [];
    while es.Entry?
      invariant es == entries || es < entries
      invariant queue.Valid() && (queue.tasks == old(queue.tasks) || fresh(queue.tasks))
      invariant queue.Contents() == start + done && pushed == |done|
      invariant done + TasksAll(p, len, es, depth, maxDepth) == TasksAll(p, len, entries, depth, maxDepth)
      decreases es
    {
      ghost var more := TasksOf(p, len, es, depth, maxDepth);
      if !Skipped(len, es.name) {
        var n := Enqueue(queue, p + [es.name], len + 1 + |es.name|, es.item, depth + 1, maxDepth);
        pushed := pushed + n;
      }
      OneMoreEntry(p, len, es, depth, maxDepth, start, done);
      done := done + more;
      es := es.rest;
    }
  }

  /** The tasks of the first entry. */
  function TasksOf(p: Path, len: nat, es: Entries, depth: nat, maxDepth: nat): seq<Task>
    requires es.Entry?
  {
    if Skipped(len, es.name) then []
    else Tasks(p + [es.name], len + 1 + |es.name|, es.item, depth + 1, maxDepth)
  }

  lemma OneMoreEntry(p: Path, len: nat, es: Entries, depth: nat, maxDepth: nat, start: seq<Task>, done: seq<Task>)
    requires es.Entry?
    ensures var more := TasksOf(p, len, es, depth, maxDepth);
            && done + TasksAll(p, len, es, depth, maxDepth)
               == (done + more) + TasksAll(p, len, es.rest, depth, maxDepth)
            && (start + done) + more == start + (done + more)
            && (more == [] ==> done + more == done)
  {
    var more := TasksOf(p, len, es, depth, maxDepth);
    Regroup(done, more, TasksAll(p, len, es.rest, depth, maxDepth));
    Regroup(start, done, more);
  }

  lemma {:induction false} VisitTasksSum(a: seq<Task>, b: seq<Task>)
    ensures VisitTasks(a + b) == VisitTasks(a) + VisitTasks(b)
  {
    if a == [] {
      assert a + b == b;
    } else {
      VisitTasksSum(a[1..], b);
      assert (a + b)[0] == a[0] && (a + b)[1..] == a[1..] + b;
      Regroup(Visit(a[0].path, a[0].len, a[0].item), VisitTasks(a[1..]), VisitTasks(b));
    }
  }

  /** The tasks together visit what one walk over the tree would, in the same order. */
  lemma {:induction false} TasksCover(p: Path, len: nat, it: Item, depth: nat, maxDepth: nat)
    ensures VisitTasks(Tasks(p, len, it, depth, maxDepth)) == Visit(p, len, it)
    decreases it, 1
  {
    if it.Folder? && depth < maxDepth {
      AllTasksCover(p, len, it.entries, depth, maxDepth);
    }
  }

  lemma {:induction false} AllTasksCover(p: Path, len: nat, es: Entries, depth: nat, maxDepth: nat)
    ensures VisitTasks(TasksAll(p, len, es, depth, maxDepth)) == VisitAll(p, len, es)
    decreases es, 0
  {
    if es.Entry? {
      AllTasksCover(p, len, es.rest, depth, maxDepth);
      var here := if Skipped(len, es.name) then []
        else Tasks(p + [es.name], len + 1 + |es.name|, es.item, depth + 1, maxDepth);
      VisitTasksSum(here, TasksAll(p, len, es.rest, depth, maxDepth));
      if !Skipped(len, es.name) {
        TasksCover(p + [es.name], len + 1 + |es.name|, es.item, depth + 1, maxDepth);
      }
    }
  }

  /** What happens when no worker could be started: the tasks are done in turn. */
  method PromoteQueued(queue: TaskQueue, log: Log)
    requires queue.Valid()
    modifies log
    ensures log.promoted == old(log.promoted) + VisitTasks(queue.Contents())
  {
    ghost var tasks := queue.Contents();
    var t := 0;
    while t < queue.total
      invariant t <= queue.total && queue.Valid() && queue.Contents() == tasks
      invariant log.promoted == old(log.promoted) + VisitTasks(tasks[..t])
    {
      var task := queue.tasks[t];
      PromoteTree(task.path, task.len, task.item, log);
      assert tasks[..t + 1] == tasks[..t] + [task];
      VisitTasksSum(tasks[..t], [task]);
      assert VisitTasks([task]) == Visit(task.path, task.len, task.item) + VisitTasks([]);
      Regroup(old(log.promoted), VisitTasks(tasks[..t]), VisitTasks([task]));
      t := t + 1;
    }
    assert tasks[..t] == tasks;
  }

  /** promote_mountpoint_thread, when no worker could be started: every file that one walk
      over the mount would promote is promoted, in that order. */
  method PromoteMountpoint(root: Path, len: nat, es: Entries, log: Log)
    modifies log
    ensures log.promoted == old(log.promoted) + VisitAll(root, len, es)
  {
    var queue := new TaskQueue();
    var pushed := EnqueueEntries(queue, root, len, es, 0, ENQUEUE_LEVELS);
    assert queue.Contents() == TasksAll(root, len, es, 0, ENQUEUE_LEVELS);
    AllTasksCover(root, len, es, 0, ENQUEUE_LEVELS);
    if queue.total > 0 {
      PromoteQueued(queue, log);
    }
  }

  lemma {:induction false} TaskBelow(p: Path, len: nat, it: Item, depth: nat, maxDepth: nat, t: Task)
    requires t in Tasks(p, len, it, depth, maxDepth)
    ensures p <= t.path
    decreases it, 1
  {
    if it.Folder? && depth < maxDepth && t in TasksAll(p, len, it.entries, depth, maxDepth) {
      AllTasksBelow(p, len, it.entries, depth, maxDepth, t);
    }
  }

  lemma {:induction false} AllTasksBelow(p: Path, len: nat, es: Entries, depth: nat, maxDepth: nat, t: Task)
    requires t in TasksAll(p, len, es, depth, maxDepth)
    ensures p < t.path && t.path[|p|] in Names(es)
    decreases es, 0
  {
    if !Skipped(len, es.name)
       && t in Tasks(p + [es.name], len + 1 + |es.name|, es.item, depth + 1, maxDepth) {
      TaskBelow(p + [es.name], len + 1 + |es.name|, es.item, depth + 1, maxDepth, t);
    } else {
      AllTasksBelow(p, len, es.rest, depth, maxDepth, t);
    }
  }

  /** No task's subtree contains another's. */
  ghost predicate Disjoint(ts: seq<Task>) {
    forall i, j :: 0 <= i < j < |ts| ==> !(ts[i].path <= ts[j].path) && !(ts[j].path <= ts[i].path)
  }

  lemma {:induction false} TasksDisjoint(p: Path, len: nat, it: Item, depth: nat, maxDepth: nat)
    requires Sound(it)
    ensures Disjoint(Tasks(p, len, it, depth, maxDepth))
    decreases it, 1
  {
    if it.Folder? && depth < maxDepth {
      AllTasksDisjoint(p, len, it.entries, depth, maxDepth);
    }
  }

  lemma {:induction false} AllTasksDisjoint(p: Path, len: nat, es: Entries, depth: nat, maxDepth: nat)
    requires SoundEntries(es)
    ensures Disjoint(TasksAll(p, len, es, depth, maxDepth))
    decreases es, 0
  {
    if es.Entry? {
      AllTasksDisjoint(p, len, es.rest, depth, maxDepth);
      if !Skipped(len, es.name) {
        var a := Tasks(p + [es.name], len + 1 + |es.name|, es.item, depth + 1, maxDepth);
        var b := TasksAll(p, len, es.rest, depth, maxDepth);
        TasksDisjoint(p + [es.name], len + 1 + |es.name|, es.item, depth + 1, maxDepth);
        forall i, j | 0 <= i < |a| && 0 <= j < |b|
          ensures !(a[i].path <= b[j].path) && !(b[j].path <= a[i].path)
        {
          TaskBelow(p + [es.name], len + 1 + |es.name|, es.item, depth + 1, maxDepth, a[i]);
          AllTasksBelow(p, len, es.rest, depth, maxDepth, b[j]);
          Part(p, es.name, a[i].path, b[j].path);
        }
      }
    }
  }

  lemma Part(p: Path, name: Name, a: Path, b: Path)
    requires p + [name] <= a && p < b && b[|p|] != name
    ensures !(a <= b) && !(b <= a)
  {
    assert a[|p|] == name;
  }
}
