// What a client with files open on one directory can see, and what each of its actions changes;
// and what holds of every run of such actions.

module Scenes {
  import opened Tree
  import opened SearchTree
  import opened Readdir
  import opened MergedDir
  import opened DirCaches
  import opened Inodes
  import opened Versions
  import opened Runs
  import opened CachedDirectories

  /** Files are numbered in the order in which they are opened. */
  datatype Action =
    | Opens
    | Lists(k: nat, room: nat, deferred: CacheEntry -> bool, fails: Name -> bool)
    | Seeks(k: nat, offset: int, origin: Origin)
    | Closes(k: nat)
    | Does(o: Op)

  /** What a file lists: from which position, the name whose lookup has failed, if any, and the
      names. */
  datatype Listed = Listed(pos: nat, failing: Option<CName>, names: seq<CName>)

  /** An open file: where it is, and the cache it holds. */
  datatype Held = Held(pos: nat, cache: DirCache?)

  /** The mount and the place of the directory, the files that are open, the cache at hand, and
      what each cache holds. */
  datatype Scene = Scene(now: Moment, files: seq<Option<Held>>, current: DirCache?, caches: map<DirCache, Contents>)

  predicate Opened(at: Scene, k: nat) {
    k < |at.files| && at.files[k].Some?
  }

  ghost function VersionAt(m: Moment): nat {
    m.inodes(m.path).version
  }

  /** The file goes on with the cache it has. */
  ghost predicate Keeps(h: Held, m: Moment) {
    h.cache != null && (h.pos != 0 || h.cache.version == VersionAt(m))
  }

  /** Every cache in use is there. */
  ghost predicate AllThere(at: Scene) {
    && (forall k :: 0 <= k < |at.files| && at.files[k].Some? && at.files[k].value.cache != null ==>
          at.files[k].value.cache in at.caches)
    && (at.current != null ==> at.current in at.caches)
  }

  /** Caches have been freed at most, and the one at hand is forgotten only when it is. */
  ghost predicate OnlyFreed(at: Scene, at': Scene) {
    && OthersStay(at, at', null)
    && (at'.current == at.current || (at'.current == null && at.current !in at'.caches))
  }

  ghost predicate OthersStay(at: Scene, at': Scene, c: DirCache?) {
    forall x :: x in at'.caches && x != c ==> x in at.caches && at'.caches[x] == at.caches[x]
  }

  // ---------------------------------------------------------------------------- a listing

  /** A cache just made of some listings of the layers. */
  ghost predicate JustMade(was: Contents, deferred: CacheEntry -> bool, m: Moment, roots: seq<Node>) {
    exists layers, hasUpper ::
      && ListsAt(layers, hasUpper, m.upper, roots, m.path) && HasLowest(layers)
      && was == Contents(Merged(layers, hasUpper), Known(Merged(layers, hasUpper), deferred), {})
  }

  /** The listing goes on with the cache of the file, or with the one at hand, or with a new one. */
  ghost predicate Takes(at: Scene, h: Held, c: DirCache) {
    if Keeps(h, at.now) then c == h.cache
    else if at.current != null && at.current.version == VersionAt(at.now) then c == at.current
    else c !in at.caches && c.version == VersionAt(at.now)
  }

  /** What the cache held then. */
  ghost predicate HeldBefore(at: Scene, c: DirCache, was: Contents, deferred: CacheEntry -> bool, roots: seq<Node>) {
    if c in at.caches then was == at.caches[c] else JustMade(was, deferred, at.now, roots)
  }

  /** The listing itself, from one position to another. */
  ghost predicate ListingIs(was: Contents, now: Contents, pos: nat, pos': nat, a: Action, m: Moment, roots: seq<Node>,
                            l: Listed)
    requires a.Lists?
  {
    var start := StartOf(pos, now.entries);
    && l.pos == pos <= pos'
    && Emitted(was, now, start, start + (pos' - pos), Answers(m.upper, roots, m.path, a.fails), a.room,
               l.failing.None?, l.names)
    && (l.failing.Some? ==> l.failing.value == now.entries[start + (pos' - pos)].name)
  }

  ghost predicate ListStep(a: Action, l: Listed, at: Scene, at': Scene, roots: seq<Node>)
    requires a.Lists? && Opened(at, a.k)
  {
    && Opened(at', a.k) && at'.files[a.k].value.cache in at'.caches
    && var h, h' := at.files[a.k].value, at'.files[a.k].value;
       var c: DirCache := h'.cache;
       && Takes(at, h, c)
       && at' == at.(files := at.files[a.k := Some(h')], current := if Keeps(h, at.now) then at.current else c,
                     caches := at'.caches)
       && OthersStay(at, at', c)
       && exists was :: HeldBefore(at, c, was, a.deferred, roots)
                          && ListingIs(was, at'.caches[c], h.pos, h'.pos, a, at.now, roots, l)
  }

  // ------------------------------------------------------------------------- every action

  /** At the start of the listing a seek lets a cache of another version go. */
  ghost function Sought(h: Held, offset: int, origin: Origin, m: Moment): Held {
    Held(SeekTo(h.pos, offset, origin),
         if h.pos == 0 && h.cache != null && h.cache.version != VersionAt(m) then null else h.cache)
  }

  /** What an action changes, and what it lists: only an operation changes the tree; a number that
      is not one of an open file is refused. */
  ghost predicate Follows(a: Action, l: Option<Listed>, at: Scene, at': Scene, roots: seq<Node>) {
    && AllThere(at')
    && match a
       case Opens => l == None && at' == at.(files := at.files + [Some(Held(0, null))])
       case Lists(k, _, _, _) =>
         if Opened(at, k) then l.Some? && ListStep(a, l.value, at, at', roots) else l == None && at' == at
       case Seeks(k, offset, origin) =>
         && l == None
         && if Opened(at, k) then
              && at'.now == at.now && OnlyFreed(at, at')
              && at'.files == at.files[k := Some(Sought(at.files[k].value, offset, origin, at.now))]
            else at' == at
       case Closes(k) =>
         && l == None
         && if Opened(at, k) then
              at'.now == at.now && OnlyFreed(at, at') && at'.files == at.files[k := None]
            else at' == at
       case Does(o) => l == None && Carries(roots, at.now, o, at'.now) && at' == at.(now := at'.now)
  }

  /** The run: scenes holds what there was before each action and at the end, log what was
      listed. */
  ghost predicate IsRun(actions: seq<Action>, scenes: seq<Scene>, log: seq<Option<Listed>>, roots: seq<Node>) {
    && |scenes| == |log| + 1 && |log| <= |actions|
    && forall j :: 0 <= j < |log| ==> Follows(actions[j], log[j], scenes[j], scenes[j + 1], roots)
  }

  lemma RunGrows(actions: seq<Action>, scenes: seq<Scene>, log: seq<Option<Listed>>, roots: seq<Node>, now: Scene,
                 l: Option<Listed>)
    requires IsRun(actions, scenes, log, roots) && |log| < |actions|
    requires Follows(actions[|log|], l, scenes[|log|], now, roots)
    ensures IsRun(actions, scenes + [now], log + [l], roots)
  {
  }

  // -------------------------------------------------------------- caches stay true in a run

  /** The contents show the names of the directory but for those lost. */
  ghost predicate ShowsAt(now: Contents, m: Moment, roots: seq<Node>) {
    forall n: Name :: Visible(now.entries, n) <==> There(m.upper, roots, m.path, n) && n !in now.lost
  }

  ghost predicate CacheIsTrue(version: nat, now: Contents, m: Moment, roots: seq<Node>) {
    && |now.asked| == |now.entries| && UniqueNames(now.entries) && version <= VersionAt(m)
    && (version == VersionAt(m) ==> ShowsAt(now, m, roots))
  }

  /** The directory is listed as a merged one, and its caches are true of it. */
  ghost predicate Sound(at: Scene, roots: seq<Node>) {
    && View(at.now.upper, roots, at.now.path) == ADir && at.now.inodes(at.now.path).whiteouts
    && AllThere(at)
    && forall c :: c in at.caches ==> CacheIsTrue(c.version, at.caches[c], at.now, roots)
  }

  lemma MadeIsTrue(was: Contents, deferred: CacheEntry -> bool, m: Moment, roots: seq<Node>)
    requires JustMade(was, deferred, m, roots) && View(m.upper, roots, m.path) == ADir
    ensures CacheIsTrue(VersionAt(m), was, m, roots) && was.lost == {}
  {
    var layers, hasUpper :| ListsAt(layers, hasUpper, m.upper, roots, m.path) && HasLowest(layers)
      && was == Contents(Merged(layers, hasUpper), Known(Merged(layers, hasUpper), deferred), {});
    ListingIsLookup(m.upper, roots, m.path, layers, hasUpper);
    MergedIsTop(layers, hasUpper);
  }

  lemma ListedShows(was: Contents, now: Contents, start: nat, cursor: nat, room: nat, ok: bool, emitted: seq<CName>,
                    m: Moment, roots: seq<Node>, fails: Name -> bool)
    requires UniqueNames(was.entries) && ShowsAt(was, m, roots)
    requires Emitted(was, now, start, cursor, Answers(m.upper, roots, m.path, fails), room, ok, emitted)
    ensures ShowsAt(now, m, roots)
  {
    var find := Answers(m.upper, roots, m.path, fails);
    forall n: Name ensures Visible(now.entries, n) <==> There(m.upper, roots, m.path, n) && n !in now.lost {
      LookedVisible(was.entries, was.asked, now.entries, start, cursor + 1, find, n);
      if n in now.lost && n !in was.lost {
        assert StaleAt(was.entries, was.asked, start, cursor + 1, find, n, cursor);
      }
      assert Visible(was.entries, n) <==> There(m.upper, roots, m.path, n) && n !in was.lost;
    }
  }

  lemma ListedStaysTrue(version: nat, was: Contents, now: Contents, pos: nat, pos': nat, a: Action, m: Moment,
                        roots: seq<Node>, l: Listed)
    requires a.Lists? && ListingIs(was, now, pos, pos', a, m, roots, l) && CacheIsTrue(version, was, m, roots)
    ensures CacheIsTrue(version, now, m, roots)
    ensures now.lost == was.lost + (if l.failing.Some? then {l.failing.value} else {})
  {
    hide Emitted, ShowsAt, UniqueNames, Honest, ShowsAllBut;
    var start, find := StartOf(pos, now.entries), Answers(m.upper, roots, m.path, a.fails);
    var cursor, ok := start + (pos' - pos), l.failing.None?;
    ListedIsTrue(was, now, start, cursor, find, a.room, ok, l.names, []);
    if version == VersionAt(m) {
      ListedShows(was, now, start, cursor, a.room, ok, l.names, m, roots, a.fails);
    }
  }

  /** An operation that leaves the directory its version leaves it its names. */
  lemma CarriedStaysTrue(version: nat, now: Contents, m: Moment, m': Moment, o: Op, roots: seq<Node>)
    requires CacheIsTrue(version, now, m, roots) && Carries(roots, m, o, m')
    requires View(m.upper, roots, m.path) == ADir && m.inodes(m.path).whiteouts
    ensures CacheIsTrue(version, now, m', roots)
    ensures View(m'.upper, roots, m'.path) == ADir && m'.inodes(m'.path).whiteouts
  {
    assert ToldAt(m.upper, m.inodes, m'.upper, m'.inodes, roots, m.path, m'.path);
    if version == VersionAt(m') {
      forall n: Name ensures Visible(now.entries, n) <==> There(m'.upper, roots, m'.path, n) && n !in now.lost {
        assert There(m'.upper, roots, m'.path, n) <==> There(m.upper, roots, m.path, n);
      }
    }
  }

  lemma ListStepSound(a: Action, l: Listed, at: Scene, at': Scene, roots: seq<Node>)
    requires a.Lists? && Opened(at, a.k) && ListStep(a, l, at, at', roots) && Sound(at, roots) && AllThere(at')
    ensures Sound(at', roots)
    ensures var c := at'.files[a.k].value.cache;
            at'.caches[c].lost == (if c in at.caches then at.caches[c].lost else {})
                                  + (if l.failing.Some? then {l.failing.value} else {})
  {
    var h, h' := at.files[a.k].value, at'.files[a.k].value;
    var c: DirCache := h'.cache;
    var was :| HeldBefore(at, c, was, a.deferred, roots)
      && ListingIs(was, at'.caches[c], h.pos, h'.pos, a, at.now, roots, l);
    if c !in at.caches {
      MadeIsTrue(was, a.deferred, at.now, roots);
    }
    ListedStaysTrue(c.version, was, at'.caches[c], h.pos, h'.pos, a, at.now, roots, l);
  }

  lemma StepSound(a: Action, l: Option<Listed>, at: Scene, at': Scene, roots: seq<Node>)
    requires Sound(at, roots) && Follows(a, l, at, at', roots)
    ensures Sound(at', roots)
  {
    hide CacheIsTrue;
    match a {
      case Lists(k, _, _, _) =>
        if Opened(at, k) {
          ListStepSound(a, l.value, at, at', roots);
        }
      case Does(o) =>
        forall c | c in at.caches ensures CacheIsTrue(c.version, at'.caches[c], at'.now, roots) {
          CarriedStaysTrue(c.version, at.caches[c], at.now, at'.now, o, roots);
        }
        DirStays(at.now, at'.now, o, roots);
      case _ =>
    }
  }

  /** The directory is still listed as a merged one. */
  lemma DirStays(m: Moment, m': Moment, o: Op, roots: seq<Node>)
    requires Carries(roots, m, o, m') && View(m.upper, roots, m.path) == ADir && m.inodes(m.path).whiteouts
    ensures View(m'.upper, roots, m'.path) == ADir && m'.inodes(m'.path).whiteouts
  {
    assert ToldAt(m.upper, m.inodes, m'.upper, m'.inodes, roots, m.path, m'.path);
  }

  lemma {:induction false} RunSound(actions: seq<Action>, scenes: seq<Scene>, log: seq<Option<Listed>>,
                                    roots: seq<Node>, j: nat)
    requires IsRun(actions, scenes, log, roots) && Sound(scenes[0], roots) && j <= |log|
    ensures Sound(scenes[j], roots)
  {
    hide Follows, Sound;
    if j > 0 {
      RunSound(actions, scenes, log, roots, j - 1);
      StepSound(actions[j - 1], log[j - 1], scenes[j - 1], scenes[j], roots);
    }
  }

  // --------------------------------------------------------------- what a run has lost

  /** The names whose lookup has failed in the listings of the log. */
  ghost function Failing(log: seq<Option<Listed>>): set<CName> {
    if log == [] then {}
    else
      var l := log[|log| - 1];
      Failing(log[..|log| - 1]) + (if l.Some? && l.value.failing.Some? then {l.value.failing.value} else {})
  }

  /** A cache has lost only what it had lost when the run began and what has failed since. */
  lemma {:induction false} LostHasFailed(actions: seq<Action>, scenes: seq<Scene>, log: seq<Option<Listed>>,
                                         roots: seq<Node>, j: nat, c: DirCache)
    requires IsRun(actions, scenes, log, roots) && Sound(scenes[0], roots) && j <= |log| && c in scenes[j].caches
    ensures scenes[j].caches[c].lost <=
              (if c in scenes[0].caches then scenes[0].caches[c].lost else {}) + Failing(log[..j])
    decreases j
  {
    if j > 0 {
      var a, l, at, at' := actions[j - 1], log[j - 1], scenes[j - 1], scenes[j];
      assert Follows(a, l, at, at', roots);
      assert log[..j][..j - 1] == log[..j - 1];
      RunSound(actions, scenes, log, roots, j - 1);
      if a.Lists? && Opened(at, a.k) {
        ListStepSound(a, l.value, at, at', roots);
      }
      if c in at.caches {
        LostHasFailed(actions, scenes, log, roots, j - 1, c);
      }
    }
  }

  /** A lookup fails only where it is said to. */
  lemma FailsAsSaid(a: Action, l: Option<Listed>, at: Scene, at': Scene, roots: seq<Node>)
    requires Follows(a, l, at, at', roots) && l.Some? && l.value.failing.Some?
    ensures a.Lists? && FailsOn(a.fails, l.value.failing.value)
  {
    var h, h' := at.files[a.k].value, at'.files[a.k].value;
    var was :| HeldBefore(at, h'.cache, was, a.deferred, roots)
      && ListingIs(was, at'.caches[h'.cache], h.pos, h'.pos, a, at.now, roots, l.value);
  }

  /** The names in the log have failed where they are listed. */
  lemma {:induction false} FailingHasFailed(actions: seq<Action>, scenes: seq<Scene>, log: seq<Option<Listed>>,
                                            roots: seq<Node>, j: nat, n: CName)
    requires IsRun(actions, scenes, log, roots) && j <= |log| && n in Failing(log[..j])
    ensures exists i :: 0 <= i < j && log[i].Some? && log[i].value.failing == Some(n)
                        && actions[i].Lists? && FailsOn(actions[i].fails, n)
    decreases j
  {
    hide Follows, FailsOn;
    assert log[..j][..j - 1] == log[..j - 1];
    if log[j - 1].Some? && log[j - 1].value.failing == Some(n) {
      FailsAsSaid(actions[j - 1], log[j - 1], scenes[j - 1], scenes[j], roots);
    } else {
      FailingHasFailed(actions, scenes, log, roots, j - 1, n);
    }
  }

  /** No lookup that a listing makes fails. */
  ghost predicate NothingFails(actions: seq<Action>) {
    forall a, n: Name :: a in actions && a.Lists? ==> !a.fails(n)
  }

  lemma {:induction false} NothingFailing(actions: seq<Action>, scenes: seq<Scene>, log: seq<Option<Listed>>,
                                          roots: seq<Node>, j: nat)
    requires IsRun(actions, scenes, log, roots) && NothingFails(actions) && j <= |log|
    ensures Failing(log[..j]) == {}
    ensures j > 0 && log[j - 1].Some? ==> log[j - 1].value.failing.None?
    decreases j
  {
    hide Follows;
    if j > 0 {
      var a, l := actions[j - 1], log[j - 1];
      NothingFailing(actions, scenes, log, roots, j - 1);
      assert log[..j][..j - 1] == log[..j - 1];
      assert a in actions;
      assert Follows(a, l, scenes[j - 1], scenes[j], roots);
      NoneFailing(a, l, scenes[j - 1], scenes[j], roots);
    }
  }

  lemma NoneFailing(a: Action, l: Option<Listed>, at: Scene, at': Scene, roots: seq<Node>)
    requires Follows(a, l, at, at', roots) && (a.Lists? ==> forall n: Name :: !a.fails(n))
    ensures l.Some? ==> l.value.failing.None?
  {
    if l.Some? {
      var h, h' := at.files[a.k].value, at'.files[a.k].value;
      var was :| HeldBefore(at, h'.cache, was, a.deferred, roots)
        && ListingIs(was, at'.caches[h'.cache], h.pos, h'.pos, a, at.now, roots, l.value);
      AllAnswered(at.now.upper, roots, at.now.path, a.fails);
    }
  }

  lemma AllAnswered(u: Node, roots: seq<Node>, p: Path, fails: Name -> bool)
    requires forall n: Name :: !fails(n)
    ensures forall m: CName :: !Answers(u, roots, p, fails)(m).NoAnswer?
  {
    var find := Answers(u, roots, p, fails);
    forall m: CName ensures !find(m).NoAnswer? {
      if IsComponent(m) && !IsDot(m) {
        var x: Name := m;
        assert !fails(x);
      }
    }
  }

  // -------------------------------------------------------------- listings from the start

  /** All names of the directory but the lost ones. */
  ghost predicate AllBut(names: seq<CName>, m: Moment, roots: seq<Node>, lost: set<CName>) {
    forall n: Name :: n in names <==> There(m.upper, roots, m.path, n) && n !in lost
  }

  /** No lookup has failed, and there was room for more. */
  predicate Complete(l: Listed, room: nat) {
    l.failing.None? && |l.names| < room
  }

  /** Whatever has been done before in whatever order, a listing begun at the start that is not cut
      short has exactly the names lookup finds then, but for those that its cache has lost. */
  lemma WholeListing(actions: seq<Action>, scenes: seq<Scene>, log: seq<Option<Listed>>, roots: seq<Node>, j: nat)
    requires IsRun(actions, scenes, log, roots) && Sound(scenes[0], roots) && j < |log| && log[j].Some?
    requires actions[j].Lists? && log[j].value.pos == 0 && Complete(log[j].value, actions[j].room)
    ensures Opened(scenes[j + 1], actions[j].k)
    ensures var c := scenes[j + 1].files[actions[j].k].value.cache;
            c != null && c in scenes[j + 1].caches
            && AllBut(log[j].value.names, scenes[j].now, roots, scenes[j + 1].caches[c].lost)
  {
    RunSound(actions, scenes, log, roots, j);
    RunSound(actions, scenes, log, roots, j + 1);
    var a, l, at, at' := actions[j], log[j].value, scenes[j], scenes[j + 1];
    assert Follows(a, log[j], at, at', roots);
    var h, h' := at.files[a.k].value, at'.files[a.k].value;
    var now := at'.caches[h'.cache];
    var was :| HeldBefore(at, h'.cache, was, a.deferred, roots)
      && ListingIs(was, now, h.pos, h'.pos, a, at.now, roots, l);
    assert ShowsAt(now, at.now, roots);
    ShownAll(now.entries);
    forall n: Name ensures n in l.names <==> There(at.now.upper, roots, at.now.path, n) && n !in now.lost {
      ShownIsVisible(now.entries, n);
    }
  }

  /** If no lookup ever fails, and no cache had lost anything, every such listing is exact. */
  lemma NothingMissing(actions: seq<Action>, scenes: seq<Scene>, log: seq<Option<Listed>>, roots: seq<Node>, j: nat)
    requires IsRun(actions, scenes, log, roots) && Sound(scenes[0], roots) && j < |log| && log[j].Some?
    requires actions[j].Lists? && log[j].value.pos == 0 && |log[j].value.names| < actions[j].room
    requires NothingFails(actions) && scenes[0].caches == map[]
    ensures AllBut(log[j].value.names, scenes[j].now, roots, {})
  {
    hide Follows, Sound, AllBut, NothingFails, Failing;
    NothingFailing(actions, scenes, log, roots, j + 1);
    WholeListing(actions, scenes, log, roots, j);
    var c := scenes[j + 1].files[actions[j].k].value.cache;
    LostHasFailed(actions, scenes, log, roots, j + 1, c);
    assert scenes[j + 1].caches[c].lost == {};
  }

  // ---------------------------------------------------------------- listings read in pieces

  /** The moments from one scene up to another. */
  function Moments(scenes: seq<Scene>, i: nat, j: nat): (ms: seq<Moment>)
    requires i <= j <= |scenes|
    ensures |ms| == j - i && forall t :: 0 <= t < j - i ==> ms[t] == scenes[i + t].now
  {
    if i == j then [] else Moments(scenes, i, j - 1) + [scenes[j - 1].now]
  }

  /** What the file k has listed from one action up to another. */
  function Pieces(actions: seq<Action>, log: seq<Option<Listed>>, k: nat, i: nat, j: nat): seq<CName>
    requires i <= j <= |log| <= |actions|
  {
    if i == j then []
    else
      var a, l := actions[j - 1], log[j - 1];
      var before := Pieces(actions, log, k, i, j - 1);
      if a.Lists? && a.k == k && l.Some? then before + l.value.names else before
  }

  /** The file is not moved or closed, and does not begin again. */
  predicate GoesOnReading(a: Action, l: Option<Listed>, k: nat) {
    && (a.Seeks? || a.Closes? ==> a.k != k)
    && (a.Lists? && a.k == k ==> l.Some? && l.value.pos != 0)
  }

  /** From action i on, which lists from the start, the file k is read without a break. */
  predicate IsReading(actions: seq<Action>, log: seq<Option<Listed>>, k: nat, i: nat, j: nat)
    requires |log| <= |actions|
  {
    && i < j <= |log|
    && actions[i].Lists? && actions[i].k == k && log[i].Some? && log[i].value.pos == 0
    && forall t :: i < t < j ==> GoesOnReading(actions[t], log[t], k)
  }

  /** The entries before the position have been looked at, or do not show. */
  ghost predicate Settled(now: Contents, pos: nat) {
    && |now.asked| == |now.entries| && pos <= |now.entries|
    && forall i :: 0 <= i < pos ==> now.entries[i].isWhiteout || now.asked[i]
  }

  /** What the file has read so far. */
  ghost predicate ReadAt(at: Scene, k: nat, names: seq<CName>, moments: seq<Moment>, roots: seq<Node>)
    requires moments != []
  {
    && Opened(at, k) && at.files[k].value.cache != null && at.files[k].value.cache in at.caches
    && ReadOf(at.caches[at.files[k].value.cache], at.files[k].value.pos, names, moments, roots)
  }

  ghost predicate ReadOf(now: Contents, pos: nat, names: seq<CName>, moments: seq<Moment>, roots: seq<Node>)
    requires moments != []
  {
    && Settled(now, pos) && UniqueNames(now.entries)
    && names == Shown(now.entries[..pos]) && ShowsBetween(now.entries, now.lost, moments, roots)
  }

  lemma MoreMoments(now: Contents, pos: nat, names: seq<CName>, moments: seq<Moment>, m: Moment, roots: seq<Node>)
    requires moments != [] && ReadOf(now, pos, names, moments, roots)
    ensures ReadOf(now, pos, names, moments + [m], roots)
  {
    forall n: Name | Always(moments + [m], roots, n) ensures Always(moments, roots, n) {
      assert forall x :: x in moments ==> x in moments + [m];
    }
  }

  /** One more piece. */
  lemma OwnPiece(was: Contents, now: Contents, pos: nat, pos': nat, a: Action, m: Moment, roots: seq<Node>, l: Listed,
                 names: seq<CName>, moments: seq<Moment>)
    requires moments != [] && ReadOf(was, pos, names, moments, roots)
    requires a.Lists? && ListingIs(was, now, pos, pos', a, m, roots, l)
    ensures ReadOf(now, pos', names + l.names, moments + [m], roots)
  {
    var find, ok := Answers(m.upper, roots, m.path, a.fails), l.failing.None?;
    LookedUnique(was.entries, was.asked, now.entries, pos, pos' + 1, find);
    ShowsLater(was, now, pos, pos', a.room, ok, l.names, moments, m, roots, a.fails);
    ShownFurther(was.entries, now.entries, pos, pos');
    forall i | 0 <= i < pos' ensures now.entries[i].isWhiteout || now.asked[i] {
      if i < pos {
        assert was.entries[i].isWhiteout || was.asked[i];
      }
    }
  }

  /** A piece that another file with the same cache reads: it looks at nothing that this one has
      passed. */
  lemma OthersPiece(was: Contents, now: Contents, p: nat, p': nat, a: Action, m: Moment, roots: seq<Node>, l: Listed,
                    pos: nat, names: seq<CName>, moments: seq<Moment>)
    requires moments != [] && ReadOf(was, pos, names, moments, roots)
    requires a.Lists? && ListingIs(was, now, p, p', a, m, roots, l)
    ensures ReadOf(now, pos, names, moments + [m], roots)
  {
    var find, ok, start := Answers(m.upper, roots, m.path, a.fails), l.failing.None?, StartOf(p, now.entries);
    LookedUnique(was.entries, was.asked, now.entries, start, start + (p' - p) + 1, find);
    ShowsLater(was, now, start, start + (p' - p), a.room, ok, l.names, moments, m, roots, a.fails);
    forall i | 0 <= i < pos ensures now.entries[i] == was.entries[i] && (now.entries[i].isWhiteout || now.asked[i]) {
      assert was.entries[i].isWhiteout || was.asked[i];
    }
    assert now.entries[..pos] == was.entries[..pos];
  }

  /** The file keeps its cache as long as it is read on. */
  lemma StillRead(a: Action, l: Option<Listed>, at: Scene, at': Scene, roots: seq<Node>, k: nat, names: seq<CName>,
                  moments: seq<Moment>)
    requires moments != [] && ReadAt(at, k, names, moments, roots)
    requires Follows(a, l, at, at', roots) && GoesOnReading(a, l, k)
    ensures ReadAt(at', k, if a.Lists? && a.k == k && l.Some? then names + l.value.names else names,
                   moments + [at.now], roots)
  {
    var h := at.files[k].value;
    MoreMoments(at.caches[h.cache], h.pos, names, moments, at.now, roots);
    if a.Lists? && Opened(at, a.k) {
      ListingRead(a, l.value, at, at', roots, k, names, moments);
    }
  }

  lemma ListingRead(a: Action, l: Listed, at: Scene, at': Scene, roots: seq<Node>, k: nat, names: seq<CName>,
                    moments: seq<Moment>)
    requires moments != [] && ReadAt(at, k, names, moments, roots) && AllThere(at')
    requires a.Lists? && Opened(at, a.k) && ListStep(a, l, at, at', roots) && (a.k == k ==> l.pos != 0)
    ensures ReadAt(at', k, if a.k == k then names + l.names else names, moments + [at.now], roots)
  {
    var h := at.files[k].value;
    var p, p' := at.files[a.k].value.pos, at'.files[a.k].value.pos;
    var c: DirCache := at'.files[a.k].value.cache;
    var was :| HeldBefore(at, c, was, a.deferred, roots) && ListingIs(was, at'.caches[c], p, p', a, at.now, roots, l);
    if a.k == k {
      OwnPiece(was, at'.caches[c], p, p', a, at.now, roots, l, names, moments);
    } else if c == h.cache {
      OthersPiece(was, at'.caches[c], p, p', a, at.now, roots, l, h.pos, names, moments);
    } else {
      MoreMoments(at.caches[h.cache], h.pos, names, moments, at.now, roots);
    }
  }

  /** The first piece. */
  lemma FirstRead(a: Action, l: Listed, at: Scene, at': Scene, roots: seq<Node>)
    requires Sound(at, roots) && Sound(at', roots) && a.Lists? && Opened(at, a.k) && ListStep(a, l, at, at', roots)
    requires l.pos == 0
    ensures ReadAt(at', a.k, l.names, [at.now], roots)
  {
    var c: DirCache := at'.files[a.k].value.cache;
    var now, pos' := at'.caches[c], at'.files[a.k].value.pos;
    var was :| HeldBefore(at, c, was, a.deferred, roots) && ListingIs(was, now, 0, pos', a, at.now, roots, l);
    assert ShowsAt(now, at.now, roots);
    forall n: Name
      ensures n in Shown(now.entries) ==> There(at.now.upper, roots, at.now.path, n)
      ensures Always([at.now], roots, n) && n !in now.lost ==> n in Shown(now.entries)
    {
      ShownIsVisible(now.entries, n);
      assert at.now in [at.now];
    }
    assert now.entries[0..pos'] == now.entries[..pos'];
  }

  lemma {:induction false} ReadSoFarIs(actions: seq<Action>, scenes: seq<Scene>, log: seq<Option<Listed>>,
                                       roots: seq<Node>, k: nat, i: nat, j: nat)
    requires IsRun(actions, scenes, log, roots) && Sound(scenes[0], roots) && IsReading(actions, log, k, i, j)
    ensures ReadAt(scenes[j], k, Pieces(actions, log, k, i, j), Moments(scenes, i, j), roots)
    decreases j
  {
    hide Follows, ReadAt, Sound, ListStep;
    var a, l, at, at' := actions[j - 1], log[j - 1], scenes[j - 1], scenes[j];
    assert Follows(a, l, at, at', roots);
    if j == i + 1 {
      RunSound(actions, scenes, log, roots, i);
      RunSound(actions, scenes, log, roots, j);
      FirstOf(a, l, at, at', roots);
      assert Pieces(actions, log, k, i, i) == [] && Moments(scenes, i, i) == [];
      assert Pieces(actions, log, k, i, j) == l.value.names;
      assert Moments(scenes, i, j) == [at.now];
    } else {
      ReadSoFarIs(actions, scenes, log, roots, k, i, j - 1);
      StillRead(a, l, at, at', roots, k, Pieces(actions, log, k, i, j - 1), Moments(scenes, i, j - 1));
      assert Moments(scenes, i, j) == Moments(scenes, i, j - 1) + [at.now];
      assert GoesOnReading(a, l, k);
    }
  }

  lemma FirstOf(a: Action, l: Option<Listed>, at: Scene, at': Scene, roots: seq<Node>)
    requires Follows(a, l, at, at', roots) && Sound(at, roots) && Sound(at', roots)
    requires a.Lists? && l.Some? && l.value.pos == 0
    ensures ReadAt(at', a.k, l.value.names, [at.now], roots)
  {
    FirstRead(a, l.value, at, at', roots);
  }

  /** A piece that is not cut short is the last. */
  lemma ShortIsLast(a: Action, l: Option<Listed>, at: Scene, at': Scene, roots: seq<Node>)
    requires Follows(a, l, at, at', roots) && a.Lists? && l.Some? && Complete(l.value, a.room)
    ensures Opened(at', a.k) && at'.files[a.k].value.cache != null && at'.files[a.k].value.cache in at'.caches
    ensures at'.files[a.k].value.pos >= |at'.caches[at'.files[a.k].value.cache].entries|
  {
    var h, h' := at.files[a.k].value, at'.files[a.k].value;
    var was :| HeldBefore(at, h'.cache, was, a.deferred, roots)
      && ListingIs(was, at'.caches[h'.cache], h.pos, h'.pos, a, at.now, roots, l.value);
  }

  /** Whatever is done between the pieces, and whoever else reads from the same cache, the pieces
      that a file has read since it began at the start have together each name once and only names
      that were there when it began; and once a piece is not cut short, all that were there at each
      action in between, but for those that its cache has lost. */
  lemma PiecesTogether(actions: seq<Action>, scenes: seq<Scene>, log: seq<Option<Listed>>, roots: seq<Node>,
                       k: nat, i: nat, j: nat)
    requires IsRun(actions, scenes, log, roots) && Sound(scenes[0], roots) && IsReading(actions, log, k, i, j)
    ensures Opened(scenes[j], k) && scenes[j].files[k].value.cache != null
    ensures scenes[j].files[k].value.cache in scenes[j].caches
    ensures OnlyFrom(Pieces(actions, log, k, i, j), scenes[i].now, roots)
    ensures var a, l := actions[j - 1], log[j - 1];
            a.Lists? && a.k == k && l.Some? && Complete(l.value, a.room) ==>
              ListedBetween(Pieces(actions, log, k, i, j), scenes[j].caches[scenes[j].files[k].value.cache].lost,
                            Moments(scenes, i, j), roots)
  {
    hide Follows;
    ReadSoFarIs(actions, scenes, log, roots, k, i, j);
    var h := scenes[j].files[k].value;
    var now := scenes[j].caches[h.cache];
    PiecesOnlyFrom(now.entries, now.lost, h.pos, Moments(scenes, i, j), roots);
    var a, l := actions[j - 1], log[j - 1];
    if a.Lists? && a.k == k && l.Some? && Complete(l.value, a.room) {
      ShortIsLast(a, l, scenes[j - 1], scenes[j], roots);
    }
  }
}
