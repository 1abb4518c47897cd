// The cache of a merged directory's listing, shared by the files open on the directory
// and replaced when the directory has changed.  A cache is kept while an open file holds
// it, whatever has happened to the directory since.

module DirCaches {
  import opened Tree
  import opened SearchTree
  import opened Readdir
  import opened MergedDir

  /** The names shown, in list order. */
  function Shown(es: seq<CacheEntry>): seq<CName> {
    if es == [] then []
    else (if es[0].isWhiteout then [] else [es[0].name]) + Shown(es[1..])
  }

  /** The same names show.  The dots are no entries. */
  ghost predicate SameNames(a: seq<CacheEntry>, b: seq<CacheEntry>) {
    forall n: Name :: Visible(a, n) <==> Visible(b, n)
  }

  /** The names that show are those of the whole list, but for the lost ones. */
  ghost predicate ShowsAllBut(es: seq<CacheEntry>, lost: set<CName>, whole: seq<CacheEntry>) {
    forall n: Name :: Visible(es, n) <==> Visible(whole, n) && n !in lost
  }

  lemma ShownAll(es: seq<CacheEntry>)
    ensures Shown(es[0..|es|]) == Shown(es)
  {
    assert es[0..|es|] == es;
  }

  lemma ShownNames(es: seq<CacheEntry>, lost: set<CName>, whole: seq<CacheEntry>)
    requires ShowsAllBut(es, lost, whole)
    ensures forall n: Name :: n in Shown(es) <==> Visible(whole, n) && n !in lost
  {
    forall n: Name ensures n in Shown(es) <==> Visible(whole, n) && n !in lost {
      ShownIsVisible(es, n);
    }
  }

  lemma ShowsAllButSame(es: seq<CacheEntry>, lost: set<CName>, a: seq<CacheEntry>, b: seq<CacheEntry>)
    requires ShowsAllBut(es, lost, a) && SameNames(a, b)
    ensures ShowsAllBut(es, lost, b)
  {
    forall n: Name ensures Visible(es, n) <==> Visible(b, n) && n !in lost {
      assert Visible(a, n) <==> Visible(b, n);
    }
  }

  lemma {:induction false} ShownSnoc(es: seq<CacheEntry>, e: CacheEntry)
    ensures Shown(es + [e]) == Shown(es) + (if e.isWhiteout then [] else [e.name])
  {
    if es != [] {
      assert (es + [e])[1..] == es[1..] + [e];
      ShownSnoc(es[1..], e);
    }
  }

  lemma ShownNext(es: seq<CacheEntry>, start: nat, k: nat)
    requires start <= k < |es|
    ensures Shown(es[start..k + 1]) ==
        if es[k].isWhiteout then Shown(es[start..k]) else Shown(es[start..k]) + [es[k].name]
  {
    assert es[start..k + 1] == es[start..k] + [es[k]];
    ShownSnoc(es[start..k], es[k]);
  }

  lemma {:induction false} ShownConcat(a: seq<CacheEntry>, b: seq<CacheEntry>)
    ensures Shown(a + b) == Shown(a) + Shown(b)
  {
    if a == [] {
      assert a + b == b;
    } else {
      assert (a + b)[1..] == a[1..] + b;
      ShownConcat(a[1..], b);
    }
  }

  lemma {:induction false} ShownIsVisible(es: seq<CacheEntry>, n: CName)
    ensures n in Shown(es) <==> Visible(es, n)
  {
    if es != [] {
      ShownIsVisible(es[1..], n);
      assert es == [es[0]] + es[1..];
      if Visible(es, n) {
        var e :| e in es && e.name == n && !e.isWhiteout;
        assert e == es[0] || e in es[1..];
      }
    }
  }

  /** A list that has each name once shows each name once. */
  lemma {:induction false} ShownOnce(es: seq<CacheEntry>)
    requires UniqueNames(es)
    ensures forall i, j :: 0 <= i < j < |Shown(es)| ==> Shown(es)[i] != Shown(es)[j]
  {
    if es != [] {
      ShownOnce(es[1..]);
      if !es[0].isWhiteout {
        ShownIsVisible(es[1..], es[0].name);
        assert es[0].name !in Shown(es[1..]);
      }
    }
  }

  lemma OneLess<T>(s: set<T>, x: T)
    requires x in s
    ensures |s - {x}| == |s| - 1
    ensures |s| == 1 <==> s == {x}
  {
    if |s| == 1 {
      assert s - {x} == {};
      assert s == (s - {x}) + {x};
    }
  }

  // -------------------------------------------------------- looking entries up again

  /** What looking up a name in the directory gives. */
  datatype Answer = IsThere | IsGone | NoAnswer

  /** The answers are about the directory as it is. */
  ghost predicate Honest(find: CName -> Answer, whole: seq<CacheEntry>) {
    forall n: Name :: (find(n).IsThere? ==> Visible(whole, n)) && (find(n).IsGone? ==> !Visible(whole, n))
  }

  /** The entry is looked up before it is listed. */
  predicate Asks(e: CacheEntry, asked: bool) {
    !e.isWhiteout && !asked && !IsDot(e.name)
  }

  /** An entry whose name is not found is stale and shows no more. */
  function Looked(e: CacheEntry, asked: bool, find: CName -> Answer): CacheEntry {
    if Asks(e, asked) && !find(e.name).IsThere? then e.(isWhiteout := true) else e
  }

  /** The entries from start up to end have been looked at. */
  ghost predicate LookedAt(es: seq<CacheEntry>, asked: seq<bool>, es': seq<CacheEntry>, start: nat, end: nat,
                           find: CName -> Answer)
    requires |es| == |asked|
  {
    && |es'| == |es|
    && forall i :: 0 <= i < |es| ==> es'[i] == if start <= i < end then Looked(es[i], asked[i], find) else es[i]
  }

  /** Those that show have been asked for. */
  ghost predicate AskedAt(es: seq<CacheEntry>, asked: seq<bool>, asked': seq<bool>, start: nat, end: nat)
    requires |es| == |asked|
  {
    && |asked'| == |asked|
    && forall i :: 0 <= i < |asked| ==> asked'[i] == (asked[i] || (start <= i < end && !es[i].isWhiteout))
  }

  predicate Fails(e: CacheEntry, asked: bool, find: CName -> Answer) {
    Asks(e, asked) && find(e.name).NoAnswer?
  }

  ghost predicate NoneFails(es: seq<CacheEntry>, asked: seq<bool>, start: nat, end: nat, find: CName -> Answer)
    requires |es| == |asked|
  {
    forall i :: start <= i < end && i < |es| ==> !Fails(es[i], asked[i], find)
  }

  /** The first lookup that fails ends the listing, and its name is lost. */
  ghost predicate LostAt(es: seq<CacheEntry>, asked: seq<bool>, lost: set<CName>, lost': set<CName>,
                         start: nat, cursor: nat, find: CName -> Answer, ok: bool)
    requires |es| == |asked|
  {
    if ok then lost' == lost && NoneFails(es, asked, start, cursor + 1, find)
    else
      && NoneFails(es, asked, start, cursor, find)
      && start <= cursor < |es| && Fails(es[cursor], asked[cursor], find) && lost' == lost + {es[cursor].name}
  }

  ghost predicate StaleAt(es: seq<CacheEntry>, asked: seq<bool>, start: nat, end: nat, find: CName -> Answer,
                          n: CName, i: nat)
    requires |es| == |asked|
  {
    start <= i < end && i < |es| && es[i].name == n && Asks(es[i], asked[i]) && !find(n).IsThere?
  }

  lemma LookedUnique(es: seq<CacheEntry>, asked: seq<bool>, es': seq<CacheEntry>, start: nat, end: nat,
                     find: CName -> Answer)
    requires |es| == |asked| && LookedAt(es, asked, es', start, end, find) && UniqueNames(es)
    ensures UniqueNames(es')
  {
    assert forall i :: 0 <= i < |es| ==> es'[i].name == es[i].name;
  }

  lemma LookedVisible(es: seq<CacheEntry>, asked: seq<bool>, es': seq<CacheEntry>, start: nat, end: nat,
                      find: CName -> Answer, n: CName)
    requires |es| == |asked| && LookedAt(es, asked, es', start, end, find) && UniqueNames(es)
    ensures Visible(es', n) ==> Visible(es, n)
    ensures Visible(es, n) && !Visible(es', n) ==> exists i :: StaleAt(es, asked, start, end, find, n, i)
    ensures forall i :: StaleAt(es, asked, start, end, find, n, i) ==> !Visible(es', n)
  {
    if Visible(es', n) {
      var k :| 0 <= k < |es'| && es'[k].name == n && !es'[k].isWhiteout;
      assert es'[k] == es[k] && es[k] in es;
      forall i: nat ensures !StaleAt(es, asked, start, end, find, n, i) {
        assert i < |es| && i != k ==> es[i].name != n;
      }
    } else if Visible(es, n) {
      var k :| 0 <= k < |es| && es[k].name == n && !es[k].isWhiteout;
      assert es'[k] in es';
      assert StaleAt(es, asked, start, end, find, n, k);
    }
  }

  /** Looking entries up keeps the list true of the directory. */
  lemma LookedShows(es: seq<CacheEntry>, asked: seq<bool>, lost: set<CName>, es': seq<CacheEntry>, lost': set<CName>,
                    start: nat, cursor: nat, find: CName -> Answer, ok: bool, whole: seq<CacheEntry>)
    requires |es| == |asked| && UniqueNames(es) && Honest(find, whole)
    requires LookedAt(es, asked, es', start, cursor + 1, find)
    requires LostAt(es, asked, lost, lost', start, cursor, find, ok)
    requires ShowsAllBut(es, lost, whole)
    ensures ShowsAllBut(es', lost', whole)
  {
    forall n: Name ensures Visible(es', n) <==> Visible(whole, n) && n !in lost' {
      LookedVisible(es, asked, es', start, cursor + 1, find, n);
      if n in lost' && n !in lost {
        assert StaleAt(es, asked, start, cursor + 1, find, n, cursor);
      }
      assert Visible(es, n) <==> Visible(whole, n) && n !in lost;
    }
  }

  /** The entries whose inode number is known when the cache is made. */
  function Known(es: seq<CacheEntry>, deferred: CacheEntry -> bool): seq<bool> {
    seq(|es|, i requires 0 <= i < |es| => !deferred(es[i]))
  }

  /** What a cache holds. */
  datatype Contents = Contents(entries: seq<CacheEntry>, asked: seq<bool>, lost: set<CName>)

  /** What a listing from start up to the cursor has made of a cache, and what it has listed. */
  ghost predicate Emitted(was: Contents, now: Contents, start: nat, cursor: nat, find: CName -> Answer, room: nat,
                          ok: bool, emitted: seq<CName>)
  {
    && |was.entries| == |was.asked|
    && start <= cursor <= |now.entries| && emitted == Shown(now.entries[start..cursor]) && |emitted| <= room
    && LookedAt(was.entries, was.asked, now.entries, start, cursor + 1, find)
    && AskedAt(was.entries, was.asked, now.asked, start, cursor + 1)
    && LostAt(was.entries, was.asked, was.lost, now.lost, start, cursor, find, ok)
    && (ok && cursor < |now.entries| ==> |emitted| == room)
  }

  /** Where in the list a position is, or the end. */
  function StartOf(pos: nat, es: seq<CacheEntry>): nat {
    if pos <= |es| then pos else |es|
  }

  class DirCache {
    var refcount: nat
    const version: nat
    var entries: seq<CacheEntry>
    /** The entries whose inode number is known; the others are looked up when they are
        listed. */
    var asked: seq<bool>
    /** The open files that hold this cache. */
    ghost var holders: set<DirFile>
    /** The names whose lookup has failed. */
    ghost var lost: set<CName>

    constructor (version: nat, entries: seq<CacheEntry>, deferred: CacheEntry -> bool, holder: DirFile)
      requires UniqueNames(entries)
      ensures this.version == version && this.entries == entries && IsList() && asked == Known(entries, deferred)
      ensures refcount == 1 && holders == {holder} && lost == {}
    {
      this.version, this.entries, refcount := version, entries, 1;
      asked := Known(entries, deferred);
      holders, lost := {holder}, {};
    }

    ghost predicate IsList()
      reads this
    {
      |asked| == |entries| && UniqueNames(entries)
    }

    ghost function Now(): Contents
      reads `entries, `asked, `lost
    {
      Contents(entries, asked, lost)
    }

    /** The entry at a position, or the end. */
    method SeekCursor(pos: nat) returns (off: nat)
      ensures off == StartOf(pos, entries)
    {
      off := 0;
      while off < |entries| && off < pos
        invariant 0 <= off <= |entries| && off <= pos
      {
        off := off + 1;
      }
    }

    /** The part of ovl_cache_update_ino that shows: looks the entry up. */
    method UpdateIno(k: nat, find: CName -> Answer) returns (ok: bool)
      requires IsList() && k < |entries| && !entries[k].isWhiteout && !asked[k]
      modifies `entries, `asked, `lost
      ensures asked == old(asked)[k := true]
      ensures entries == old(entries)[k := Looked(old(entries)[k], false, find)]
      ensures ok <==> IsDot(old(entries)[k].name) || !find(old(entries)[k].name).NoAnswer?
      ensures lost == if ok then old(lost) else old(lost) + {old(entries)[k].name}
    {
      var p := entries[k];
      ok := true;
      if !IsDot(p.name) {
        var answer := find(p.name);
        if !answer.IsThere? {
          entries := entries[k := p.(isWhiteout := true)];
          if answer.NoAnswer? {
            lost := lost + {p.name};
            ok := false;
          }
        }
      }
      asked := asked[k := true];
    }

    /** Looks the entry up if it shows and has not been looked up yet. */
    method LookAt(k: nat, find: CName -> Answer) returns (ok: bool)
      requires IsList() && k < |entries|
      modifies `entries, `asked, `lost
      ensures IsList()
      ensures entries == old(entries)[k := Looked(old(entries)[k], old(asked)[k], find)]
      ensures asked == old(asked)[k := old(asked)[k] || !old(entries)[k].isWhiteout]
      ensures ok <==> !Fails(old(entries)[k], old(asked)[k], find)
      ensures lost == if ok then old(lost) else old(lost) + {old(entries)[k].name}
    {
      ok := true;
      if !entries[k].isWhiteout && !asked[k] {
        ok := UpdateIno(k, find);
      }
    }

    /** One round of the loop below: looks the entry up and lists it if it shows; the loop ends
        if the lookup fails or there is no room. */
    method ListOne(ghost was: Contents, start: nat, k: nat, room: nat, find: CName -> Answer, emitted: seq<CName>)
      returns (ok: bool, more: bool, emitted': seq<CName>)
      requires IsList() && start <= k < |entries| && LookedUpTo(was, Now(), start, k, find)
      requires emitted == Shown(entries[start..k]) && |emitted| <= room
      modifies `entries, `asked, `lost
      ensures IsList() && |entries| == |old(entries)|
      ensures if more then ok && LookedUpTo(was, Now(), start, k + 1, find)
                           && emitted' == Shown(entries[start..k + 1]) && |emitted'| <= room
              else Emitted(was, Now(), start, k, find, room, ok, emitted')
    {
      hide LookedUpTo, Shown, Emitted, Looked, Fails;
      ghost var now := Now();
      more, emitted' := true, emitted;
      ok := LookAt(k, find);
      LookedMore(was, now, Now(), start, k, find, ok, room, emitted);
      if !ok {
        more := false;
      } else if !entries[k].isWhiteout {
        if |emitted| == room {
          more := false;
        } else {
          emitted' := emitted + [entries[k].name];
        }
      }
      ShownNext(entries, start, k);
    }

    /** The loop of ovl_iterate: lists from an entry on, for as long as the caller has room. */
    method ListFrom(start: nat, room: nat, find: CName -> Answer)
      returns (ok: bool, cursor: nat, emitted: seq<CName>)
      requires IsList() && start <= |entries|
      modifies `entries, `asked, `lost
      ensures IsList() && start <= cursor <= |entries|
      ensures Emitted(old(Now()), Now(), start, cursor, find, room, ok, emitted)
    {
      ghost var was := Now();
      ok, emitted, cursor := true, [], start;
      assert Shown(entries[start..start]) == [];
      assert LookedUpTo(was, was, start, start, find);
      hide LookedUpTo, Shown, Emitted;
      while cursor < |entries|
        invariant IsList() && start <= cursor <= |entries| == |was.entries|
        invariant LookedUpTo(was, Now(), start, cursor, find)
        invariant ok && emitted == Shown(entries[start..cursor]) && |emitted| <= room
      {
        var more;
        ok, more, emitted := ListOne(was, start, cursor, room, find, emitted);
        if !more {
          return;
        }
        cursor := cursor + 1;
      }
      LookedToTheEnd(was, Now(), start, find, room, emitted);
    }
  }

  /** The entries from start up to k have been looked at, and no lookup has failed. */
  ghost predicate LookedUpTo(was: Contents, now: Contents, start: nat, k: nat, find: CName -> Answer) {
    && |was.entries| == |was.asked| && start <= k <= |was.entries| && now.lost == was.lost
    && LookedAt(was.entries, was.asked, now.entries, start, k, find)
    && AskedAt(was.entries, was.asked, now.asked, start, k) && NoneFails(was.entries, was.asked, start, k, find)
  }

  lemma LookedMore(was: Contents, now: Contents, now': Contents, start: nat, k: nat, find: CName -> Answer, ok: bool,
                   room: nat, emitted: seq<CName>)
    requires LookedUpTo(was, now, start, k, find) && k < |now.entries|
    requires |now.asked| == |now.entries| == |now'.entries|
    requires now'.entries == now.entries[k := Looked(now.entries[k], now.asked[k], find)]
    requires now'.asked == now.asked[k := now.asked[k] || !now.entries[k].isWhiteout]
    requires now'.lost == if ok then now.lost else now.lost + {now.entries[k].name}
    requires ok <==> !Fails(now.entries[k], now.asked[k], find)
    requires emitted == Shown(now.entries[start..k]) && |emitted| <= room
    ensures emitted == Shown(now'.entries[start..k])
    ensures Emitted(was, now', start, k, find, if ok then |emitted| else room, ok, emitted)
    ensures ok ==> LookedUpTo(was, now', start, k + 1, find)
  {
    assert now'.entries[start..k] == now.entries[start..k];
  }

  lemma LookedToTheEnd(was: Contents, now: Contents, start: nat, find: CName -> Answer, room: nat, emitted: seq<CName>)
    requires LookedUpTo(was, now, start, |was.entries|, find)
    requires emitted == Shown(now.entries[start..|was.entries|]) && |emitted| <= room
    ensures Emitted(was, now, start, |was.entries|, find, room, true, emitted)
  {
  }

  lemma AllShowSame(caches: set<DirCache>, version: nat, a: seq<CacheEntry>, b: seq<CacheEntry>)
    requires SameNames(a, b)
    requires forall c :: c in caches && c.version == version ==> ShowsAllBut(c.entries, c.lost, a)
    ensures forall c :: c in caches && c.version == version ==> ShowsAllBut(c.entries, c.lost, b)
  {
    forall c | c in caches && c.version == version ensures ShowsAllBut(c.entries, c.lost, b) {
      ShowsAllButSame(c.entries, c.lost, a, b);
    }
  }

  /** The cache there is, if any. */
  ghost function Only(c: DirCache?): set<DirCache> {
    if c == null then {} else {c}
  }

  /** A file open on the directory. */
  class DirFile {
    var cache: DirCache?
    var cursor: nat
    var pos: nat

    constructor ()
      ensures cache == null && cursor == 0 && pos == 0
    {
      cache, cursor, pos := null, 0, 0;
    }

    /** The cursor is where the position says, or at the end. */
    ghost predicate IsPlaced()
      reads this, cache
    {
      cache != null ==> cursor == StartOf(pos, cache.entries)
    }
  }

  datatype Origin = FromStart | FromHere | FromElsewhere

  /** There is a lowest layer, and it has each name once. */
  ghost predicate HasLowest(layers: seq<Listing>) {
    layers != [] && Distinct(layers[|layers| - 1])
  }

  /** The names before, and with them that of the entry whose lookup has failed, if any. */
  ghost function WithFailed(before: set<CName>, es: seq<CacheEntry>, cursor: nat, ok: bool): set<CName>
    requires !ok ==> cursor < |es|
  {
    if ok then before else before + {es[cursor].name}
  }

  /** A cache that has been listed from is still a list, has lost no other names than have failed,
      and is still true of the directory. */
  lemma ListedIsTrue(was: Contents, now: Contents, start: nat, cursor: nat, find: CName -> Answer, room: nat,
                     ok: bool, emitted: seq<CName>, whole: seq<CacheEntry>)
    requires Emitted(was, now, start, cursor, find, room, ok, emitted) && UniqueNames(was.entries)
    ensures start <= cursor <= |now.entries| && (!ok ==> cursor < |now.entries|)
    ensures |now.asked| == |now.entries| == |was.entries| && UniqueNames(now.entries)
    ensures now.lost == was.lost + (if ok then {} else {now.entries[cursor].name})
    ensures Honest(find, whole) && ShowsAllBut(was.entries, was.lost, whole) ==>
        ShowsAllBut(now.entries, now.lost, whole)
  {
    LookedUnique(was.entries, was.asked, now.entries, start, cursor + 1, find);
    if Honest(find, whole) && ShowsAllBut(was.entries, was.lost, whole) {
      LookedShows(was.entries, was.asked, was.lost, now.entries, now.lost, start, cursor, find, ok, whole);
    }
  }

  /** A merged directory: its layers, and what its overlay inode keeps for readdir. */
  class Directory {
    var layers: seq<Listing>
    var hasUpper: bool
    var cache: DirCache?
    var version: nat
    /** The files open on the directory. */
    ghost var files: set<DirFile>
    /** The caches that have not been freed. */
    ghost var caches: set<DirCache>
    /** The names whose lookup has ever failed in a listing. */
    ghost var failed: set<CName>

    /** The caches are held by exactly the files that use them, and counted right. */
    ghost predicate Counted()
      reads this, files, caches
    {
      && (cache != null ==> cache in caches)
      && (forall f :: f in files && f.cache != null ==>
            f.cache in caches && f in f.cache.holders && f.IsPlaced())
      && (forall c, f :: c in caches && f in c.holders ==> f in files && f.cache == c)
      && (forall c :: c in caches ==> c.refcount == |c.holders|)
    }

    /** No cache is kept that nobody holds. */
    ghost predicate AllHeld()
      reads `caches, caches
    {
      forall c :: c in caches ==> c.refcount > 0
    }

    ghost function Whole(): seq<CacheEntry>
      requires HasLowest(layers)
      reads `layers, `hasUpper
    {
      Merged(layers, hasUpper)
    }

    /** A cache of the directory's version shows what the directory shows, but for the names it
        has lost, and lost are only names whose lookup has failed. */
    ghost predicate Truthful()
      reads `layers, `hasUpper, `version, `failed, `caches, caches
    {
      && HasLowest(layers)
      && forall c :: c in caches ==>
           && c.version <= version && c.IsList() && c.lost <= failed
           && (c.version == version ==> ShowsAllBut(c.entries, c.lost, Whole()))
    }

    ghost predicate Valid()
      reads this, files, caches
    {
      Counted() && AllHeld() && Truthful()
    }

    constructor (layers: seq<Listing>, hasUpper: bool, version: nat)
      requires HasLowest(layers)
      ensures Valid() && files == {} && failed == {}
      ensures this.layers == layers && this.hasUpper == hasUpper && this.version == version
    {
      this.layers, this.hasUpper, this.version := layers, hasUpper, version;
      cache := null;
      files, caches, failed := {}, {}, {};
    }

    /** Something has been done to the tree: the layers list other things, and if the version
        is the same the same names show. */
    method Change(layers': seq<Listing>, hasUpper': bool, version': nat)
      requires Valid() && HasLowest(layers') && version <= version'
      requires version' == version ==> SameNames(Whole(), Merged(layers', hasUpper'))
      modifies `layers, `hasUpper, `version
      ensures Valid() && layers == layers' && hasUpper == hasUpper' && version == version'
    {
      if version' == version {
        AllShowSame(caches, version, Whole(), Merged(layers', hasUpper'));
      }
      layers, hasUpper, version := layers', hasUpper', version';
      assert Counted() && AllHeld();
    }

    method Open() returns (f: DirFile)
      requires Valid()
      modifies `files
      ensures Valid() && fresh(f) && files == old(files) + {f} && f.pos == 0 && f.cache == null
    {
      f := new DirFile();
      files := files + {f};
    }

    /** Drops the file's hold on its cache; the last hold dropped frees the cache. */
    method Put(f: DirFile)
      requires Valid() && f in files && f.cache != null
      modifies `cache, `caches, f, Only(f.cache)`refcount, Only(f.cache)`holders
      ensures Valid() && f.cache == null && f.pos == old(f.pos)
      ensures caches == old(caches) - (if old(f.cache.holders) == {f} then {old(f.cache)} else {})
      ensures cache == if old(cache) == old(f.cache) && old(f.cache.holders) == {f} then null else old(cache)
    {
      var c := f.cache;
      OneLess(c.holders, f);
      Drop(f);
      if c.refcount == 0 {
        Free(c);
      }
    }

    method Drop(f: DirFile)
      requires Counted() && f in files && f.cache != null
      modifies f, f.cache`refcount, f.cache`holders
      ensures Counted() && f.cache == null && f.pos == old(f.pos)
      ensures old(f.cache).holders == old(f.cache.holders) - {f}
    {
      var c := f.cache;
      OneLess(c.holders, f);
      c.refcount := c.refcount - 1;
      c.holders := c.holders - {f};
      f.cache, f.cursor := null, 0;
    }

    /** A cache that nobody holds any more goes. */
    method Free(c: DirCache)
      requires Counted() && c in caches && c.refcount == 0
      modifies `cache, `caches
      ensures Counted() && caches == old(caches) - {c} && cache == if old(cache) == c then null else old(cache)
    {
      if cache == c {
        cache := null;
      }
      caches := caches - {c};
    }

    /** The cache is there and has the directory's version. */
    ghost predicate IsCurrent(c: DirCache?)
      reads this
    {
      c != null && c.version == version
    }

    /** Caches have been freed at most, and the one at hand is forgotten only when it is. */
    twostate predicate OnlyFreed()
      reads this, caches
    {
      && caches <= old(caches) && (forall c :: c in caches ==> c.Now() == old(c.Now()))
      && (cache == old(cache) || (cache == null && old(cache) !in caches))
    }

    /** At the start of the listing, a cache that no longer has the directory's version is
        let go. */
    method Reset(f: DirFile)
      requires Valid() && f in files
      modifies `cache, `caches, f, Only(f.cache)`refcount, Only(f.cache)`holders
      ensures Valid() && f.pos == old(f.pos) && caches <= old(caches)
      ensures f.cache == if old(f.cache) != null && old(f.cache).version == version then old(f.cache) else null
      ensures f.cache != null ==> f.cursor == old(f.cursor)
      ensures cache == old(cache) || (cache == null && !old(IsCurrent(cache)) && f.cache != old(f.cache))
      ensures OnlyFreed()
    {
      if f.cache != null && version != f.cache.version {
        Put(f);
      }
    }

    method Hold(f: DirFile)
      requires Valid() && f in files && f.cache == null && cache != null
      modifies f, cache`refcount, cache`holders
      ensures Valid() && f.cache == cache && f.pos == old(f.pos)
    {
      var cursor := cache.SeekCursor(f.pos);
      HoldAt(f, cursor);
      assert AllHeld() && Truthful();
    }

    method HoldAt(f: DirFile, cursor: nat)
      requires Counted() && f in files && f.cache == null && cache != null
      requires cursor == StartOf(f.pos, cache.entries)
      modifies f, cache`refcount, cache`holders
      ensures Counted() && f.cache == cache && f.pos == old(f.pos) && cache.refcount == old(cache.refcount) + 1
    {
      assert f !in cache.holders;
      cache.refcount := cache.refcount + 1;
      cache.holders := cache.holders + {f};
      f.cache, f.cursor := cache, cursor;
    }

    /** What a cache holds when it has just been made. */
    ghost function AsMade(deferred: CacheEntry -> bool): Contents
      requires HasLowest(layers)
      reads this
    {
      Contents(Whole(), Known(Whole(), deferred), {})
    }

    method MakeCache(f: DirFile, deferred: CacheEntry -> bool)
      requires Valid() && f in files && f.cache == null
      modifies `cache, `caches, f
      ensures Valid() && fresh(cache) && caches == old(caches) + {cache}
      ensures f.cache == cache && cache.version == version && f.pos == old(f.pos)
      ensures cache.Now() == AsMade(deferred)
    {
      Forget();
      var c := ReadAll(f, deferred);
      InstallCache(f, c);
    }

    method Forget()
      requires Valid()
      modifies `cache
      ensures Valid() && cache == null
    {
      cache := null;
    }

    method ReadAll(f: DirFile, deferred: CacheEntry -> bool) returns (c: DirCache)
      requires HasLowest(layers)
      ensures fresh(c) && c.version == version && c.refcount == 1 && c.holders == {f}
      ensures c.IsList() && c.Now() == AsMade(deferred)
    {
      var list := DirReadMerged(layers, hasUpper);
      MergedIsTop(layers, hasUpper);
      c := new DirCache(version, list, deferred, f);
    }

    method InstallCache(f: DirFile, c: DirCache)
      requires Valid() && f in files && f.cache == null && c !in caches
      requires c.version == version && c.IsList() && c.lost == {} && ShowsAllBut(c.entries, c.lost, Whole())
      requires c.refcount == 1 && c.holders == {f}
      modifies `cache, `caches, f
      ensures Valid() && cache == c && caches == old(caches) + {c}
      ensures f.cache == c && f.pos == old(f.pos)
    {
      var cursor := c.SeekCursor(f.pos);
      InstallAt(f, c, cursor);
      assert AllHeld() && Truthful();
    }

    method InstallAt(f: DirFile, c: DirCache, cursor: nat)
      requires Counted() && f in files && f.cache == null && c !in caches && c.refcount == 1 && c.holders == {f}
      requires cursor == StartOf(f.pos, c.entries)
      modifies `cache, `caches, f
      ensures Counted() && cache == c && caches == old(caches) + {c} && f.cache == c && f.pos == old(f.pos)
    {
      f.cache, f.cursor := c, cursor;
      cache := c;
      caches := caches + {c};
    }

    /** Gives the file a cache of the directory's version: the one at hand, or a new one. */
    method Attach(f: DirFile, deferred: CacheEntry -> bool)
      requires Valid() && f in files && f.cache == null
      modifies `cache, `caches, f, Only(cache)`refcount, Only(cache)`holders
      ensures Valid() && f.cache != null && f.cache == cache && f.cache.version == version
      ensures f.pos == old(f.pos)
      ensures if old(IsCurrent(cache)) then f.cache == old(cache) && caches == old(caches)
              else fresh(f.cache) && f.cache.Now() == AsMade(deferred) && caches == old(caches) + {f.cache}
    {
      if cache != null && cache.version == version {
        Hold(f);
      } else {
        MakeCache(f, deferred);
      }
    }

    method MoveTo(f: DirFile, offset: nat)
      requires Valid() && f in files
      modifies f
      ensures Valid() && f.pos == offset && f.cache == old(f.cache)
    {
      hide Truthful, AllHeld;
      var cursor := 0;
      if f.cache != null {
        cursor := f.cache.SeekCursor(offset);
      }
      f.pos, f.cursor := offset, cursor;
    }

    /** Positions are counted from the start or from here, and are never negative. */
    method Seek(f: DirFile, offset: int, origin: Origin) returns (res: Option<nat>)
      requires Valid() && f in files
      modifies `cache, `caches, f, Only(f.cache)`refcount, Only(f.cache)`holders
      ensures Valid() && OnlyFreed()
      ensures var to := if origin.FromHere? then old(f.pos) + offset else offset;
              res == if origin.FromElsewhere? || to < 0 then None else Some(to)
      ensures f.pos == if res.Some? then res.value else old(f.pos)
      ensures f.cache == if old(f.pos) == 0 && old(f.cache) != null && old(f.cache).version != version then null
                         else old(f.cache)
    {
      if f.pos == 0 {
        Reset(f);
      }
      var to := offset;
      match origin {
        case FromHere => to := to + f.pos;
        case FromStart =>
        case FromElsewhere => return None;
      }
      if to < 0 {
        return None;
      }
      if to != f.pos {
        MoveTo(f, to);
      }
      return Some(to);
    }

    /** Lists on from the cursor; a cache of the directory's version stays true. */
    method ListOn(f: DirFile, room: nat, find: CName -> Answer) returns (ok: bool, cursor: nat, emitted: seq<CName>)
      requires Valid() && f in files && f.cache != null && Honest(find, Whole())
      modifies `failed, f.cache`entries, f.cache`asked, f.cache`lost
      ensures Valid() && |f.cache.entries| == old(|f.cache.entries|)
      ensures f.cursor <= cursor <= |f.cache.entries| && (!ok ==> cursor < |f.cache.entries|)
      ensures Emitted(old(f.cache.Now()), f.cache.Now(), f.cursor, cursor, find, room, ok, emitted)
      ensures failed == WithFailed(old(failed), f.cache.entries, cursor, ok)
    {
      hide Emitted, ShowsAllBut, UniqueNames, Honest;
      var c := f.cache;
      ghost var was := c.Now();
      ok, cursor, emitted := c.ListFrom(f.cursor, room, find);
      ListedIsTrue(was, c.Now(), f.cursor, cursor, find, room, ok, emitted, Whole());
      failed := WithFailed(failed, c.entries, cursor, ok);
      assert Counted() && AllHeld();
    }

    /** The position moves with the cursor. */
    method Emit(f: DirFile, room: nat, find: CName -> Answer) returns (ok: bool, emitted: seq<CName>)
      requires Valid() && f in files && f.cache != null && Honest(find, Whole())
      modifies `failed, f`cursor, f`pos, f.cache`entries, f.cache`asked, f.cache`lost
      ensures Valid() && f.pos == old(f.pos) + (f.cursor - old(f.cursor))
      ensures |f.cache.entries| == old(|f.cache.entries|) && (!ok ==> f.cursor < |f.cache.entries|)
      ensures Emitted(old(f.cache.Now()), f.cache.Now(), old(f.cursor), f.cursor, find, room, ok, emitted)
      ensures failed == WithFailed(old(failed), f.cache.entries, f.cursor, ok)
    {
      hide Emitted;
      var cursor;
      ok, cursor, emitted := ListOn(f, room, find);
      Advance(f, cursor);
    }

    method Advance(f: DirFile, cursor: nat)
      requires Valid() && f in files && f.cache != null && f.cursor <= cursor <= |f.cache.entries|
      modifies f`cursor, f`pos
      ensures Valid() && f.cursor == cursor && f.pos == old(f.pos) + (cursor - old(f.cursor))
    {
      f.cursor, f.pos := cursor, f.pos + (cursor - f.cursor);
    }

    /** The cache a listing goes on with: the one the file has, or the one at hand, or a new one. */
    twostate predicate GoesOnWith(f: DirFile)
      reads this, f
    {
      if old(KeepsCache(f)) then f.cache == old(f.cache)
      else if old(IsCurrent(cache)) then f.cache == old(cache)
      else f.cache != null && fresh(f.cache) && f.cache.version == version
    }

    /** A listing begun at the start shows the directory as it is, but for the names whose
        lookup has failed; one that goes on shows the directory as it was when its cache was
        made, less what has been found gone.  was is what the cache held when the listing began:
        the one the file had, or another, perhaps a new one, of the directory's version. */
    method Iterate(f: DirFile, room: nat, deferred: CacheEntry -> bool, find: CName -> Answer)
      returns (ok: bool, emitted: seq<CName>, ghost was: Contents)
      requires Valid() && f in files && Honest(find, Whole())
      modifies `cache, `caches, `failed, f, f.cache, cache
      ensures Valid() && f.cache != null
      ensures var start := StartOf(old(f.pos), f.cache.entries);
              && Emitted(was, f.cache.Now(), start, f.cursor, find, room, ok, emitted)
              && f.pos == old(f.pos) + (f.cursor - start)
      ensures failed == WithFailed(old(failed), f.cache.entries, f.cursor, ok)
      ensures GoesOnWith(f) && cache == if old(KeepsCache(f)) then old(cache) else f.cache
      ensures var c := f.cache; if c in old(caches) then was == old(c.Now()) else was == AsMade(deferred)
      ensures forall c :: c in caches && c != f.cache ==> c in old(caches) && c.Now() == old(c.Now())
      ensures old(f.pos) == 0 && ok && |emitted| < room ==>
                forall n: Name :: n in emitted <==> Visible(Whole(), n) && n !in f.cache.lost
    {
      hide Emitted;
      Prepare(f, deferred);
      was := f.cache.Now();
      ok, emitted := Emit(f, room, find);
      if old(f.pos) == 0 && ok && |emitted| < room {
        WholeListed(f, was, find, room, emitted);
      }
    }

    lemma WholeListed(f: DirFile, was: Contents, find: CName -> Answer, room: nat, emitted: seq<CName>)
      requires Valid() && f.cache != null && f.cache in caches && f.cache.version == version && |emitted| < room
      requires Emitted(was, f.cache.Now(), 0, f.cursor, find, room, true, emitted)
      ensures forall n: Name :: n in emitted <==> Visible(Whole(), n) && n !in f.cache.lost
    {
      ShownNames(f.cache.entries, f.cache.lost, Whole());
      ShownAll(f.cache.entries);
    }

    /** The file goes on with the cache it has. */
    ghost predicate KeepsCache(f: DirFile)
      reads this, f
    {
      f.cache != null && (f.pos != 0 || f.cache.version == version)
    }

    /** Leaves the file with the cache it goes on with, or with one of the directory's
        version. */
    method Prepare(f: DirFile, deferred: CacheEntry -> bool)
      requires Valid() && f in files
      modifies `cache, `caches, f, Only(f.cache)`refcount, Only(f.cache)`holders,
               Only(cache)`refcount, Only(cache)`holders
      ensures Valid() && f.cache != null && f.pos == old(f.pos)
      ensures GoesOnWith(f) && cache == if old(KeepsCache(f)) then old(cache) else f.cache
      ensures fresh(f.cache) ==> f.cache.Now() == AsMade(deferred)
      ensures forall c :: c in caches ==> c in old(caches) || (c == f.cache && fresh(c))
    {
      if f.pos == 0 {
        Reset(f);
      }
      if f.cache == null {
        Attach(f, deferred);
      }
    }

    method Release(f: DirFile)
      requires Valid() && f in files
      modifies `cache, `caches, `files, f, Only(f.cache)`refcount, Only(f.cache)`holders
      ensures Valid() && files == old(files) - {f} && f.cache == null
      ensures OnlyFreed() && forall c :: c in old(caches) && c != old(f.cache) ==> c in caches
    {
      if f.cache != null {
        Put(f);
      }
      Leave(f);
    }

    /** A file that holds no cache goes. */
    method Leave(f: DirFile)
      requires Valid() && f in files && f.cache == null
      modifies `files
      ensures Valid() && files == old(files) - {f}
    {
      assert forall c :: c in caches ==> f !in c.holders;
      hide AllHeld, Truthful;
      files := files - {f};
    }
  }
}
