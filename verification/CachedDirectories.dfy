// A merged directory of a mount, what its overlay inode keeps for readdir, and the files open
// on it: what they list while operations change the tree.

module CachedDirectories {
  import opened Tree
  import opened SearchTree
  import opened Readdir
  import opened MergedDir
  import opened EmptyCheck
  import opened DirCaches
  import opened Changes
  import opened Inodes
  import opened Versions
  import opened Namespace
  import opened Runs

  /** The mount, and the place of the directory in it. */
  datatype Moment = Moment(upper: Node, inodes: Inodes, path: Path)

  /** The operation has led from the one moment to the other, and taken the directory along. */
  ghost predicate Carries(roots: seq<Node>, m: Moment, o: Op, m': Moment) {
    exists err ::
      && StepIs(roots, m.upper, m.inodes, o, err, m'.upper, m'.inodes)
      && Where(ChangeOf(o, err), m.path) == Some(m'.path)
  }

  /** The operation has led to this mount, and taken the directory away. */
  ghost predicate TakesAway(m: Moment, o: Op, fs: Overlay)
    reads fs
  {
    exists err ::
      StepIs(fs.roots, m.upper, m.inodes, o, err, fs.upper, fs.inodes) && Where(ChangeOf(o, err), m.path).None?
  }

  /** The directory at p has the name. */
  predicate There(u: Node, roots: seq<Node>, p: Path, n: Name) {
    View(u, roots, p + [n]) != Absent
  }

  /** The layers are those of the directory at p, each read in an order of its own. */
  ghost predicate ListsAt(layers: seq<Listing>, hasUpper: bool, u: Node, roots: seq<Node>, p: Path) {
    var s := StackAt(u, roots, p);
    AreListings(layers, DirsOf(s)) && hasUpper == s.upper.Some?
  }

  lemma ListingIsLookup(u: Node, roots: seq<Node>, p: Path, layers: seq<Listing>, hasUpper: bool)
    requires View(u, roots, p) == ADir && ListsAt(layers, hasUpper, u, roots, p)
    ensures HasLowest(layers)
    ensures forall n: Name :: Visible(Merged(layers, hasUpper), n) <==> There(u, roots, p, n)
  {
    var s := StackAt(u, roots, p);
    assert IsListing(layers[|layers| - 1], DirsOf(s)[|layers| - 1]);
    forall n: Name ensures Visible(Merged(layers, hasUpper), n) <==> There(u, roots, p, n) {
      VisibleIffLookup(roots, s, layers, n);
      StackAtChild(u, roots, p, n);
    }
  }

  /** A directory whose version is the same has listings that show the same names. */
  lemma SameVersion(u: Node, i: Inodes, u': Node, i': Inodes, roots: seq<Node>, p: Path, p': Path,
                    layers: seq<Listing>, hasUpper: bool, layers': seq<Listing>, hasUpper': bool)
    requires View(u, roots, p) == ADir && ToldAt(u, i, u', i', roots, p, p')
    requires ListsAt(layers, hasUpper, u, roots, p) && ListsAt(layers', hasUpper', u', roots, p')
    ensures HasLowest(layers) && HasLowest(layers')
    ensures i'(p').version == i(p).version ==> SameNames(Merged(layers, hasUpper), Merged(layers', hasUpper'))
  {
    ListingIsLookup(u, roots, p, layers, hasUpper);
    ListingIsLookup(u', roots, p', layers', hasUpper');
    if i'(p').version == i(p).version {
      forall n: Name ensures Visible(Merged(layers, hasUpper), n) <==> Visible(Merged(layers', hasUpper'), n) {
        assert There(u', roots, p', n) <==> There(u, roots, p, n);
      }
    }
  }

  /** What lookups in the directory at p give; some may fail. */
  function Answers(u: Node, roots: seq<Node>, p: Path, fails: Name -> bool): CName -> Answer {
    (n: CName) =>
      if !IsComponent(n) || IsDot(n) then IsThere
      else if fails(n) then NoAnswer
      else if There(u, roots, p, n) then IsThere
      else IsGone
  }

  lemma AnswersAreHonest(u: Node, roots: seq<Node>, p: Path, layers: seq<Listing>, hasUpper: bool, fails: Name -> bool)
    requires View(u, roots, p) == ADir && ListsAt(layers, hasUpper, u, roots, p)
    ensures HasLowest(layers) && Honest(Answers(u, roots, p, fails), Merged(layers, hasUpper))
  {
    ListingIsLookup(u, roots, p, layers, hasUpper);
    var find := Answers(u, roots, p, fails);
    forall n: Name
      ensures (find(n).IsThere? ==> Visible(Merged(layers, hasUpper), n))
           && (find(n).IsGone? ==> !Visible(Merged(layers, hasUpper), n))
    {
      assert IsComponent(n) && !IsDot(n);
      assert Visible(Merged(layers, hasUpper), n) <==> There(u, roots, p, n);
    }
  }

  method ReadLayers(fs: Overlay, p: Path) returns (layers: seq<Listing>, hasUpper: bool)
    requires fs.Valid() && View(fs.upper, fs.roots, p) == ADir
    ensures ListsAt(layers, hasUpper, fs.upper, fs.roots, p)
  {
    var s := StackAt(fs.upper, fs.roots, p);
    StackAtWellStacked(fs.upper, fs.roots, p);
    var ds := DirsOf(s);
    assert forall d | d in ds :: d.Dir?;
    layers := ListAll(ds);
    hasUpper := s.upper.Some?;
  }

  /** Where a seek leaves a file. */
  function SeekTo(pos: nat, offset: int, origin: Origin): nat {
    var to := if origin.FromHere? then pos + offset else offset;
    if origin.FromElsewhere? || to < 0 then pos else to
  }

  class OpenDirectory {
    const fs: Overlay
    const dir: Directory
    var path: Path

    /** The directory is at the path, is listed as a merged one, and has the version of its
        inode. */
    ghost predicate IsHere()
      reads this, fs, dir
    {
      && View(fs.upper, fs.roots, path) == ADir && fs.inodes(path).whiteouts
      && dir.version == fs.inodes(path).version
      && ListsAt(dir.layers, dir.hasUpper, fs.upper, fs.roots, path)
    }

    ghost predicate Valid()
      reads this, fs, dir, dir.files, dir.caches
    {
      fs.Valid() && dir.Valid() && IsHere()
    }

    ghost function Now(): Moment
      reads this, fs
    {
      Moment(fs.upper, fs.inodes, path)
    }

    constructor (fs: Overlay, path: Path)
      requires fs.Valid() && View(fs.upper, fs.roots, path) == ADir && fs.inodes(path).whiteouts
      ensures Valid() && this.fs == fs && this.path == path && fresh(dir)
      ensures dir.files == {} && dir.failed == {}
    {
      var layers, hasUpper := ReadLayers(fs, path);
      ListingIsLookup(fs.upper, fs.roots, path, layers, hasUpper);
      this.fs, this.path := fs, path;
      dir := new Directory(layers, hasUpper, fs.inodes(path).version);
    }

    /** One operation anywhere in the tree; the directory may be moved or be gone. */
    method Do(o: Op) returns (err: Errno, here: bool)
      requires Valid()
      modifies this`path, fs`upper, fs`inodes, dir`layers, dir`hasUpper, dir`version
      ensures fs.Valid() && dir.Valid()
      ensures StepIs(fs.roots, old(fs.upper), old(fs.inodes), o, err, fs.upper, fs.inodes)
      ensures here <==> Where(ChangeOf(o, err), old(path)).Some?
      ensures here ==> Valid() && path == Where(ChangeOf(o, err), old(path)).value
      ensures if here then Carries(fs.roots, old(Now()), o, Now()) else TakesAway(old(Now()), o, fs)
    {
      ghost var u, i := fs.upper, fs.inodes;
      err := Step(fs, o);
      match Where(ChangeOf(o, err), path) {
        case None => here := false;
        case Some(p) =>
          assert ToldAt(u, i, fs.upper, fs.inodes, fs.roots, path, p);
          Follow(u, i, p);
          here := true;
      }
    }

    /** The directory's layers are to be read afresh, at the place where it is now. */
    method Follow(ghost u: Node, ghost i: Inodes, p: Path)
      requires fs.Valid() && dir.Valid() && ToldAt(u, i, fs.upper, fs.inodes, fs.roots, path, p)
      requires View(u, fs.roots, path) == ADir && i(path).whiteouts && dir.version == i(path).version
      requires ListsAt(dir.layers, dir.hasUpper, u, fs.roots, path)
      modifies this`path, dir`layers, dir`hasUpper, dir`version
      ensures Valid() && path == p
    {
      var layers, hasUpper := ReadLayers(fs, p);
      SameVersion(u, i, fs.upper, fs.inodes, fs.roots, path, p, dir.layers, dir.hasUpper, layers, hasUpper);
      dir.Change(layers, hasUpper, fs.inodes(p).version);
      path := p;
    }

    method Open() returns (f: DirFile)
      requires Valid()
      modifies dir`files
      ensures Valid() && fresh(f) && dir.files == old(dir.files) + {f} && f.pos == 0 && f.cache == null
    {
      f := dir.Open();
    }

    method Seek(f: DirFile, offset: int, origin: Origin)
      requires Valid() && f in dir.files
      modifies dir`cache, dir`caches, f, Only(f.cache)`refcount, Only(f.cache)`holders
      ensures Valid() && f.pos == SeekTo(old(f.pos), offset, origin) && dir.OnlyFreed()
      ensures f.cache == if old(f.pos) == 0 && old(f.cache) != null && old(f.cache).version != fs.inodes(path).version
                         then null else old(f.cache)
    {
      var at := dir.Seek(f, offset, origin);
    }

    method Close(f: DirFile)
      requires Valid() && f in dir.files
      modifies dir`cache, dir`caches, dir`files, f, Only(f.cache)`refcount, Only(f.cache)`holders
      ensures Valid() && dir.files == old(dir.files) - {f} && dir.OnlyFreed()
    {
      dir.Release(f);
    }

    /** A listing begun at the start that is not cut short has exactly the names lookup finds,
        but for those whose lookup has failed. */
    method List(f: DirFile, room: nat, deferred: CacheEntry -> bool, fails: Name -> bool)
      returns (ok: bool, emitted: seq<CName>, ghost was: Contents)
      requires Valid() && f in dir.files
      modifies dir`cache, dir`caches, dir`failed, f, f.cache, dir.cache
      ensures Valid() && f.cache != null
      ensures old(f.pos) == 0 && ok && |emitted| < room ==>
          forall n: Name :: n in emitted <==> There(fs.upper, fs.roots, path, n) && n !in f.cache.lost
      ensures var start, find := StartOf(old(f.pos), f.cache.entries), Answers(fs.upper, fs.roots, path, fails);
              && Emitted(was, f.cache.Now(), start, f.cursor, find, room, ok, emitted)
              && f.pos == old(f.pos) + (f.cursor - start)
      ensures dir.failed == WithFailed(old(dir.failed), f.cache.entries, f.cursor, ok)
      ensures dir.GoesOnWith(f) && dir.cache == if old(dir.KeepsCache(f)) then old(dir.cache) else f.cache
      ensures var c := f.cache; if c in old(dir.caches) then was == old(c.Now()) else was == dir.AsMade(deferred)
      ensures forall c :: c in dir.caches && c != f.cache ==> c in old(dir.caches) && c.Now() == old(c.Now())
    {
      AnswersAreHonest(fs.upper, fs.roots, path, dir.layers, dir.hasUpper, fails);
      ListingIsLookup(fs.upper, fs.roots, path, dir.layers, dir.hasUpper);
      hide Emitted;
      ok, emitted, was := dir.Iterate(f, room, deferred, Answers(fs.upper, fs.roots, path, fails));
    }
  }

  /** A cache of the version the directory has, whoever made it and whatever has been done
      since, shows exactly the names lookup finds, but for those it has lost; and lost are only
      names whose lookup has failed in a listing of this directory. */
  lemma CurrentIsTrue(d: OpenDirectory, c: DirCache, n: Name)
    requires d.Valid() && c in d.dir.caches && c.version == d.fs.inodes(d.path).version
    ensures n in Shown(c.entries) <==> There(d.fs.upper, d.fs.roots, d.path, n) && n !in c.lost
    ensures n in c.lost ==> n in d.dir.failed
  {
    ListingIsLookup(d.fs.upper, d.fs.roots, d.path, d.dir.layers, d.dir.hasUpper);
    ShownNames(c.entries, c.lost, d.dir.Whole());
  }

  // ------------------------------------------------------------ a name that is lost

  lemma {:induction false} ShownLength(es: seq<CacheEntry>)
    ensures |Shown(es)| <= |es|
  {
    if es != [] {
      ShownLength(es[1..]);
    }
  }

  ghost predicate FailsFor(find: CName -> Answer, n: Name) {
    forall m: CName :: find(m).NoAnswer? <==> m == n
  }

  lemma OnlyOneFails(u: Node, roots: seq<Node>, p: Path, fails: Name -> bool, n: Name)
    requires forall m: Name :: fails(m) <==> m == n
    ensures FailsFor(Answers(u, roots, p, fails), n)
  {
    var find := Answers(u, roots, p, fails);
    assert IsComponent(n) && !IsDot(n);
    forall m: CName ensures find(m).NoAnswer? <==> m == n {
      if IsComponent(m) && !IsDot(m) {
        var x: Name := m;
        assert fails(x) <==> x == n;
      }
    }
  }

  lemma FirstFails(was: Contents, deferred: CacheEntry -> bool, now: Contents, cursor: nat, find: CName -> Answer,
                   n: Name, room: nat, ok: bool, names: seq<CName>)
    requires UniqueNames(was.entries) && Visible(was.entries, n) && forall e :: deferred(e)
    requires was.asked == Known(was.entries, deferred) && was.lost == {} && FailsFor(find, n)
    requires Emitted(was, now, 0, cursor, find, room, ok, names) && room > |was.entries|
    ensures !ok && now.lost == {n}
  {
    ShownLength(now.entries[0..cursor]);
    var k :| 0 <= k < |was.entries| && was.entries[k].name == n && !was.entries[k].isWhiteout;
    assert Fails(was.entries[k], was.asked[k], find);
  }

  lemma ThenNothingFails(was: Contents, now: Contents, cursor: nat, find: CName -> Answer, room: nat, ok: bool,
                         names: seq<CName>)
    requires Emitted(was, now, 0, cursor, find, room, ok, names) && |was.entries| < room
    requires forall m: CName :: !find(m).NoAnswer?
    ensures ok && now.lost == was.lost && |names| < room
  {
    ShownLength(now.entries[0..cursor]);
  }

  /** The directory is listed for the first time, and the lookup of n fails. */
  method LoseName(d: OpenDirectory, f: DirFile, n: Name, room: nat)
    requires d.Valid() && f in d.dir.files && f.pos == 0 && f.cache == null && d.dir.cache == null
    requires There(d.fs.upper, d.fs.roots, d.path, n) && room > |d.dir.Whole()|
    modifies d.dir`cache, d.dir`caches, d.dir`failed, f
    ensures d.Valid() && f in d.dir.files && f.cache != null && fresh(f.cache)
    ensures d.dir.cache == null || fresh(d.dir.cache)
    ensures f.cache.version == d.dir.version && f.cache.lost == {n} && |f.cache.entries| == |d.dir.Whole()|
  {
    ListingIsLookup(d.fs.upper, d.fs.roots, d.path, d.dir.layers, d.dir.hasUpper);
    MergedIsTop(d.dir.layers, d.dir.hasUpper);
    var all, fails := (e: CacheEntry) => true, (x: Name) => x == n;
    var find := Answers(d.fs.upper, d.fs.roots, d.path, fails);
    var ok, names, was := d.List(f, room, all, fails);
    OnlyOneFails(d.fs.upper, d.fs.roots, d.path, fails, n);
    FirstFails(was, all, f.cache.Now(), f.cursor, find, n, room, ok, names);
  }

  /** It is listed again, from the start, and no lookup fails. */
  method ListAgain(d: OpenDirectory, f: DirFile, room: nat) returns (ok: bool, names: seq<CName>)
    requires d.Valid() && f in d.dir.files && f.pos == 0 && f.cache != null
    requires f.cache.version == d.dir.version && |f.cache.entries| < room
    modifies d.dir`cache, d.dir`caches, d.dir`failed, f, f.cache, d.dir.cache
    ensures d.Valid() && ok && |names| < room
    ensures forall m: Name :: m in names <==> There(d.fs.upper, d.fs.roots, d.path, m) && m !in old(f.cache.lost)
  {
    var none := (m: Name) => false;
    ghost var was;
    ok, names, was := d.List(f, room, (e: CacheEntry) => true, none);
    ThenNothingFails(was, f.cache.Now(), f.cursor, Answers(d.fs.upper, d.fs.roots, d.path, none), room, ok, names);
  }

  method SeekAndList(d: OpenDirectory, f: DirFile, room: nat) returns (ok: bool, names: seq<CName>)
    requires d.Valid() && f in d.dir.files && f.cache != null
    requires f.cache.version == d.dir.version && |f.cache.entries| < room
    modifies d.dir`cache, d.dir`caches, d.dir`failed, f, f.cache, d.dir.cache
    ensures d.Valid() && ok && |names| < room
    ensures forall m: Name :: m in names <==> There(d.fs.upper, d.fs.roots, d.path, m) && m !in old(f.cache.lost)
  {
    var at := d.dir.Seek(f, 0, FromStart);
    ok, names := ListAgain(d, f, room);
  }

  /** The first lookup of a name fails when the directory is listed; nothing fails when it is
      listed again from the start, and no operation has been done.  The name is there, the second
      listing is complete, and it is the one name missing. */
  method NameLost(d: OpenDirectory, n: Name, room: nat) returns (ok: bool, names: seq<CName>)
    requires d.Valid() && d.dir.cache == null && There(d.fs.upper, d.fs.roots, d.path, n)
    requires room > |d.dir.Whole()|
    modifies d.dir`files, d.dir`cache, d.dir`caches, d.dir`failed
    ensures d.Valid() && ok && |names| < room
    ensures There(d.fs.upper, d.fs.roots, d.path, n) && n !in names
    ensures forall m: Name :: m in names <==> There(d.fs.upper, d.fs.roots, d.path, m) && m != n
  {
    var f := d.dir.Open();
    LoseName(d, f, n, room);
    ok, names := SeekAndList(d, f, room);
  }

  // ------------------------------------------------------- a listing read in pieces

  ghost predicate Always(moments: seq<Moment>, roots: seq<Node>, n: Name) {
    forall m :: m in moments ==> There(m.upper, roots, m.path, n)
  }

  /** The list has only names that were there at first, and all that have always been. */
  ghost predicate ShowsBetween(es: seq<CacheEntry>, lost: set<CName>, moments: seq<Moment>, roots: seq<Node>)
    requires moments != []
  {
    forall n: Name ::
      && (n in Shown(es) ==> There(moments[0].upper, roots, moments[0].path, n))
      && (Always(moments, roots, n) && n !in lost ==> n in Shown(es))
  }

  lemma ShowsAtFirst(es: seq<CacheEntry>, lost: set<CName>, whole: seq<CacheEntry>, m: Moment, roots: seq<Node>)
    requires ShowsAllBut(es, lost, whole)
    requires forall n: Name :: Visible(whole, n) <==> There(m.upper, roots, m.path, n)
    ensures ShowsBetween(es, lost, [m], roots)
  {
    forall n: Name
      ensures n in Shown(es) ==> There(m.upper, roots, m.path, n)
      ensures Always([m], roots, n) && n !in lost ==> n in Shown(es)
    {
      ShownIsVisible(es, n);
      assert Visible(whole, n) <==> There(m.upper, roots, m.path, n);
      assert m in [m];
    }
  }

  /** Looking entries up at a later moment takes away only what is not there then. */
  lemma ShowsLater(was: Contents, now: Contents, start: nat, cursor: nat, room: nat, ok: bool, emitted: seq<CName>,
                   moments: seq<Moment>, m: Moment, roots: seq<Node>, fails: Name -> bool)
    requires UniqueNames(was.entries) && moments != [] && ShowsBetween(was.entries, was.lost, moments, roots)
    requires Emitted(was, now, start, cursor, Answers(m.upper, roots, m.path, fails), room, ok, emitted)
    ensures ShowsBetween(now.entries, now.lost, moments + [m], roots)
  {
    var find := Answers(m.upper, roots, m.path, fails);
    forall n: Name
      ensures n in Shown(now.entries) ==> There(moments[0].upper, roots, moments[0].path, n)
      ensures Always(moments + [m], roots, n) && n !in now.lost ==> n in Shown(now.entries)
    {
      ShownIsVisible(was.entries, n);
      ShownIsVisible(now.entries, n);
      LookedVisible(was.entries, was.asked, now.entries, start, cursor + 1, find, n);
      if Visible(was.entries, n) && !Visible(now.entries, n) {
        var i: nat :| StaleAt(was.entries, was.asked, start, cursor + 1, find, n, i);
        assert find(n).IsGone? || n in now.lost;
      }
      assert forall x :: x in moments ==> x in moments + [m];
      assert m in moments + [m];
    }
  }

  /** What has been read of the listing so far. */
  ghost predicate ReadSoFar(f: DirFile, names: seq<CName>, moments: seq<Moment>, roots: seq<Node>)
    requires moments != []
    reads f, f.cache
  {
    && f.cache != null && f.cursor <= |f.cache.entries| && f.cache.IsList()
    && names == Shown(f.cache.entries[..f.cursor])
    && ShowsBetween(f.cache.entries, f.cache.lost, moments, roots)
  }

  ghost predicate Reading(d: OpenDirectory, f: DirFile, names: seq<CName>, moments: seq<Moment>)
    reads d, d.fs, d.dir, d.dir.files, d.dir.caches, f, f.cache
  {
    && d.Valid() && f in d.dir.files
    && moments != [] && ReadSoFar(f, names, moments, d.fs.roots)
  }

  lemma Begun(d: OpenDirectory, f: DirFile, names: seq<CName>)
    requires d.Valid() && f in d.dir.files && f.cache != null && f.cache.version == d.dir.version
    requires f.cursor <= |f.cache.entries| && names == Shown(f.cache.entries[0..f.cursor])
    ensures Reading(d, f, names, [d.Now()])
  {
    var c := f.cache;
    ListingIsLookup(d.fs.upper, d.fs.roots, d.path, d.dir.layers, d.dir.hasUpper);
    ShowsAtFirst(c.entries, c.lost, d.dir.Whole(), d.Now(), d.fs.roots);
    assert c.entries[0..f.cursor] == c.entries[..f.cursor];
  }

  /** How a piece of a listing ended: the room was filled, the lookup of the entry at which the
      file stands failed, or there is nothing more. */
  ghost predicate PieceIs(f: DirFile, before: set<CName>, count: int, room: nat, fails: Name -> bool, ok: bool)
    reads f, f.cache
  {
    && f.cache != null && f.cursor <= |f.cache.entries|
    && (!ok ==> f.cursor < |f.cache.entries| && FailsOn(fails, f.cache.entries[f.cursor].name))
    && f.cache.lost == WithFailed(before, f.cache.entries, f.cursor, ok)
    && (ok && f.cursor < |f.cache.entries| ==> count == room)
  }

  predicate FailsOn(fails: Name -> bool, n: CName) {
    IsComponent(n) && !IsDot(n) && fails(n)
  }

  lemma PieceRead(d: OpenDirectory, f: DirFile, was: Contents, start: nat, room: nat, fails: Name -> bool, ok: bool,
                  names: seq<CName>)
    requires f.cache != null
    requires Emitted(was, f.cache.Now(), start, f.cursor, Answers(d.fs.upper, d.fs.roots, d.path, fails),
                     room, ok, names)
    ensures PieceIs(f, was.lost, |names|, room, fails, ok)
  {
  }

  /** One more piece. */
  method ReadPiece(d: OpenDirectory, f: DirFile, names: seq<CName>, ghost moments: seq<Moment>, room: nat,
                   deferred: CacheEntry -> bool, fails: Name -> bool)
    returns (ok: bool, names': seq<CName>)
    requires Reading(d, f, names, moments) && f.pos != 0
    modifies d.dir`cache, d.dir`caches, d.dir`failed, f, f.cache, d.dir.cache
    ensures Reading(d, f, names', moments + [d.Now()])
    ensures f.cache == old(f.cache) && f.pos != 0 && d.dir.cache == old(d.dir.cache)
    ensures PieceIs(f, old(f.cache.lost), |names'| - |names|, room, fails, ok)
  {
    ghost var was0, start := f.cache.Now(), f.cursor;
    var more;
    ghost var was;
    ok, more, was := d.List(f, room, deferred, fails);
    ShowsLater(was0, f.cache.Now(), start, f.cursor, room, ok, more, moments, d.Now(), d.fs.roots, fails);
    ShownFurther(was0.entries, f.cache.entries, start, f.cursor);
    PieceRead(d, f, was0, start, room, fails, ok, more);
    names' := names + more;
  }

  lemma ShownFurther(es: seq<CacheEntry>, es': seq<CacheEntry>, start: nat, cursor: nat)
    requires start <= cursor <= |es| == |es'| && forall i :: 0 <= i < start ==> es'[i] == es[i]
    ensures Shown(es'[..cursor]) == Shown(es[..start]) + Shown(es'[start..cursor])
  {
    ShownConcat(es'[..start], es'[start..cursor]);
    assert es'[..start] == es[..start];
    assert es'[..cursor] == es'[..start] + es'[start..cursor];
  }

  /** Each name once, and only names that were there at the moment. */
  ghost predicate OnlyFrom(names: seq<CName>, m: Moment, roots: seq<Node>) {
    && (forall i, j :: 0 <= i < j < |names| ==> names[i] != names[j])
    && (forall n: Name :: n in names ==> There(m.upper, roots, m.path, n))
  }

  /** What a whole listing has, read while the tree changes. */
  ghost predicate ListedBetween(names: seq<CName>, lost: set<CName>, moments: seq<Moment>, roots: seq<Node>)
    requires moments != []
  {
    && OnlyFrom(names, moments[0], roots)
    && (forall n: Name :: Always(moments, roots, n) && n !in lost ==> n in names)
  }

  /** What has been read has each name once, and no more than was there at first. */
  lemma PiecesOnlyFrom(es: seq<CacheEntry>, lost: set<CName>, cursor: nat, moments: seq<Moment>, roots: seq<Node>)
    requires moments != [] && UniqueNames(es) && cursor <= |es| && ShowsBetween(es, lost, moments, roots)
    ensures OnlyFrom(Shown(es[..cursor]), moments[0], roots)
    ensures cursor == |es| ==> ListedBetween(Shown(es[..cursor]), lost, moments, roots)
  {
    ShownOnce(es);
    ShownConcat(es[..cursor], es[cursor..]);
    assert es == es[..cursor] + es[cursor..];
    assert forall i :: 0 <= i < |Shown(es[..cursor])| ==> Shown(es)[i] == Shown(es[..cursor])[i];
    forall n: Name | n in Shown(es[..cursor]) ensures There(moments[0].upper, roots, moments[0].path, n) {
      assert n in Shown(es);
    }
    if cursor == |es| {
      assert es[..cursor] == es;
    }
  }

  /** The moments at which the pieces are read, with an operation before each but the first. */
  ghost predicate Goes(moments: seq<Moment>, ops: seq<Op>, roots: seq<Node>) {
    && 1 <= |moments| <= |ops| + 1
    && forall k :: 0 < k < |moments| ==> Carries(roots, moments[k - 1], ops[k - 1], moments[k])
  }

  lemma GoesOneMore(moments: seq<Moment>, ops: seq<Op>, roots: seq<Node>, m: Moment)
    requires Goes(moments, ops, roots) && |moments| <= |ops|
    requires Carries(roots, moments[|moments| - 1], ops[|moments| - 1], m)
    ensures Goes(moments + [m], ops, roots)
  {
  }

  /** The names of that many pieces which leave no room. */
  ghost function Full(room: nat, pieces: nat): nat {
    if pieces == 0 then 0 else Full(room, pieces - 1) + room
  }

  /** Why the reading of a listing came to its end. */
  datatype End = Finished | DirectoryGone | LookupFailed | NoMoreOps

  /** What the end says: nothing is left to read, the next operation has taken the directory away,
      the lookup of the entry at which the file stands has failed, or after the last operation there
      is still more to read and each piece so far was as long as could be. */
  ghost predicate EndIs(end: End, f: DirFile, names: seq<CName>, moments: seq<Moment>, ops: seq<Op>, room: nat,
                        fails: Name -> bool, fs: Overlay)
    requires f.cache != null && Goes(moments, ops, fs.roots)
    reads f, f.cache, fs
  {
    match end
    case Finished => f.cursor == |f.cache.entries| && ListedBetween(names, f.cache.lost, moments, fs.roots)
    case DirectoryGone => |moments| <= |ops| && TakesAway(moments[|moments| - 1], ops[|moments| - 1], fs)
    case LookupFailed => f.cursor < |f.cache.entries| && FailsOn(fails, f.cache.entries[f.cursor].name)
    case NoMoreOps =>
      |moments| == |ops| + 1 && f.cursor < |f.cache.entries| && |names| == Full(room, |moments|)
  }

  /** The reading has ended so; before is what the cache had lost when it began. */
  ghost predicate Concluded(end: End, f: DirFile, names: seq<CName>, moments: seq<Moment>, ops: seq<Op>,
                            before: set<CName>, room: nat, fails: Name -> bool, fs: Overlay)
    reads f, f.cache, fs
  {
    && f.cache != null && Goes(moments, ops, fs.roots) && EndIs(end, f, names, moments, ops, room, fails, fs)
    && OnlyFrom(names, moments[0], fs.roots)
    && f.cache.lost == WithFailed(before, f.cache.entries, f.cursor, !end.LookupFailed?)
  }

  /** The reading after a piece. */
  ghost predicate Underway(d: OpenDirectory, f: DirFile, names: seq<CName>, moments: seq<Moment>, ops: seq<Op>,
                           before: set<CName>, room: nat, fails: Name -> bool, ok: bool)
    reads d, d.fs, d.dir, d.dir.files, d.dir.caches, f, f.cache
  {
    && Reading(d, f, names, moments) && Goes(moments, ops, d.fs.roots) && moments[|moments| - 1] == d.Now()
    && PieceIs(f, before, room, room, fails, ok)
    && (ok && f.cursor < |f.cache.entries| ==> f.pos != 0 && |names| == Full(room, |moments|))
  }

  /** The first piece; before is what the cache had lost already. */
  method Begin(d: OpenDirectory, f: DirFile, ops: seq<Op>, room: nat,
               deferred: CacheEntry -> bool, fails: Name -> bool)
    returns (ok: bool, names: seq<CName>, ghost before: set<CName>)
    requires d.Valid() && f in d.dir.files && f.pos == 0 && room > 0
    modifies d.dir`cache, d.dir`caches, d.dir`failed, f, f.cache, d.dir.cache
    ensures Underway(d, f, names, [d.Now()], ops, before, room, fails, ok) && d.Now() == old(d.Now())
    ensures f.cache != null && (d.dir.cache == f.cache || d.dir.cache == old(d.dir.cache))
    ensures f.cache == old(f.cache) || f.cache == old(d.dir.cache) || fresh(f.cache)
    ensures var c := f.cache; before == if c in old(d.dir.caches) then old(c.lost) else {}
  {
    ghost var was;
    ok, names, was := d.List(f, room, deferred, fails);
    before := was.lost;
    Begun(d, f, names);
    PieceRead(d, f, was, 0, room, fails, ok, names);
  }

  /** An operation, and one more piece if the directory is still there. */
  method Round(d: OpenDirectory, f: DirFile, ops: seq<Op>, k: nat, names: seq<CName>, ghost moments: seq<Moment>,
               ghost before: set<CName>, room: nat, deferred: CacheEntry -> bool, fails: Name -> bool)
    returns (here: bool, ok: bool, names': seq<CName>, ghost moments': seq<Moment>)
    requires Underway(d, f, names, moments, ops, before, room, fails, true)
    requires f.cursor < |f.cache.entries| && k < |ops| && |moments| == k + 1
    modifies d`path, d.fs`upper, d.fs`inodes, d.dir, f, f.cache, d.dir.cache
    ensures f.cache != null && f.cache == old(f.cache) && d.dir.cache == old(d.dir.cache)
    ensures moments <= moments' && |moments'| == |moments| + (if here then 1 else 0)
    ensures here ==> Underway(d, f, names', moments', ops, before, room, fails, ok)
    ensures !here ==> d.fs.Valid() && d.dir.Valid()
    ensures !here ==> Concluded(DirectoryGone, f, names', moments', ops, before, room, fails, d.fs)
  {
    hide *;
    IsUnderway(d, f, names, moments, ops, before, room, fails);
    var err;
    err, here := d.Do(ops[k]);
    ok, names', moments' := false, names, moments;
    if here {
      GoesOneMore(moments, ops, d.fs.roots, d.Now());
      ok, names' := ReadPiece(d, f, names, moments, room, deferred, fails);
      moments' := moments + [d.Now()];
      StillUnderway(d, f, names', moments', ops, before, room, fails, ok, |names'| - |names|);
    } else {
      GoneSo(d, f, names, moments, ops, before, room, fails);
    }
  }

  lemma IsUnderway(d: OpenDirectory, f: DirFile, names: seq<CName>, moments: seq<Moment>, ops: seq<Op>,
                   before: set<CName>, room: nat, fails: Name -> bool)
    requires Underway(d, f, names, moments, ops, before, room, fails, true) && f.cursor < |f.cache.entries|
    ensures Reading(d, f, names, moments) && Goes(moments, ops, d.fs.roots) && moments[|moments| - 1] == d.Now()
    ensures d.Valid() && OnlyFrom(names, moments[0], d.fs.roots) && f.cache != null && f.cache.lost == before
    ensures f.pos != 0 && |names| == Full(room, |moments|)
  {
    PiecesOnlyFrom(f.cache.entries, f.cache.lost, f.cursor, moments, d.fs.roots);
  }

  lemma StillUnderway(d: OpenDirectory, f: DirFile, names: seq<CName>, moments: seq<Moment>, ops: seq<Op>,
                      before: set<CName>, room: nat, fails: Name -> bool, ok: bool, more: int)
    requires Reading(d, f, names, moments) && Goes(moments, ops, d.fs.roots) && moments[|moments| - 1] == d.Now()
    requires PieceIs(f, before, more, room, fails, ok) && |names| == Full(room, |moments| - 1) + more && f.pos != 0
    ensures Underway(d, f, names, moments, ops, before, room, fails, ok)
  {
  }

  lemma GoneSo(d: OpenDirectory, f: DirFile, names: seq<CName>, moments: seq<Moment>, ops: seq<Op>,
               before: set<CName>, room: nat, fails: Name -> bool)
    requires f.cache != null && f.cache.lost == before && Goes(moments, ops, d.fs.roots) && |moments| <= |ops|
    requires OnlyFrom(names, moments[0], d.fs.roots)
    requires TakesAway(moments[|moments| - 1], ops[|moments| - 1], d.fs)
    ensures Concluded(DirectoryGone, f, names, moments, ops, before, room, fails, d.fs)
  {
  }

  lemma Concludes(d: OpenDirectory, f: DirFile, names: seq<CName>, moments: seq<Moment>, ops: seq<Op>,
                  before: set<CName>, room: nat, fails: Name -> bool, ok: bool, end: End)
    requires Underway(d, f, names, moments, ops, before, room, fails, ok)
    requires ok && f.cursor < |f.cache.entries| ==> |moments| == |ops| + 1
    requires end == if !ok then LookupFailed else if f.cursor == |f.cache.entries| then Finished else NoMoreOps
    ensures Concluded(end, f, names, moments, ops, before, room, fails, d.fs)
    ensures d.fs.Valid() && d.dir.Valid() && d.Valid() && moments[|moments| - 1] == d.Now()
  {
    PiecesOnlyFrom(f.cache.entries, f.cache.lost, f.cursor, moments, d.fs.roots);
  }

  /** However the tree changes between the pieces, what is read has each name once and only names
      that were there when it began; and a listing that comes to its end has all the names that
      were there at each piece, but for those that its cache had lost before.  It ends only for one
      of the four reasons, and the cache loses no name but the one whose lookup has failed. */
  method ReadThrough(d: OpenDirectory, f: DirFile, ops: seq<Op>, room: nat,
                     deferred: CacheEntry -> bool, fails: Name -> bool)
    returns (end: End, names: seq<CName>, ghost moments: seq<Moment>, ghost before: set<CName>)
    requires d.Valid() && f in d.dir.files && f.pos == 0 && room > 0
    modifies d`path, d.fs`upper, d.fs`inodes, d.dir, f, f.cache, d.dir.cache
    ensures Concluded(end, f, names, moments, ops, before, room, fails, d.fs)
    ensures moments[0] == old(d.Now())
    ensures var c := f.cache; before == if c in old(d.dir.caches) then old(c.lost) else {}
    ensures d.fs.Valid() && d.dir.Valid()
    ensures !end.DirectoryGone? ==> d.Valid() && moments[|moments| - 1] == d.Now()
  {
    hide *;
    moments := [d.Now()];
    var ok;
    ok, names, before := Begin(d, f, ops, room, deferred, fails);
    var k := 0;
    while ok && f.cursor < |f.cache.entries| && k < |ops|
      decreases |ops| - k
      invariant 0 <= k <= |ops| && |moments| == k + 1 && moments[0] == old(d.Now()) && f.cache != null
      invariant Underway(d, f, names, moments, ops, before, room, fails, ok)
      invariant d.dir.cache == f.cache || d.dir.cache == old(d.dir.cache)
      invariant f.cache == old(f.cache) || f.cache == old(d.dir.cache) || fresh(f.cache)
      invariant var c := f.cache; before == if c in old(d.dir.caches) then old(c.lost) else {}
    {
      var here;
      here, ok, names, moments := Round(d, f, ops, k, names, moments, before, room, deferred, fails);
      if !here {
        return DirectoryGone, names, moments, before;
      }
      k := k + 1;
    }
    end := if !ok then LookupFailed else if f.cursor == |f.cache.entries| then Finished else NoMoreOps;
    Concludes(d, f, names, moments, ops, before, room, fails, ok, end);
  }
}
