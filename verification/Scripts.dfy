// A client with any number of files open on one directory: it opens, lists, seeks and closes
// them and does operations anywhere in the tree, in any order.

module Scripts {
  import opened Tree
  import opened SearchTree
  import opened DirCaches
  import opened Inodes
  import opened Namespace
  import opened Runs
  import opened CachedDirectories
  import opened Scenes

  /** What the caches of the directory hold. */
  ghost function Caches(dir: Directory): map<DirCache, Contents>
    reads dir`caches, dir.caches`entries, dir.caches`asked, dir.caches`lost
  {
    map c | c in dir.caches :: c.Now()
  }

  /** With no file open there is no cache. */
  lemma NoFileNoCache(dir: Directory)
    requires dir.Valid() && dir.files == {}
    ensures dir.cache == null && dir.caches == {}
  {
    forall c | c in dir.caches ensures c.holders != {} {
      assert c.refcount == |c.holders|;
    }
    assert forall c :: c in dir.caches ==> forall f :: f in c.holders ==> f in dir.files;
  }

  lemma MadeNow(d: OpenDirectory, deferred: CacheEntry -> bool)
    requires d.Valid()
    ensures JustMade(d.dir.AsMade(deferred), deferred, d.Now(), d.fs.roots)
  {
    assert ListsAt(d.dir.layers, d.dir.hasUpper, d.fs.upper, d.fs.roots, d.path) && HasLowest(d.dir.layers);
  }

  /** The cache is there and has the version of the directory. */
  ghost predicate IsCurrent(c: DirCache?, m: Moment) {
    c != null && c.version == VersionAt(m)
  }

  lemma ListingSo(was: Contents, now: Contents, pos: nat, pos': nat, cursor: nat, a: Action, m: Moment,
                  roots: seq<Node>, ok: bool, names: seq<CName>)
    requires var start := StartOf(pos, now.entries);
             && a.Lists? && pos' == pos + (cursor - start)
             && Emitted(was, now, start, cursor, Answers(m.upper, roots, m.path, a.fails), a.room, ok, names)
    ensures !ok ==> cursor < |now.entries|
    ensures ListingIs(was, now, pos, pos', a, m, roots,
                      Listed(pos, if ok then None else Some(now.entries[cursor].name), names))
  {
  }

  /** A listing of one file, as far as the others are concerned. */
  method ListFile(d: OpenDirectory, f: DirFile, a: Action) returns (l: Listed, ghost was: Contents)
    requires d.Valid() && f in d.dir.files && a.Lists?
    modifies d.dir`cache, d.dir`caches, d.dir`failed, f, f.cache, d.dir.cache
    ensures d.Valid() && f.cache != null && f.cache in d.dir.caches
    ensures ListingIs(was, f.cache.Now(), old(f.pos), f.pos, a, d.Now(), d.fs.roots, l)
    ensures var c := f.cache;
            if c in old(d.dir.caches) then was == old(c.Now())
            else fresh(c) && JustMade(was, a.deferred, d.Now(), d.fs.roots)
    ensures if Keeps(old(Held(f.pos, f.cache)), d.Now()) then f.cache == old(f.cache)
            else if IsCurrent(old(d.dir.cache), d.Now()) then f.cache == old(d.dir.cache)
            else fresh(f.cache) && f.cache.version == VersionAt(d.Now())
    ensures d.dir.cache == if Keeps(old(Held(f.pos, f.cache)), d.Now()) then old(d.dir.cache) else f.cache
    ensures forall c :: c in d.dir.caches && c != f.cache ==> c in old(d.dir.caches) && c.Now() == old(c.Now())
  {
    hide Emitted, JustMade, ListingIs;
    var pos := f.pos;
    var ok, names;
    ok, names, was := d.List(f, a.room, a.deferred, a.fails);
    ListingSo(was, f.cache.Now(), pos, f.pos, f.cursor, a, d.Now(), d.fs.roots, ok, names);
    l := Listed(pos, if ok then None else Some(f.cache.entries[f.cursor].name), names);
    MadeNow(d, a.deferred);
  }

  class Client {
    const d: OpenDirectory
    var handles: seq<DirFile?>
    /** What is known of each handle. */
    ghost var files: seq<Option<Held>>

    ghost predicate Valid()
      reads this, d, d.fs, d.dir, d.dir.files, d.dir.caches
    {
      d.Valid() && HandlesOk()
    }

    ghost predicate HandlesOk()
      reads this, d.dir`files, d.dir.files
    {
      AllDistinct() && forall k :: 0 <= k < |handles| ==> HandleOk(handles[k], files[k])
    }

    ghost predicate AllDistinct()
      reads this
    {
      && |files| == |handles|
      && forall j, k :: 0 <= j < k < |handles| && handles[j] != null ==> handles[j] != handles[k]
    }

    /** The handles other than the one. */
    ghost predicate OthersOk(k: nat)
      reads this, d.dir`files, d.dir.files
    {
      && AllDistinct() && k < |handles|
      && forall j :: 0 <= j < |handles| && j != k ==> HandleOk(handles[j], files[j])
    }

    ghost predicate HandleOk(f: DirFile?, h: Option<Held>)
      reads d.dir`files, d.dir.files
    {
      if f == null then h == None
      else f in d.dir.files && h == Some(Held(f.pos, f.cache))
    }

    ghost function Now(): Scene
      reads this, d, d.fs, d.dir, d.dir.caches
    {
      Scene(d.Now(), files, d.dir.cache, Caches(d.dir))
    }

    lemma NowAllThere()
      requires Valid()
      ensures AllThere(Now())
    {
      forall k | 0 <= k < |files| && files[k].Some? && files[k].value.cache != null
        ensures files[k].value.cache in d.dir.caches
      {
        assert HandleOk(handles[k], files[k]);
      }
    }

    constructor (d: OpenDirectory)
      requires d.Valid()
      ensures this.d == d && Valid() && handles == [] && files == []
    {
      this.d, handles, files := d, [], [];
    }

    predicate IsOpen(k: nat)
      reads this
    {
      k < |handles| && handles[k] != null
    }

    /** The handle is looked at again. */
    method Record(k: nat)
      requires OthersOk(k) && handles[k] != null && handles[k] in d.dir.files
      modifies `files
      ensures HandlesOk() && files == old(files)[k := Some(Held(handles[k].pos, handles[k].cache))]
    {
      files := files[k := Some(Held(handles[k].pos, handles[k].cache))];
    }

    method Drop(k: nat)
      requires OthersOk(k)
      modifies `handles, `files
      ensures HandlesOk() && handles == old(handles)[k := null] && files == old(files)[k := None]
    {
      handles, files := handles[k := null], files[k := None];
    }

    method Open()
      requires Valid()
      modifies `handles, `files, d.dir`files
      ensures Valid() && Follows(Opens, None, old(Now()), Now(), d.fs.roots)
      ensures forall f :: f in d.dir.files ==> f in old(d.dir.files) || fresh(f)
      ensures d.dir.caches == old(d.dir.caches)
    {
      hide OpenDirectory.Valid, Follows, AllThere;
      var f := d.Open();
      handles, files := handles + [f], files + [Some(Held(0, null))];
      NowAllThere();
      OpensSo(old(Now()), Now(), d.fs.roots);
    }

    method Close(k: nat)
      requires Valid() && IsOpen(k)
      modifies `handles, `files, d.dir`cache, d.dir`caches, d.dir`files, handles[k],
               Only(handles[k].cache)`refcount, Only(handles[k].cache)`holders
      ensures Valid() && Follows(Closes(k), None, old(Now()), Now(), d.fs.roots)
      ensures d.dir.files <= old(d.dir.files) && d.dir.caches <= old(d.dir.caches)
    {
      hide OpenDirectory.Valid, Follows, AllThere;
      d.Close(handles[k]);
      Drop(k);
      NowAllThere();
      ClosesSo(k, old(Now()), Now(), d.fs.roots);
    }

    method Seek(k: nat, offset: int, origin: Origin)
      requires Valid() && IsOpen(k)
      modifies `files, d.dir`cache, d.dir`caches, handles[k],
               Only(handles[k].cache)`refcount, Only(handles[k].cache)`holders
      ensures Valid() && Follows(Seeks(k, offset, origin), None, old(Now()), Now(), d.fs.roots)
      ensures d.dir.files == old(d.dir.files) && d.dir.caches <= old(d.dir.caches)
    {
      hide OpenDirectory.Valid, Follows, AllThere;
      d.Seek(handles[k], offset, origin);
      Record(k);
      NowAllThere();
      SeeksSo(k, offset, origin, old(Now()), Now(), d.fs.roots);
    }

    /** Ends with here false if the directory is gone. */
    method Do(o: Op) returns (here: bool)
      requires Valid()
      modifies d`path, d.fs`upper, d.fs`inodes, d.dir`layers, d.dir`hasUpper, d.dir`version
      ensures if here then Valid() && Follows(Does(o), None, old(Now()), Now(), d.fs.roots)
              else TakesAway(old(d.Now()), o, d.fs)
    {
      hide OpenDirectory.Valid, Directory.Valid, Follows, AllThere, Carries, TakesAway, StepIs;
      var err;
      err, here := d.Do(o);
      if here {
        NowAllThere();
        DoesSo(o, old(Now()), Now(), d.fs.roots);
      }
    }

    /** A number that is not one of an open file is refused. */
    method Act(a: Action) returns (here: bool, l: Option<Listed>)
      requires Valid()
      modifies this, d`path, d.fs`upper, d.fs`inodes, d.dir, d.dir.files, d.dir.caches
      ensures if here then Valid() && Follows(a, l, old(Now()), Now(), d.fs.roots)
              else a.Does? && TakesAway(old(d.Now()), a.o, d.fs)
      ensures forall f :: f in d.dir.files ==> f in old(d.dir.files) || fresh(f)
      ensures forall c :: c in d.dir.caches ==> c in old(d.dir.caches) || fresh(c)
    {
      here, l := true, None;
      match a {
        case Opens => Open();
        case Lists(k, _, _, _) =>
          if IsOpen(k) {
            var listed := List(a);
            l := Some(listed);
          } else {
            Refused(a);
          }
        case Seeks(k, offset, origin) =>
          if IsOpen(k) {
            Seek(k, offset, origin);
          } else {
            Refused(a);
          }
        case Closes(k) =>
          if IsOpen(k) {
            Close(k);
          } else {
            Refused(a);
          }
        case Does(o) => here := Do(o);
      }
    }

    lemma Refused(a: Action)
      requires Valid() && (a.Lists? || a.Seeks? || a.Closes?) && !IsOpen(a.k)
      ensures Follows(a, None, Now(), Now(), d.fs.roots)
    {
      NowAllThere();
      assert a.k < |handles| ==> HandleOk(handles[a.k], files[a.k]);
    }

    method List(a: Action) returns (l: Listed)
      requires Valid() && a.Lists? && IsOpen(a.k)
      modifies `files, d.dir`cache, d.dir`caches, d.dir`failed, handles[a.k], handles[a.k].cache, d.dir.cache
      ensures Valid() && Follows(a, Some(l), old(Now()), Now(), d.fs.roots)
      ensures d.dir.files == old(d.dir.files)
      ensures forall c :: c in d.dir.caches ==> c in old(d.dir.caches) || fresh(c)
    {
      hide OpenDirectory.Valid, Follows, AllThere, ListingIs, JustMade;
      ghost var was;
      l, was := ListFile(d, handles[a.k], a);
      Record(a.k);
      NowAllThere();
      ListsSo(a, l, old(Now()), Now(), was, d.fs.roots);
    }
  }

  lemma ListsSo(a: Action, l: Listed, at: Scene, at': Scene, was: Contents, roots: seq<Node>)
    requires a.Lists? && Opened(at, a.k) && AllThere(at') && a.k < |at'.files| && at'.files[a.k].Some?
    requires at'.files[a.k].value.cache in at'.caches && at'.now == at.now
    requires at'.files == at.files[a.k := at'.files[a.k]]
    requires var h, h' := at.files[a.k].value, at'.files[a.k].value;
             var c: DirCache := h'.cache;
             && Takes(at, h, c) && OthersStay(at, at', c) && HeldBefore(at, c, was, a.deferred, roots)
             && at'.current == (if Keeps(h, at.now) then at.current else c)
             && ListingIs(was, at'.caches[c], h.pos, h'.pos, a, at.now, roots, l)
    ensures Follows(a, Some(l), at, at', roots)
  {
  }

  lemma DoesSo(o: Op, at: Scene, at': Scene, roots: seq<Node>)
    requires AllThere(at') && Carries(roots, at.now, o, at'.now) && at' == at.(now := at'.now)
    ensures Follows(Does(o), None, at, at', roots)
  {
  }

  lemma OpensSo(at: Scene, at': Scene, roots: seq<Node>)
    requires AllThere(at') && at' == at.(files := at.files + [Some(Held(0, null))])
    ensures Follows(Opens, None, at, at', roots)
  {
  }

  lemma ClosesSo(k: nat, at: Scene, at': Scene, roots: seq<Node>)
    requires AllThere(at') && Opened(at, k) && at'.now == at.now && OnlyFreed(at, at')
    requires at'.files == at.files[k := None]
    ensures Follows(Closes(k), None, at, at', roots)
  {
  }

  lemma SeeksSo(k: nat, offset: int, origin: Origin, at: Scene, at': Scene, roots: seq<Node>)
    requires AllThere(at') && Opened(at, k) && at'.now == at.now && OnlyFreed(at, at')
    requires at'.files == at.files[k := Some(Sought(at.files[k].value, offset, origin, at.now))]
    ensures Follows(Seeks(k, offset, origin), None, at, at', roots)
  {
  }

  /** Any script of actions is done as Follows says of each, and what it lists is logged.  The run
      ends early only at an operation that takes the directory away. */
  method Script(d: OpenDirectory, actions: seq<Action>)
    returns (here: bool, log: seq<Option<Listed>>, ghost scenes: seq<Scene>)
    requires d.Valid() && d.dir.files == {}
    modifies d`path, d.fs`upper, d.fs`inodes, d.dir
    ensures IsRun(actions, scenes, log, d.fs.roots)
    ensures scenes[0] == Scene(old(d.Now()), [], null, map[]) && Sound(scenes[0], d.fs.roots)
    ensures if here then |log| == |actions| && d.Valid() && scenes[|log|].now == d.Now()
                         && scenes[|log|].caches == Caches(d.dir)
            else |log| < |actions| && actions[|log|].Does? && TakesAway(scenes[|log|].now, actions[|log|].o, d.fs)
  {
    NoFileNoCache(d.dir);
    var c := new Client(d);
    here, log, scenes := true, [], [c.Now()];
    for j := 0 to |actions|
      invariant c.Valid() && |log| == j && IsRun(actions, scenes, log, d.fs.roots) && scenes[j] == c.Now()
      invariant scenes[0] == Scene(old(d.Now()), [], null, map[])
      invariant forall f :: f in d.dir.files ==> fresh(f)
      invariant forall k :: k in d.dir.caches ==> fresh(k)
    {
      hide Follows;
      var l;
      here, l := c.Act(actions[j]);
      if !here {
        return;
      }
      RunGrows(actions, scenes, log, d.fs.roots, c.Now(), l);
      log, scenes := log + [l], scenes + [c.Now()];
    }
  }
}
