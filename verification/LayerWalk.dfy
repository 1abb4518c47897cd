// Looking a name up in one layer, on the text of the name.  An absolute name is walked
// element by element while redirects found on the way rewrite the part already walked,
// so the rest is marked by its distance from the end.

module LayerWalk {
  import opened Seqs
  import opened Tree
  import opened RedirectText

  datatype LookupError = Ok | WentOffTheRails

  /** The state of a lookup, kept from layer to layer. */
  class LookupData {
    var name: string
    var isDir: bool
    var isOpaque: bool
    var stop: bool
    var last: bool
    var redirect: Option<string>

    constructor (name: string)
      ensures this.name == name && redirect == None
      ensures !isDir && !isOpaque && !stop && !last
    {
      this.name, redirect := name, None;
      isDir, isOpaque, stop, last := false, false, false, false;
    }

    /** A name that was rewritten is the text of the last redirect. */
    predicate Consistent()
      reads this
    {
      redirect.Some? ==> name == redirect.value
    }
  }

  /** What one layer answers. */
  function LayerStep(base: Node, t: Redirect, isDir: bool): Found {
    match t
    case Rel(n) => Single(base, n, isDir)
    case Abs(p) => Walk(base, [], p, isDir, false)
  }

  // ------------------------------------------------------------------ text lemmas

  lemma {:induction false} JoinConcat(a: Path, b: Path)
    ensures Join(a + b) == Join(a) + Join(b)
  {
    if a == [] {
      assert a + b == b;
    } else {
      assert (a + b)[1..] == a[1..] + b;
      JoinConcat(a[1..], b);
    }
  }

  lemma JoinStep(rest: AbsPath)
    ensures var text := Join(rest);
            && text != "" && text[0] == '/'
            && NextSlash(text[1..]) == |rest[0]|
            && text[1..1 + |rest[0]|] == rest[0]
            && text[1 + |rest[0]|..] == Join(rest[1..])
  {
    NextSlashSplits(rest[0], Join(rest[1..]));
    CutAfter('/', rest[0], Join(rest[1..]));
  }

  lemma {:induction false} WalkNextIsAbs(base: Node, pre: Path, comps: AbsPath, isDir: bool, stop: bool)
    ensures var f := Walk(base, pre, comps, isDir, stop); f.next.Go? ==> f.next.target.Abs?
    decreases |comps|
  {
    var e := EntryOf(base, comps[0]);
    if e.Some? && e.value.Dir? && |comps| > 1 {
      var d := e.value;
      WalkNextIsAbs(d, NextPrefix(d, pre, comps[0]), comps[1..], isDir, NextStop(d, stop));
    }
  }

  // ------------------------------------------------------------------- the lookup

  /** Follows the redirect of a directory, if it has one: the part of the name before the
      directory's own, then the redirect, then what is still to be walked. */
  method CheckRedirect(dir: Node, d: LookupData, prelen: nat, post: string)
    requires dir.Dir? && prelen <= |d.name|
    modifies d
    ensures d.isDir == old(d.isDir) && d.isOpaque == old(d.isOpaque) && d.last == old(d.last)
    ensures match dir.redirect
            case None => d.name == old(d.name) && d.stop == old(d.stop) && d.redirect == old(d.redirect)
            case Some(Rel(r)) =>
              d.name == old(d.name)[..prelen] + r + post && d.stop == old(d.stop) && d.redirect == Some(d.name)
            case Some(Abs(a)) => d.name == Join(a) + post && !d.stop && d.redirect == Some(d.name)
  {
    if dir.redirect.None? {
      return;
    }
    var buf := Encode(dir.redirect.value);
    if dir.redirect.value.Abs? {
      JoinStep(dir.redirect.value.path);
    }
    assert buf[0] == '/' <==> dir.redirect.value.Abs?;
    if buf[0] == '/' {
      d.stop := false;
    } else {
      buf := d.name[..prelen] + buf;
    }
    buf := buf + post;
    d.redirect := Some(buf);
    d.name := buf;
  }

  /** Looks up one element.  post is the text after it. */
  method LookupSingle(base: Node, d: LookupData, name: Name, prelen: nat, post: string) returns (ret: Option<Node>)
    requires prelen <= |d.name|
    modifies d
    ensures d.last == old(d.last)
    ensures var e := EntryOf(base, name);
            match e
            case None => ret == None && d.name == old(d.name) && d.stop == old(d.stop)
                         && d.isDir == old(d.isDir) && d.isOpaque == old(d.isOpaque) && d.redirect == old(d.redirect)
            case Some(Whiteout) => ret == None && d.stop && d.isDir == old(d.isDir) && d.isOpaque
                                   && d.name == old(d.name) && d.redirect == old(d.redirect)
            case Some(File(_)) => ret == (if old(d.isDir) || post != "" then None else e) && d.stop
                                  && d.isDir == old(d.isDir) && d.isOpaque == old(d.isOpaque)
                                  && d.name == old(d.name) && d.redirect == old(d.redirect)
            case Some(dir) =>
              && ret == e
              && d.isDir == (old(d.isDir) || post == "")
              && d.isOpaque == (old(d.isOpaque) || (!d.last && dir.isOpaque && post == ""))
              && (d.last || dir.isOpaque || dir.redirect.None? ==>
                    && d.name == old(d.name) && d.redirect == old(d.redirect)
                    && d.stop == (old(d.stop) || (!d.last && dir.isOpaque)))
              && (!d.last && !dir.isOpaque && dir.redirect.Some? ==>
                    && d.redirect == Some(d.name)
                    && match dir.redirect.value
                       case Rel(r) => d.name == old(d.name)[..prelen] + r + post && d.stop == old(d.stop)
                       case Abs(a) => d.name == Join(a) + post && !d.stop)
  {
    var lastElement := post == "";
    var e := EntryOf(base, name);
    if e.None? {
      return None;
    }
    match e.value {
      case Whiteout =>
        d.stop, d.isOpaque := true, true;
        return None;
      case File(_) =>
        if d.isDir || !lastElement {
          d.stop := true;
          return None;
        }
        d.stop := true;
        return e;
      case Dir(_, _, _, _) =>
        if lastElement {
          d.isDir := true;
        }
        if d.last {
          return e;
        }
        if e.value.isOpaque {
          d.stop := true;
          if lastElement {
            d.isOpaque := true;
          }
          return e;
        }
        CheckRedirect(e.value, d, prelen, post);
        return e;
    }
  }

  /** The rest of the name is what is still to be walked. */
  ghost predicate MarksRest(d: LookupData, rem: int, pre: Path, rest: AbsPath)
    reads d
  {
    d.name == Join(pre) + Join(rest) && rem == |Join(rest)| - 1
  }

  /** The element that rem marks, and the text on both sides of it. */
  lemma MarkedElement(name: string, rem: nat, pre: Path, rest: AbsPath)
    requires name == Join(pre) + Join(rest) && rem == |Join(rest)| - 1
    ensures var s := |name| - rem;
            var thislen := NextSlash(name[s..]);
            && 1 <= s && name[s - 1] == '/'
            && name[..s] == Join(pre) + "/"
            && name[s..s + thislen] == rest[0]
            && name[s + thislen..] == Join(rest[1..])
            && thislen == |rest[0]|
            && name == (Join(pre) + "/") + rest[0] + Join(rest[1..])
  {
    JoinStep(rest);
    var tail := Join(rest);
    Cut(Join(pre) + "/", tail[1..]);
    Regroup(Join(pre), "/", tail[1..]);
    SplitAt(tail, 0);
    var s := |name| - rem;
    assert name == (Join(pre) + "/") + tail[1..];
    Rejoin(name, s, s + |rest[0]|);
    Cut(rest[0], Join(rest[1..]));
  }

  /** The name after the element is done with, if it has become r. */
  lemma RewrittenElement(pre: Path, r: Name, tail: string)
    ensures (Join(pre) + "/") + r + tail == Join(pre + [r]) + tail
  {
    JoinSnoc(pre, r);
  }

  /** The elements walked so far, as the next layer is to know them. */
  function Walked(e: Option<Node>, last: bool, pre: Path, c: Name): Path {
    if e.Some? && e.value.Dir? && !last then NextPrefix(e.value, pre, c) else pre + [c]
  }

  /** What the lookup of the first element of the rest has given, and what it leaves. */
  ghost predicate ElementDone(base: Node, d: LookupData, pre: Path, rest: AbsPath, wasDir: bool, stopped: bool,
                              ret: Option<Node>)
    reads d
  {
    match EntryOf(base, rest[0])
    case None => ret == None && d.name == Join(pre) + Join(rest) && d.stop == stopped && d.isDir == wasDir
    case Some(Whiteout) => ret == None && d.stop && d.isDir == wasDir
    case Some(File(id)) =>
      ret == (if wasDir || |rest| > 1 then None else Some(File(id))) && d.stop && d.isDir == wasDir
    case Some(dir) =>
      && ret == Some(dir) && d.isDir == (wasDir || |rest| == 1)
      && d.name == Join(Walked(ret, d.last, pre, rest[0])) + Join(rest[1..])
      && (!d.last ==> d.stop == NextStop(dir, stopped))
  }

  /** One round of the walk: the element that rem marks is looked up, and rem then marks
      the one after it in the name as it has become. */
  method WalkElement(base: Node, d: LookupData, rem: nat, ghost pre: Path, ghost rest: AbsPath)
    returns (ret: Option<Node>, rem': int, end: bool, offTheRails: bool)
    requires MarksRest(d, rem, pre, rest)
    modifies d
    ensures !offTheRails && d.last == old(d.last)
    ensures (d.name == old(d.name) && d.redirect == old(d.redirect)) || d.redirect == Some(d.name)
    ensures rem' == |Join(rest[1..])| - 1 && (end <==> |rest| == 1)
    ensures ElementDone(base, d, pre, rest, old(d.isDir), old(d.stop), ret)
  {
    MarkedElement(d.name, rem, pre, rest);
    JoinTailEmpty(rest);
    RewrittenElement(pre, rest[0], Join(rest[1..]));
    ghost var e := EntryOf(base, rest[0]);
    if e.Some? && e.value.Dir? && e.value.redirect.Some? && e.value.redirect.value.Rel? {
      RewrittenElement(pre, e.value.redirect.value.name, Join(rest[1..]));
    }
    var s := |d.name| - rem;
    var thislen := NextSlash(d.name[s..]);
    var next := d.name[s + thislen..];
    end := next == "";
    if d.name[s - 1] != '/' {
      return None, 0, end, true;
    }
    offTheRails := false;
    ret := LookupSingle(base, d, d.name[s..s + thislen], s, next);
    rem' := rem - (thislen + 1);
  }

  lemma JoinTailEmpty(rest: AbsPath)
    ensures Join(rest[1..]) == "" <==> |rest| == 1
  {
    if |rest| > 1 {
      JoinStep(rest[1..]);
    }
  }

  /** The outcome on the text is the outcome on paths.  On the last layer opaque marks and
      redirects are not looked at, and nothing is to come after. */
  ghost predicate Agrees(d: LookupData, f: Found, isDir: bool, ret: Option<Node>)
    reads d
  {
    && ret == f.node
    && d.isDir == IsDirNow(f, isDir)
    && (!d.last ==> (d.stop <==> f.next.Stop?))
    && (!d.last && f.next.Go? ==> d.name == Encode(f.next.target))
  }

  /** Looks the name up in one layer.  The two ways off the rails are never taken. */
  method LookupLayer(base: Node, d: LookupData, ghost t: Redirect) returns (err: LookupError, ret: Option<Node>)
    requires base.Dir? && d.name == Encode(t) && !d.stop
    modifies d
    ensures err.Ok? && d.last == old(d.last)
    ensures Agrees(d, LayerStep(base, t, old(d.isDir)), old(d.isDir), ret)
    ensures (d.name == old(d.name) && d.redirect == old(d.redirect)) || d.redirect == Some(d.name)
    ensures t.Rel? && !d.last && !old(d.isOpaque) ==>
              var e := EntryOf(base, t.name);
              (d.isOpaque <==> e.Some? && (e.value == Whiteout || (e.value.Dir? && e.value.isOpaque)))
  {
    if t.Abs? {
      JoinStep(t.path);
    }
    if d.name[0] != '/' {
      ret := LookupSingle(base, d, d.name, 0, "");
      assert d.name[..0] + "" == "";
      return Ok, ret;
    }
    err, ret := WalkLayer(base, d, t.path);
  }

  /** The loop of ovl_lookup_layer over the elements of a path. */
  method WalkLayer(base: Node, d: LookupData, ghost path: AbsPath) returns (err: LookupError, ret: Option<Node>)
    requires base.Dir? && d.name == Join(path) && !d.stop
    modifies d
    ensures err.Ok? && d.last == old(d.last)
    ensures Agrees(d, Walk(base, [], path, old(d.isDir), false), old(d.isDir), ret)
    ensures (d.name == old(d.name) && d.redirect == old(d.redirect)) || d.redirect == Some(d.name)
  {
    err := Ok;
    JoinStep(path);
    ghost var f := Walk(base, [], path, d.isDir, false);
    ghost var wasDir := d.isDir;
    ghost var pre: Path, rest: AbsPath := [], path;
    // What the walk on paths carries along: on the last layer the text does not.
    ghost var specPre: Path, specStop := [], false;
    var dir := base;
    var rem := |d.name| - 1;
    while true
      invariant dir.Dir? && d.last == old(d.last) && d.isDir == wasDir
      invariant MarksRest(d, rem, pre, rest)
      invariant f == Walk(dir, specPre, rest, wasDir, specStop)
      invariant !d.last ==> specPre == pre && specStop == d.stop
      invariant (d.name == old(d.name) && d.redirect == old(d.redirect)) || d.redirect == Some(d.name)
      decreases |rest|
    {
      ghost var stopped := d.stop;
      var end, offTheRails;
      ret, rem, end, offTheRails := WalkElement(dir, d, rem, pre, rest);
      if offTheRails {
        return WentOffTheRails, None;
      }
      if end || ret.None? || !ret.value.Dir? {
        WalkEnds(dir, d, pre, specPre, rest, wasDir, specStop, stopped, f, ret);
        return;
      }
      pre := Walked(ret, d.last, pre, rest[0]);
      specPre, specStop := NextPrefix(ret.value, specPre, rest[0]), NextStop(ret.value, specStop);
      rest := rest[1..];
      dir := ret.value;
      // The rest of the name is still ahead.
      if rem >= |d.name| {
        return WentOffTheRails, None;
      }
    }
  }

  /** Then the text and the paths agree. */
  lemma WalkEnds(dir: Node, d: LookupData, pre: Path, specPre: Path, rest: AbsPath, wasDir: bool, specStop: bool,
                 stopped: bool, f: Found, ret: Option<Node>)
    requires dir.Dir? && f == Walk(dir, specPre, rest, wasDir, specStop)
    requires |rest| == 1 || ret.None? || !ret.value.Dir?
    requires ElementDone(dir, d, pre, rest, wasDir, stopped, ret)
    requires !d.last ==> specPre == pre && specStop == stopped
    ensures Agrees(d, f, wasDir, ret)
  {
    FinishWalk(dir, specPre, rest, wasDir, specStop, f);
    JoinConcat(pre, rest);
    if |rest| == 1 {
      assert Join(rest[1..]) == "";
    }
  }

  /** The walk ends at its last element, or where there is no directory to go on from. */
  lemma FinishWalk(dir: Node, pre: Path, rest: AbsPath, isDir: bool, stop: bool, f: Found)
    requires f == Walk(dir, pre, rest, isDir, stop)
    requires var e := EntryOf(dir, rest[0]); |rest| == 1 || e.None? || !e.value.Dir?
    ensures match EntryOf(dir, rest[0])
            case None => f == Found(None, if stop then Stop else Go(Abs(pre + rest)))
            case Some(Whiteout) => f == Found(None, Stop)
            case Some(File(id)) => f == Found(if |rest| == 1 && !isDir then Some(File(id)) else None, Stop)
            case Some(d) =>
              f == Found(Some(d), if NextStop(d, stop) then Stop else Go(Abs(NextPrefix(d, pre, rest[0]))))
  {
  }

}
