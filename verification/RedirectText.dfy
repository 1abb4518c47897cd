// The text of a redirect attribute: how it is validated when read, and how the
// absolute form is built, from the last name backwards, in a buffer of fixed size.

module RedirectText {
  import opened Seqs
  import opened Tree
  import opened Frame
  import opened Compose

  // ------------------------------------------------------------------ the format

  function Join(comps: seq<string>): (s: string)
    ensures s != "" ==> s[0] == '/'
  {
    if comps == [] then "" else "/" + comps[0] + Join(comps[1..])
  }

  function Encode(t: Redirect): string {
    match t
    case Rel(n) => n
    case Abs(p) => Join(p)
  }

  predicate AreComponents(comps: seq<string>) {
    forall c | c in comps :: IsComponent(c)
  }

  /** One bare component, or a slash before each of one or more components. */
  ghost predicate IsRedirectText(s: string) {
    IsComponent(s) || exists comps :: comps != [] && AreComponents(comps) && s == Join(comps)
  }

  /** The offset of the first slash, or of the end. */
  function NextSlash(s: string): (k: nat)
    ensures k <= |s| && '/' !in s[..k]
    ensures k < |s| ==> s[k] == '/'
  {
    if s == "" || s[0] == '/' then 0
    else
      var k := 1 + NextSlash(s[1..]);
      assert s[..k] == [s[0]] + s[1..][..k - 1];
      k
  }

  function Split(s: string): Option<seq<string>>
    decreases |s|
  {
    if s == "" then Some([])
    else if s[0] != '/' then None
    else
      var k := NextSlash(s[1..]);
      if k == 0 then None
      else
        match Split(s[1 + k..])
        case None => None
        case Some(rest) => Some([s[1..1 + k]] + rest)
  }

  function Decode(s: string): Option<Redirect> {
    if s != "" && s[0] == '/' then
      match Split(s)
      case Some(comps) =>
        if comps != [] && (forall c | c in comps :: IsComponent(c) && c != "." && c != "..")
        then Some(Abs(comps)) else None
      case None => None
    else if IsComponent(s) && s != "." && s != ".." then Some(Rel(s))
    else None
  }

  lemma {:induction false} SplitSound(s: string)
    requires '\0' !in s && Split(s).Some?
    ensures AreComponents(Split(s).value) && Join(Split(s).value) == s
    decreases |s|
  {
    if s != "" {
      var k := NextSlash(s[1..]);
      SplitSound(s[1 + k..]);
      Parts(s, k);
    }
  }

  lemma {:induction false} NextSlashSplits(c: string, rest: string)
    requires '/' !in c && (rest != "" ==> rest[0] == '/')
    ensures NextSlash(c + rest) == |c|
  {
    if c == "" {
      assert c + rest == rest;
    } else {
      assert (c + rest)[1..] == c[1..] + rest;
      NextSlashSplits(c[1..], rest);
    }
  }

  lemma {:induction false} SplitJoin(comps: seq<string>)
    requires AreComponents(comps)
    ensures Split(Join(comps)) == Some(comps)
  {
    if comps != [] {
      var rest := Join(comps[1..]);
      SplitJoin(comps[1..]);
      assert IsComponent(comps[0]);
      NextSlashSplits(comps[0], rest);
      CutAfter('/', comps[0], rest);
      SplitAt(comps, 0);
    }
  }

  /** Reading back what was written. */
  lemma DecodeEncode(t: Redirect)
    ensures Decode(Encode(t)) == Some(t)
    ensures IsRedirectText(Encode(t))
  {
    match t
    case Rel(n) =>
    case Abs(p) =>
      var comps: seq<string> := p;
      assert AreComponents(comps) by {
        forall c | c in comps ensures IsComponent(c) {
          var i :| 0 <= i < |p| && p[i] == c;
        }
      }
      assert forall c | c in comps :: c != "." && c != ".." by {
        forall c | c in comps ensures c != "." && c != ".." {
          var i :| 0 <= i < |p| && p[i] == c;
        }
      }
      SplitJoin(comps);
  }

  lemma TextIffSplit(s: string)
    requires '\0' !in s && s != "" && s[0] == '/'
    ensures IsRedirectText(s) <==> Split(s).Some?
  {
    if Split(s).Some? {
      SplitSound(s);
      assert Split(s).value != [];
    }
    if IsRedirectText(s) {
      var comps :| comps != [] && AreComponents(comps) && s == Join(comps);
      SplitJoin(comps);
    }
  }

  lemma TextIffComponent(s: string)
    requires s == "" || s[0] != '/'
    ensures IsRedirectText(s) <==> IsComponent(s)
  {
    forall comps | comps != [] && s == Join(comps)
      ensures false
    {
    }
  }

  /** One round of the validator. */
  lemma SplitStep(buf: string, s: nat)
    requires s < |buf| && buf[s] == '/'
    ensures var next := s + 1 + NextSlash(buf[s + 1..]);
            && s < next <= |buf|
            && (next < |buf| ==> buf[next] == '/')
            && (Split(buf[s..]).Some? <==> next != s + 1 && Split(buf[next..]).Some?)
  {
    var k := NextSlash(buf[s + 1..]);
    assert buf[s..][1..] == buf[s + 1..];
    assert buf[s..][1 + k..] == buf[s + 1 + k..];
  }

  // ---------------------------------------------------------------- the validator

  /** Whether a redirect value read from a directory is accepted. */
  method IsValidRedirect(buf: string) returns (valid: bool)
    requires '\0' !in buf
    ensures valid <==> IsRedirectText(buf)
  {
    if buf == "" || buf[0] != '/' {
      TextIffComponent(buf);
      return buf != "" && '/' !in buf;
    }
    TextIffSplit(buf);
    var s := 0;
    assert buf[s..] == buf;
    while s < |buf| && buf[s] == '/'
      invariant 0 <= s <= |buf|
      invariant s < |buf| ==> buf[s] == '/'
      invariant Split(buf).Some? <==> Split(buf[s..]).Some?
    {
      SplitStep(buf, s);
      s := s + 1;
      var next := s + NextSlash(buf[s..]);
      if s == next {
        return false;
      }
      s := next;
    }
    assert buf[s..] == "";
    return true;
  }

  // ------------------------------------------------------------------ the builder

  lemma {:induction false} JoinSnoc(a: seq<string>, c: string)
    ensures Join(a + [c]) == Join(a) + "/" + c
  {
    if a == [] {
      assert a + [c] == [c];
    } else {
      assert (a + [c])[1..] == a[1..] + [c];
      JoinSnoc(a[1..], c);
    }
  }

  /** The text an overlay directory contributes to a path below it. */
  function ElementText(u: Node, p: AbsPath): string
    requires UpperAt(u, p).Some?
  {
    match HeldRedirect(UpperAt(u, p).value)
    case Some(r) => Encode(r)
    case None => p[|p| - 1]
  }

  /** One step back towards the root. */
  lemma LowerPathText(u: Node, p: AbsPath)
    requires UpperAt(u, p).Some?
    ensures UpperAt(u, p[..|p| - 1]).Some?
    ensures ElementText(u, p) != ""
    ensures ElementText(u, p)[0] == '/' ==> Join(LowerPath(u, p)) == ElementText(u, p)
    ensures ElementText(u, p)[0] != '/' ==>
              Join(LowerPath(u, p))
              == (if |p| == 1 then "" else Join(LowerPath(u, p[..|p| - 1]))) + "/" + ElementText(u, p)
  {
    var parent := p[..|p| - 1];
    var last := p[|p| - 1];
    assert parent + [last] == p;
    UpperAtPrefix(u, parent, [last]);
    match HeldRedirect(UpperAt(u, p).value)
    case Some(Abs(a)) =>
    case Some(Rel(r)) => JoinSnoc(if parent == [] then [] else LowerPath(u, parent), r);
    case None => JoinSnoc(if parent == [] then [] else LowerPath(u, parent), last);
  }

  method Prepend(buf: array<char>, max: nat, buflen: nat, name: string) returns (start: nat)
    requires |name| <= buflen <= max < buf.Length
    modifies buf
    ensures start == buflen - |name|
    ensures buf[start..max] == name + old(buf[buflen..max])
  {
    start := buflen - |name|;
    forall i | 0 <= i < |name| {
      buf[start + i] := name[i];
    }
  }

  /** The redirect text for the upper directory at p: its own name, or its absolute
      lower path, which must fit. */
  method GetRedirect(u: Node, p: AbsPath, isAbsolute: bool, max: nat) returns (r: Option<string>)
    requires UpperAt(u, p).Some?
    ensures !isAbsolute ==> r == Some(p[|p| - 1])
    ensures isAbsolute && |Join(LowerPath(u, p))| <= max ==> r == Some(Join(LowerPath(u, p)))
    ensures isAbsolute && |Join(LowerPath(u, p))| > max ==> r == None
  {
    if !isAbsolute {
      return Some(p[|p| - 1]);
    }
    ghost var whole := Join(LowerPath(u, p));
    var buf := new char[max + 1];
    var buflen := max;
    buf[buflen] := '\0';
    var d: Path := p;
    while d != []
      invariant 0 <= buflen <= max
      invariant d != [] ==> UpperAt(u, d).Some? && whole == Join(LowerPath(u, d)) + buf[buflen..max]
      invariant d == [] ==> whole == buf[buflen..max]
      decreases |d|
    {
      LowerPathText(u, d);
      var name := ElementText(u, d);
      if |name| + (if name[0] != '/' then 1 else 0) > buflen {
        return None;
      }
      ghost var rest := buf[buflen..max];
      ghost var above := if |d| == 1 then "" else Join(LowerPath(u, d[..|d| - 1]));
      buflen := Prepend(buf, max, buflen, name);
      assert buf[buflen..max][0] == name[0];
      if name[0] != '/' {
        Regroup(above + "/", name, rest);
        Regroup(above, "/", name + rest);
      }
      d := d[..|d| - 1];
      // An absolute redirect ends the way up.
      if buf[buflen..max][0] == '/' {
        break;
      }
      buflen := Prepend(buf, max, buflen, "/");
    }
    r := Some(buf[buflen..max]);
  }

}
