// Matching a path against a pattern, segment by segment; "**" stands for any number of
// segments.

module Glob {

  /** A path buffer, a segment buffer, and how many segments there are room for. */
  const BUFFER: nat := 4096
  const SEGMENT: nat := 256
  const MAX_SEGMENTS: nat := 128

  // ------------------------------------------------------------------ what it means

  function Flatten(runs: seq<seq<string>>): seq<string> {
    if runs == [] then [] else runs[0] + Flatten(runs[1..])
  }

  /** Any run of segments for "**", one matching segment for anything else. */
  predicate RunFits(segment: string, run: seq<string>, match1: (string, string) -> bool) {
    segment == "**" || (|run| == 1 && match1(segment, run[0]))
  }

  ghost predicate AllFit(pattern: seq<string>, runs: seq<seq<string>>, match1: (string, string) -> bool) {
    |runs| == |pattern| && forall i :: 0 <= i < |pattern| ==> RunFits(pattern[i], runs[i], match1)
  }

  /** The path can be cut into runs that fit the segments of the pattern. */
  ghost predicate Fits(pattern: seq<string>, path: seq<string>, match1: (string, string) -> bool) {
    exists runs :: AllFit(pattern, runs, match1) && Flatten(runs) == path
  }

  lemma FitsNothing(path: seq<string>, match1: (string, string) -> bool)
    ensures Fits([], path, match1) <==> path == []
  {
    if path == [] {
      assert AllFit([], [], match1) && Flatten([]) == path;
    }
  }

  lemma Prepend(pattern: seq<string>, path: seq<string>, match1: (string, string) -> bool, k: nat)
    requires pattern != [] && k <= |path| && RunFits(pattern[0], path[..k], match1)
    requires Fits(pattern[1..], path[k..], match1)
    ensures Fits(pattern, path, match1)
  {
    var runs :| AllFit(pattern[1..], runs, match1) && Flatten(runs) == path[k..];
    var all := [path[..k]] + runs;
    assert all[1..] == runs && Flatten(all) == path;
    forall i | 0 <= i < |pattern| ensures RunFits(pattern[i], all[i], match1) {
      if i > 0 {
        assert pattern[i] == pattern[1..][i - 1];
      }
    }
    assert AllFit(pattern, all, match1);
  }

  lemma Behead(pattern: seq<string>, path: seq<string>, match1: (string, string) -> bool) returns (k: nat)
    requires pattern != [] && Fits(pattern, path, match1)
    ensures k <= |path| && RunFits(pattern[0], path[..k], match1) && Fits(pattern[1..], path[k..], match1)
  {
    var runs :| AllFit(pattern, runs, match1) && Flatten(runs) == path;
    k := |runs[0]|;
    assert path[..k] == runs[0] && path[k..] == Flatten(runs[1..]);
    assert AllFit(pattern[1..], runs[1..], match1);
  }

  lemma FitsPlain(pattern: seq<string>, path: seq<string>, match1: (string, string) -> bool)
    requires pattern != [] && pattern[0] != "**"
    ensures Fits(pattern, path, match1) <==>
        path != [] && match1(pattern[0], path[0]) && Fits(pattern[1..], path[1..], match1)
  {
    if Fits(pattern, path, match1) {
      var k := Behead(pattern, path, match1);
    }
    if path != [] && match1(pattern[0], path[0]) && Fits(pattern[1..], path[1..], match1) {
      assert path[..1] == [path[0]];
      Prepend(pattern, path, match1, 1);
    }
  }

  lemma FitsStars(pattern: seq<string>, path: seq<string>, match1: (string, string) -> bool)
    requires pattern != [] && pattern[0] == "**"
    ensures Fits(pattern, path, match1) <==> exists k :: 0 <= k <= |path| && Fits(pattern[1..], path[k..], match1)
  {
    if Fits(pattern, path, match1) {
      var k := Behead(pattern, path, match1);
    }
    if k :| 0 <= k <= |path| && Fits(pattern[1..], path[k..], match1) {
      Prepend(pattern, path, match1, k);
    }
  }

  // --------------------------------------------------------------------- the matcher

  /** pattern_matches_segments; match1 is fnmatch on one segment. */
  method MatchesSegments(pattern: seq<string>, pi: nat, path: seq<string>, si: nat, match1: (string, string) -> bool)
    returns (r: bool)
    requires pi <= |pattern| && si <= |path|
    ensures r <==> Fits(pattern[pi..], path[si..], match1)
    decreases |pattern| - pi
  {
    if pi == |pattern| {
      FitsNothing(path[si..], match1);
      return si == |path|;
    }
    assert pattern[pi..][1..] == pattern[pi + 1..];
    if pattern[pi] == "**" {
      FitsStars(pattern[pi..], path[si..], match1);
      if pi + 1 == |pattern| {
        FitsNothing(path[|path|..], match1);
        assert path[si..][|path| - si..] == path[|path|..];
        return true;
      }
      var skip := si;
      while skip <= |path|
        invariant si <= skip <= |path| + 1
        invariant forall k :: 0 <= k < skip - si ==> !Fits(pattern[pi + 1..], path[si..][k..], match1)
      {
        var found := MatchesSegments(pattern, pi + 1, path, skip, match1);
        assert path[si..][skip - si..] == path[skip..];
        if found {
          return true;
        }
        skip := skip + 1;
      }
      return false;
    }
    FitsPlain(pattern[pi..], path[si..], match1);
    if si >= |path| {
      return false;
    }
    if !match1(pattern[pi], path[si]) {
      return false;
    }
    assert path[si..][1..] == path[si + 1..];
    r := MatchesSegments(pattern, pi + 1, path, si + 1, match1);
  }

  // -------------------------------------------------------------- cutting up the text

  /** The first segment, and what is left after it. */
  function Head(s: string): string {
    if s == [] || s[0] == '/' then [] else [s[0]] + Head(s[1..])
  }

  function Tail(s: string): (t: string)
    ensures |t| + |Head(s)| == |s| && s == Head(s) + t
  {
    if s == [] || s[0] == '/' then s else Tail(s[1..])
  }

  /** The segments of a text: the longest runs without a slash. */
  function Segments(s: string): seq<string>
    decreases |s|
  {
    if s == [] then []
    else if s[0] == '/' then Segments(s[1..])
    else [Head(s)] + Segments(Tail(s))
  }

  /** The text without its slashes. */
  function NoSlashes(s: string): string {
    if s == [] then [] else (if s[0] == '/' then [] else [s[0]]) + NoSlashes(s[1..])
  }

  /** The places where a run begins. */
  function Starts(s: string, atStart: bool): nat {
    if s == [] then 0
    else if s[0] == '/' then Starts(s[1..], true)
    else (if atStart then 1 else 0) + Starts(s[1..], false)
  }

  function Together(segments: seq<string>): string {
    if segments == [] then [] else segments[0] + Together(segments[1..])
  }

  lemma {:induction false} HeadAndTail(s: string)
    ensures '/' !in Head(s) && (Tail(s) != [] ==> Tail(s)[0] == '/')
    ensures NoSlashes(s) == Head(s) + NoSlashes(Tail(s)) && Starts(s, false) == Starts(Tail(s), true)
  {
    if s != [] && s[0] != '/' {
      HeadAndTail(s[1..]);
    }
  }

  /** The segments are not empty and hold no slash, are together the text without its slashes, and
      are as many as there are runs. */
  lemma {:induction false} SegmentsAre(s: string)
    ensures forall segment :: segment in Segments(s) ==> segment != "" && '/' !in segment
    ensures Together(Segments(s)) == NoSlashes(s) && |Segments(s)| == Starts(s, true)
    decreases |s|
  {
    if s != [] && s[0] == '/' {
      SegmentsAre(s[1..]);
    } else if s != [] {
      HeadAndTail(s);
      HeadAndTail(s[1..]);
      SegmentsAre(Tail(s));
      assert Segments(s)[0] == Head(s) && Segments(s)[1..] == Segments(Tail(s));
    }
  }

  function Truncate<T>(s: seq<T>, n: nat): seq<T> {
    if |s| <= n then s else s[..n]
  }

  function CutAll(segments: seq<string>): seq<string> {
    seq(|segments|, i requires 0 <= i < |segments| => Truncate(segments[i], SEGMENT - 1))
  }

  /** What is left of a text in the buffers. */
  function Kept(value: string): seq<string> {
    Truncate(CutAll(Segments(Truncate(value, BUFFER - 1))), MAX_SEGMENTS)
  }

  /** The text fits the buffers. */
  predicate WithinLimits(value: string) {
    && |value| < BUFFER && |Segments(value)| <= MAX_SEGMENTS
    && forall i :: 0 <= i < |Segments(value)| ==> |Segments(value)[i]| < SEGMENT
  }

  lemma KeptWithinLimits(value: string)
    requires WithinLimits(value)
    ensures Kept(value) == Segments(value)
  {
    assert CutAll(Segments(value)) == Segments(value);
  }

  lemma {:induction false} SkipSlash(s: string, from: nat)
    requires from < |s| && s[from] == '/'
    ensures Segments(s[from..]) == Segments(s[from + 1..])
  {
    assert s[from..][1..] == s[from + 1..];
  }

  lemma {:induction false} HeadIs(s: string, n: nat)
    requires n <= |s| && (forall i :: 0 <= i < n ==> s[i] != '/') && (n == |s| || s[n] == '/')
    ensures Head(s) == s[..n] && Tail(s) == s[n..]
    decreases n
  {
    if n > 0 {
      HeadIs(s[1..], n - 1);
      assert s[..n] == [s[0]] + s[1..][..n - 1];
      assert s[n..] == s[1..][n - 1..];
    }
  }

  /** strtok_r: the next run without a slash. */
  method NextToken(buf: string, from: nat) returns (token: string, to: nat)
    requires from <= |buf|
    ensures to <= |buf|
    ensures Segments(buf[from..]) == if token == [] then [] else [token] + Segments(buf[to..])
  {
    var pos := from;
    while pos < |buf| && buf[pos] == '/'
      invariant from <= pos <= |buf| && Segments(buf[pos..]) == Segments(buf[from..])
    {
      SkipSlash(buf, pos);
      pos := pos + 1;
    }
    to := pos;
    while to < |buf| && buf[to] != '/'
      invariant pos <= to <= |buf| && forall i :: pos <= i < to ==> buf[i] != '/'
    {
      to := to + 1;
    }
    token := buf[pos..to];
    TokenIs(buf, pos, to);
  }

  lemma TokenIs(buf: string, from: nat, to: nat)
    requires from <= to <= |buf| && (forall i :: from <= i < to ==> buf[i] != '/')
    requires from == |buf| || buf[from] != '/'
    requires to == |buf| || buf[to] == '/'
    ensures Segments(buf[from..]) == if from == to then [] else [buf[from..to]] + Segments(buf[to..])
  {
    var s, n := buf[from..], to - from;
    assert n < |s| ==> s[n] == buf[to];
    HeadIs(s, n);
    assert s[..n] == buf[from..to] && s[n..] == buf[to..];
  }

  /** split_segments */
  method SplitSegments(value: string, segments: array<string>) returns (count: nat)
    requires segments.Length == MAX_SEGMENTS
    modifies segments
    ensures count <= MAX_SEGMENTS && segments[..count] == Kept(value)
  {
    count := 0;
    if value == [] {
      return;
    }
    var buf := Truncate(value, BUFFER - 1);
    var token, pos := NextToken(buf, 0);
    ghost var left := Segments(buf);
    assert buf[0..] == buf;
    while token != [] && count < MAX_SEGMENTS
      invariant 0 <= pos <= |buf| && count <= MAX_SEGMENTS
      invariant left == if token == [] then [] else [token] + Segments(buf[pos..])
      invariant segments[..count] + CutAll(left) == CutAll(Segments(buf))
      decreases MAX_SEGMENTS - count
    {
      ghost var before := segments[..count];
      left := Segments(buf[pos..]);
      OneMore(before, token, left);
      segments[count] := Truncate(token, SEGMENT - 1);
      assert segments[..count + 1] == before + [Truncate(token, SEGMENT - 1)];
      count := count + 1;
      token, pos := NextToken(buf, pos);
    }
  }

  lemma OneMore(before: seq<string>, token: string, rest: seq<string>)
    ensures before + CutAll([token] + rest) == (before + [Truncate(token, SEGMENT - 1)]) + CutAll(rest)
  {
  }

  /** whiteout_pattern_matches: within the limits, it holds exactly if the path fits the
      pattern. */
  method PatternMatches(pattern: string, path: string, match1: (string, string) -> bool) returns (r: bool)
    ensures r <==> Fits(Kept(pattern), Kept(path), match1)
    ensures WithinLimits(pattern) && WithinLimits(path) ==>
        (r <==> Fits(Segments(pattern), Segments(path), match1))
  {
    var patternStorage, pathStorage := new string[MAX_SEGMENTS], new string[MAX_SEGMENTS];
    var patternCount := SplitSegments(pattern, patternStorage);
    var pathCount := SplitSegments(path, pathStorage);
    var p, s := patternStorage[..patternCount], pathStorage[..pathCount];
    r := MatchesSegments(p, 0, s, 0, match1);
    assert p[0..] == p && s[0..] == s;
    if WithinLimits(pattern) && WithinLimits(path) {
      KeptWithinLimits(pattern);
      KeptWithinLimits(path);
    }
  }
}
