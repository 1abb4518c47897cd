// What the overlay inodes of directories keep for readdir, and what becomes of it when the
// tree changes.

module Inodes {
  import opened Tree

  /** A version, and whether the directory may hold whiteouts and so is listed as a merged
      one. */
  datatype Inode = Inode(version: nat, whiteouts: bool)

  /** The inodes of the directories, by the paths they are at. */
  type Inodes = Path -> Inode

  /** A directory that has been copied up may hold whiteouts. */
  function Flagged(i: Inodes, p: Path): Inodes {
    (q: Path) => if q == p then i(q).(whiteouts := true) else i(q)
  }

  /** A new inode, with nothing below it. */
  function Born(i: Inodes, p: Path): Inodes {
    (q: Path) => if p <= q then Inode(0, false) else i(q)
  }

  /** How the objects of the tree have moved. */
  datatype Change = Stay | Gone(p: Path) | Moves(src: Path, dst: Path) | Swaps(src: Path, dst: Path)

  /** Where an object is after a change, if it still is. */
  function Where(c: Change, q: Path): Option<Path> {
    match c
    case Stay => Some(q)
    case Gone(p) => if p <= q then None else Some(q)
    case Moves(src, dst) =>
      if src <= q then Some(dst + q[|src|..]) else if dst <= q then None else Some(q)
    case Swaps(src, dst) =>
      if src <= q then Some(dst + q[|src|..]) else if dst <= q then Some(src + q[|dst|..]) else Some(q)
  }

  /** The inodes move with their directories. */
  function Carried(i: Inodes, c: Change): Inodes {
    match c
    case Stay => i
    case Gone(p) => i
    case Moves(src, dst) =>
      (q: Path) => if dst <= q then i(src + q[|dst|..]) else i(q)
    case Swaps(src, dst) =>
      (q: Path) => if dst <= q then i(src + q[|dst|..]) else if src <= q then i(dst + q[|src|..]) else i(q)
  }

  /** What may happen to an inode; if its directory's names change, a directory listed as a
      merged one gets a new version. */
  predicate GoesOn(a: Inode, b: Inode, touched: bool) {
    && a.version <= b.version && (a.whiteouts ==> b.whiteouts)
    && (touched && a.whiteouts ==> a.version < b.version)
  }

  ghost predicate Noted(i: Inodes, i': Inodes, c: Change, touched: set<Path>) {
    forall q: Path :: Where(c, q).Some? ==> GoesOn(i(q), i'(Where(c, q).value), q in touched)
  }

  /** Versions stay, and no mark is lost. */
  ghost predicate Kept(i: Inodes, i': Inodes) {
    forall q: Path :: i'(q).version == i(q).version && (i(q).whiteouts ==> i'(q).whiteouts)
  }

  lemma KeptTwice(i: Inodes, i1: Inodes, i2: Inodes)
    requires Kept(i, i1) && Kept(i1, i2)
    ensures Kept(i, i2)
  {
    forall q: Path
      ensures i2(q).version == i(q).version && (i(q).whiteouts ==> i2(q).whiteouts)
    {
      assert i1(q).version == i(q).version;
    }
  }

  lemma KeptIsNoted(i: Inodes, i': Inodes)
    requires Kept(i, i')
    ensures Noted(i, i', Stay, {})
  {
    forall q: Path ensures GoesOn(i(q), i'(q), false) {
      assert i'(q).version == i(q).version;
    }
  }

  lemma KeptThenNoted(i: Inodes, i1: Inodes, i2: Inodes, c: Change, touched: set<Path>)
    requires Kept(i, i1) && Noted(i1, i2, c, touched)
    ensures Noted(i, i2, c, touched)
  {
    forall q: Path | Where(c, q).Some? ensures GoesOn(i(q), i2(Where(c, q).value), q in touched) {
      assert i1(q).version == i(q).version;
      assert GoesOn(i1(q), i2(Where(c, q).value), q in touched);
    }
  }

  lemma FlaggedKeeps(i: Inodes, p: Path)
    ensures Kept(i, Flagged(i, p))
  {
  }

  lemma NotedTwice(i: Inodes, i1: Inodes, i2: Inodes, t1: set<Path>, t2: set<Path>)
    requires Noted(i, i1, Stay, t1) && Noted(i1, i2, Stay, t2)
    ensures Noted(i, i2, Stay, t1 + t2)
  {
    forall q: Path ensures GoesOn(i(q), i2(q), q in t1 + t2) {
      assert Where(Stay, q) == Some(q);
      assert GoesOn(i(q), i1(q), q in t1) && GoesOn(i1(q), i2(q), q in t2);
    }
  }

  lemma BornIsNoted(i: Inodes, i': Inodes, p: Path, q: Path)
    requires Noted(i, i', Stay, {p})
    ensures Noted(i, Born(i', q), Gone(q), {p})
  {
    forall r: Path | !(q <= r) ensures GoesOn(i(r), Born(i', q)(r), r in {p}) {
      assert Where(Stay, r) == Some(r);
    }
  }

  /** What is noted stays noted when something is gone as well. */
  lemma NotedThenGone(i: Inodes, i': Inodes, touched: set<Path>, p: Path)
    requires Noted(i, i', Stay, touched)
    ensures Noted(i, i', Gone(p), touched)
  {
    forall q: Path | !(p <= q) ensures GoesOn(i(q), i'(q), q in touched) {
      assert Where(Stay, q) == Some(q);
    }
  }

  /** What has been noted, the parents before a rename say, stays noted when the inodes move
      with their directories. */
  lemma NotedThenCarried(i: Inodes, j: Inodes, touched: set<Path>, c: Change)
    requires c.Moves? || c.Swaps?
    requires !(c.src <= c.dst) && !(c.dst <= c.src) && Noted(i, j, Stay, touched)
    ensures Noted(i, Carried(j, c), c, touched)
  {
    forall q: Path | Where(c, q).Some?
      ensures GoesOn(i(q), Carried(j, c)(Where(c, q).value), q in touched)
    {
      CarriedBack(j, c, q);
      assert Where(Stay, q) == Some(q);
    }
  }

  lemma CarriedBack(j: Inodes, c: Change, q: Path)
    requires (c.Moves? || c.Swaps?) && !(c.src <= c.dst) && !(c.dst <= c.src) && Where(c, q).Some?
    ensures Carried(j, c)(Where(c, q).value) == j(q)
  {
    var q' := Where(c, q).value;
    if c.src <= q {
      assert q == c.src + q[|c.src|..];
      assert q'[|c.dst|..] == q[|c.src|..];
    } else if c.Swaps? && c.dst <= q {
      assert q == c.dst + q[|c.dst|..];
      assert q'[|c.src|..] == q[|c.dst|..];
      if c.dst <= q' {
        NotBoth(c.src, c.dst, q');
      }
    }
  }

  lemma NotBoth(a: Path, b: Path, q: Path)
    requires a <= q && b <= q
    ensures a <= b || b <= a
  {
    assert a == q[..|a|] && b == q[..|b|];
  }
}
