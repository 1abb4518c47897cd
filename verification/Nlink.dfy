// The persistent link count of an indexed non-directory: the number of its names in the
// merged tree is kept on disk relative to the link count of its upper or its lower inode,
// so that it is right whenever the machine stops.

module Nlink {
  import opened Tree
  import opened NlinkText

  type Alias = nat

  /** What is on disk.  upper: names in the upper tree; uncovered: names in the lower layer
      with nothing above them in the upper tree; temp: a link in the work directory that is to be
      moved to its name; left: links there that could not be taken away again.  counted is not on
      disk: it is how many of the links left the last note takes for links of names. */
  datatype Disk = Disk(
    indexed: bool, note: Option<string>, upper: set<Alias>, temp: bool, uncovered: set<Alias>, lowerLinks: nat,
    left: nat, counted: nat)

  /** The link count of the upper inode; its index entry is a link too. */
  function UpperLinks(d: Disk): nat {
    (if d.indexed then 1 else 0) + |d.upper| + d.left + (if d.temp then 1 else 0)
  }

  function Links(d: Disk, base: Base): nat {
    if base.Upper? then UpperLinks(d) else d.lowerLinks
  }

  /** The link count a user should see. */
  function Union(d: Disk): nat {
    |d.upper| + |d.uncovered|
  }

  /** ovl_get_nlink */
  function GetNlink(d: Disk, fallback: nat): nat {
    if !d.indexed || d.lowerLinks == 1 || d.note.None? then fallback
    else
      match ParseText(d.note.value)
      case None => fallback
      case Some((base, diff)) =>
        var nlink := Int32(Int32(Links(d, base)) + diff);
        if nlink <= 0 then fallback else nlink
  }

  function Note(nlink: nat, links: nat, base: Base): string {
    Text(base, Int32(nlink - links))
  }

  /** A new mount empties the work directory before it looks at anything. */
  function Mounted(d: Disk): Disk {
    d.(temp := false, left := 0)
  }

  /** What the note tells now: the links in the work directory that it does not know of are one
      name too many each, and once they are gone those it has counted are one too few. */
  function Told(d: Disk, base: Base): int {
    Union(d) + (if d.temp then 1 else 0) + (if base.Upper? then d.left - d.counted else 0)
  }

  /** The note is text made of a difference k that, with the links the base has now, tells this. */
  ghost predicate Says(d: Disk, base: Base, k: int) {
    && d.note == Some(Text(base, Int32(k)))
    && k + Links(d, base) == Told(d, base)
    && (d.temp ==> base.Upper?) && (base.Lower? ==> d.counted == 0)
  }

  ghost predicate Right(d: Disk) {
    d.indexed && d.note.Some? ==> exists base, k :: Says(d, base, k)
  }

  /** Reading a note back when the links it is relative to have changed since: the count has
      changed with them, unless it is out of the range of an int. */
  lemma ReadBack(d: Disk, base: Base, nlink: nat, links: nat)
    requires d.indexed && d.lowerLinks >= 2 && d.note == Some(Note(nlink, links, base))
    requires 0 <= nlink - links + Links(d, base) < TWO_32
    ensures GetNlink(d, 0) == nlink - links + Links(d, base) <==> nlink - links + Links(d, base) < TWO_31
  {
    var v := nlink - links + Links(d, base);
    TextRoundTrip(base, Int32(nlink - links));
    Int32Sum(Links(d, base), nlink - links);
    if v < TWO_31 {
      Int32Unique(v, v);
    }
  }

  /** The same for any difference, and with something to fall back to. */
  lemma ReadOff(d: Disk, base: Base, k: int, fallback: nat)
    requires d.indexed && d.lowerLinks >= 2 && d.note == Some(Text(base, Int32(k)))
    requires -TWO_31 <= k + Links(d, base) < TWO_31
    ensures GetNlink(d, fallback) == var n := k + Links(d, base); if n > 0 then n else fallback
  {
    TextRoundTrip(base, Int32(k));
    Int32Sum(Links(d, base), k);
    Int32Unique(k + Links(d, base), k + Links(d, base));
  }

  lemma NoteFits(nlink: nat, links: nat, base: Base)
    ensures |Note(nlink, links, base)| < 13
  {
    TextRoundTrip(base, Int32(nlink - links));
  }

  /** A note just written is right. */
  lemma WriteIsRight(d: Disk, base: Base)
    requires !d.temp
    ensures Right(After(d, WriteNote(base)))
  {
    assert Says(After(d, WriteNote(base)), base, Union(d) - Links(d, base));
  }

  /** A note relative to the upper inode stays right when names are added to or taken from
      the upper tree, and a note relative to the lower one when names are copied up. */
  lemma StaysRight(d: Disk, d': Disk, base: Base)
    requires !d.temp && d.indexed && d'.indexed && d'.note == d.note && d'.lowerLinks == d.lowerLinks
    requires JustNoted(d, base) && d'.counted == d.counted && d'.left == d.left
    requires if base.Upper? then d'.uncovered == d.uncovered else Union(d') == Union(d) && !d'.temp
    ensures Right(d')
  {
    assert Says(d', base, Union(d) - Links(d, base));
  }

  /** What is read back from a note that is right: what it tells. */
  lemma ReadsTrue(d: Disk, fallback: nat)
    requires d.indexed && d.lowerLinks >= 2 && d.note.Some? && Right(d)
    requires Union(d) + d.left + 1 < TWO_31 && d.counted < TWO_31
    ensures var n := Told(d, BaseOf(d)); GetNlink(d, fallback) == if n > 0 then n else fallback
  {
    var base, k :| Says(d, base, k);
    TextRoundTrip(base, Int32(k));
    ReadOff(d, base, k, fallback);
  }

  /** The inode the note is relative to. */
  function BaseOf(d: Disk): Base
    requires d.note.Some?
  {
    match ParseText(d.note.value)
    case None => Upper
    case Some((base, _)) => base
  }

  /** The next mount empties the work directory, and what a note says of the rest is right. */
  lemma MountedIsRight(d: Disk)
    requires Right(d)
    ensures Right(Mounted(d))
  {
    if d.indexed && d.note.Some? {
      var base, k :| Says(d, base, k);
      assert Says(Mounted(d), base, k);
    }
  }

  /** The count on disk is one too many when a link waits in the work directory. */
  lemma TempIsCounted()
    ensures var d := Disk(true, Some("U+0"), {0}, true, {1}, 2, 0, 0);
            Sane(d) && GetNlink(d, 0) == Union(d) + 1
  {
    var d := Disk(true, Some("U+0"), {0}, true, {1}, 2, 0, 0);
    assert Digits(0) == "0";
    assert Text(Upper, Int32(0)) == "U+0";
    assert Says(d, Upper, 0);
    TextRoundTrip(Upper, 0);
    ReadsTrue(d, 0);
  }

  /** And one too few for the next mount when the link stays there and a note is written then. */
  lemma LeftIsCounted()
    ensures var d := After(Disk(true, Some("U+0"), {0}, false, {1}, 2, 1, 0), WriteNote(Upper));
            Sane(d) && d.counted == 1 && Union(d) == 2 && GetNlink(Mounted(d), 0) == 1
  {
    var d := After(Disk(true, Some("U+0"), {0}, false, {1}, 2, 1, 0), WriteNote(Upper));
    WriteIsRight(Disk(true, Some("U+0"), {0}, false, {1}, 2, 1, 0), Upper);
    NextMountReads(d, 0);
  }

  function Names(d: Disk): set<Alias> {
    d.upper + d.uncovered
  }

  lemma Without(a: set<Alias>, x: Alias)
    requires x in a
    ensures |a - {x}| == |a| - 1
  {
    assert a == (a - {x}) + {x};
  }

  // ---------------------------------------------------------- what happens on disk

  /** One step on disk.  LinkAside makes a link in the work directory; MoveIn puts it under its
      name, CleanAside takes it away, LeaveAside is the failure to do so.  Repair is the note that is
      written when the last name is gone and there are links left.  A mount empties the work
      directory. */
  datatype DiskOp =
    | WriteNote(base: Base) | MakeIndex | DropIndex | CopyName(name: Alias)
    | Unlink(name: Alias) | LinkIn(name: Alias) | LinkAside | MoveIn(name: Alias)
    | CleanAside | LeaveAside | Repair | Rename(name: Alias, newName: Alias) | EmptyWork

  /** The note tells the number of names of now. */
  predicate JustNoted(d: Disk, base: Base) {
    d.note == Some(Note(Union(d), Links(d, base), base)) && d.counted == if base.Upper? then d.left else 0
  }

  /** What a step needs of the names. */
  predicate Possible(d: Disk, s: DiskOp) {
    match s
    case WriteNote(_) => d.indexed && !d.temp
    case MakeIndex => !d.indexed && !d.temp
    case DropIndex => d.indexed && !d.temp && Names(d) == {} && d.left == 0
    case CopyName(name) => d.indexed && !d.temp && name in d.uncovered
    case Unlink(name) => d.indexed && !d.temp && name in d.upper
    case LinkIn(name) => d.indexed && !d.temp && name !in Names(d)
    case LinkAside => d.indexed && !d.temp
    case MoveIn(name) => d.indexed && d.temp && name !in Names(d)
    case CleanAside => d.indexed && d.temp
    case LeaveAside => d.indexed && d.temp
    case Repair => d.indexed && !d.temp && Names(d) == {} && d.left > 0
    case Rename(name, newName) => d.indexed && !d.temp && name in d.upper && newName !in Names(d)
    case EmptyWork => true
  }

  /** A name goes or comes only when a note has just been written relative to the upper inode,
      and is copied up only after one relative to the lower. */
  predicate Allowed(d: Disk, s: DiskOp) {
    && Possible(d, s)
    && (s.CopyName? ==> JustNoted(d, Lower))
    && (s.Unlink? || s.LinkIn? || s.LinkAside? ==> JustNoted(d, Upper))
  }

  function After(d: Disk, s: DiskOp): Disk {
    match s
    case WriteNote(base) =>
      d.(note := Some(Note(Union(d), Links(d, base), base)), counted := if base.Upper? then d.left else 0)
    case MakeIndex => d.(indexed := true, note := None)
    case DropIndex => d.(indexed := false)
    case CopyName(name) => d.(upper := d.upper + {name}, uncovered := d.uncovered - {name})
    case Unlink(name) => d.(upper := d.upper - {name})
    case LinkIn(name) => d.(upper := d.upper + {name})
    case LinkAside => d.(temp := true)
    case MoveIn(name) => d.(temp := false, upper := d.upper + {name})
    case CleanAside => d.(temp := false)
    case LeaveAside => d.(temp := false, left := d.left + 1)
    case Repair => d.(note := Some(Note(d.left, UpperLinks(d), Upper)), counted := 0)
    case Rename(name, newName) => d.(upper := d.upper - {name} + {newName})
    case EmptyWork => d.(temp := false, left := 0)
  }

  ghost predicate DiskStep(d: Disk, d': Disk) {
    Union(d') + d'.left < TWO_31 - 2 && exists s :: Allowed(d, s) && d' == After(d, s)
  }

  ghost predicate Sane(d: Disk) {
    && d.lowerLinks >= 2 && Union(d) + d.left < TWO_31 - 2 && d.counted < TWO_31 - 2
    && (!d.indexed ==> d.upper == {} && !d.temp && d.left == 0) && d.upper !! d.uncovered
    && Right(d)
  }

  /** A file with several lower links, of which nothing is in the upper layer. */
  predicate Untouched(d: Disk) {
    !d.indexed && d.note == None && d.upper == {} && !d.temp && d.left == d.counted == 0
    && 2 <= d.lowerLinks == |d.uncovered| < TWO_31 - 2
  }

  /** How each step changes the names. */
  function NamesThen(d: Disk, s: DiskOp): set<Alias> {
    match s
    case Unlink(name) => Names(d) - {name}
    case LinkIn(name) => Names(d) + {name}
    case MoveIn(name) => Names(d) + {name}
    case Rename(name, newName) => Names(d) - {name} + {newName}
    case _ => Names(d)
  }

  lemma NamesAfter(d: Disk, s: DiskOp)
    requires Possible(d, s) && d.upper !! d.uncovered
    ensures Names(After(d, s)) == NamesThen(d, s)
  {
    forall x ensures x in Names(After(d, s)) <==> x in NamesThen(d, s) {
    }
  }

  lemma StillApart(d: Disk, s: DiskOp)
    requires Possible(d, s) && d.upper !! d.uncovered
    ensures After(d, s).upper !! After(d, s).uncovered
  {
    forall x | x in After(d, s).upper ensures x !in After(d, s).uncovered {
    }
  }

  lemma UnionAfter(d: Disk, s: DiskOp)
    requires Possible(d, s) && d.upper !! d.uncovered
    ensures Union(After(d, s)) == Union(d) + (if s.LinkIn? || s.MoveIn? then 1 else if s.Unlink? then -1 else 0)
  {
    match s {
      case CopyName(name) => Without(d.uncovered, name);
      case Unlink(name) => Without(d.upper, name);
      case Rename(name, newName) =>
        Without(d.upper, name);
        assert |d.upper - {name} + {newName}| == |d.upper|;
      case _ =>
    }
  }

  /** Every step keeps the note right: whatever comes after it, the number of names can still be
      told from it. */
  lemma StepKeepsRight(d: Disk, s: DiskOp)
    requires Sane(d) && Allowed(d, s)
    ensures Right(After(d, s))
  {
    UnionAfter(d, s);
    var d' := After(d, s);
    match s {
      case WriteNote(base) => WriteIsRight(d, base);
      case CopyName(_) => StaysRight(d, d', Lower);
      case Unlink(_) => StaysRight(d, d', Upper);
      case LinkIn(_) => StaysRight(d, d', Upper);
      case LinkAside => StaysRight(d, d', Upper);
      case Rename(name, newName) => RenameIsRight(d, name, newName);
      case MoveIn(name) => MoveInIsRight(d, name);
      case CleanAside => CleanedIsRight(d, d');
      case LeaveAside => CleanedIsRight(d, d');
      case Repair =>
        assert Says(d', Upper, d.left - UpperLinks(d));
      case EmptyWork => MountedIsRight(d);
      case _ =>
    }
  }

  lemma RenameIsRight(d: Disk, name: Alias, newName: Alias)
    requires Right(d) && !d.temp && name in d.upper && newName !in Names(d)
    ensures Right(d.(upper := d.upper - {name} + {newName}))
  {
    var d' := d.(upper := d.upper - {name} + {newName});
    Without(d.upper, name);
    assert |d'.upper| == |d.upper|;
    if d.indexed && d.note.Some? {
      var base, k :| Says(d, base, k);
      assert Says(d', base, k);
    }
  }

  lemma MoveInIsRight(d: Disk, name: Alias)
    requires Right(d) && d.indexed && d.temp && name !in Names(d)
    ensures Right(d.(temp := false, upper := d.upper + {name}))
  {
    var d' := d.(temp := false, upper := d.upper + {name});
    assert |d'.upper| == |d.upper| + 1;
    if d.note.Some? {
      var base, k :| Says(d, base, k);
      assert Says(d', base, k);
    }
  }

  lemma CleanedIsRight(d: Disk, d': Disk)
    requires Right(d) && d.indexed && d.temp && (d' == After(d, CleanAside) || d' == After(d, LeaveAside))
    ensures Right(d')
  {
    if d.note.Some? {
      var base, k :| Says(d, base, k);
      assert Says(d', base, k);
    }
  }

  lemma StepKeepsSane(d: Disk, s: DiskOp)
    requires Sane(d) && Allowed(d, s) && Union(After(d, s)) + After(d, s).left < TWO_31 - 2
    ensures Sane(After(d, s))
  {
    StillApart(d, s);
    StepKeepsRight(d, s);
  }

  /** The states of the disk, from the time nothing was in the upper layer. */
  ghost predicate IsHistory(stops: seq<Disk>) {
    && stops != [] && Untouched(stops[0])
    && forall k :: 0 < k < |stops| ==> DiskStep(stops[k - 1], stops[k])
  }

  lemma {:induction false} HistoryIsSane(stops: seq<Disk>, k: nat)
    requires IsHistory(stops) && k < |stops|
    ensures Sane(stops[k])
  {
    if k > 0 {
      HistoryIsSane(stops, k - 1);
      assert DiskStep(stops[k - 1], stops[k]);
      var s :| Allowed(stops[k - 1], s) && stops[k] == After(stops[k - 1], s);
      StepKeepsSane(stops[k - 1], s);
    }
  }

  lemma HistoryUpTo(stops: seq<Disk>, k: nat)
    requires IsHistory(stops) && k < |stops|
    ensures IsHistory(stops[..k + 1])
  {
    var upTo := stops[..k + 1];
    forall j | 0 < j < |upTo| ensures DiskStep(upTo[j - 1], upTo[j]) {
      assert DiskStep(stops[j - 1], stops[j]);
    }
  }

  lemma HistoryGrows(stops: seq<Disk>, s: DiskOp)
    requires IsHistory(stops)
    requires var d := stops[|stops| - 1]; Allowed(d, s) && Union(After(d, s)) + After(d, s).left < TWO_31 - 2
    ensures IsHistory(stops + [After(stops[|stops| - 1], s)])
  {
    var d := stops[|stops| - 1];
    var more := stops + [After(d, s)];
    forall k | 0 < k < |more| ensures DiskStep(more[k - 1], more[k]) {
      if k < |stops| {
        assert DiskStep(stops[k - 1], stops[k]);
      }
    }
  }

  /** Another alias in the cache is another name. */
  lemma OthersLeft(d: Disk, hashed: set<Alias>, name: Alias)
    requires name in d.upper && hashed <= Names(d) && d.upper !! d.uncovered
    ensures Union(d) > (if hashed - {name} != {} then 1 else 0)
  {
    Without(d.upper, name);
    if hashed - {name} != {} {
      var other :| other in hashed - {name};
      if other in d.upper {
        Without(d.upper - {name}, other);
      } else {
        Without(d.uncovered, other);
      }
    }
  }

  /** Which steps of a copy-up and of the note after it succeed. */
  datatype Outcome = Outcome(copied: bool, firstNote: bool, lowerNote: bool, linked: bool, upperNote: bool, note: bool)

  const ALL_WELL := Outcome(true, true, true, true, true, true)

  /** The next mount reads the number of names less the links it has counted that were left. */
  lemma NextMountReads(d: Disk, fallback: nat)
    requires Sane(d) && d.indexed && d.note.Some?
    ensures GetNlink(Mounted(d), fallback) == var n := Union(d) - d.counted; if n > 0 then n else fallback
  {
    MountedIsRight(d);
    ReadsTrue(Mounted(d), fallback);
    var base, k :| Says(d, base, k);
    TextRoundTrip(base, Int32(k));
  }

  /** So it reads the number of names, and with 0 to fall back to takes the index entry for an
      orphan iff there is none, if and only if no name is left or no note has counted a link left in
      the work directory. */
  lemma NextMountIsRight(d: Disk)
    requires Sane(d) && d.indexed && d.note.Some?
    ensures GetNlink(Mounted(d), 0) == Union(d) <==> Union(d) == 0 || d.counted == 0
  {
    NextMountReads(d, 0);
  }

  /** If every link made in the work directory is moved or taken away, no note counts one. */
  lemma {:induction false} NoneLeftNoneCounted(stops: seq<Disk>, k: nat)
    requires IsHistory(stops) && k < |stops| && forall d :: d in stops ==> d.left == 0
    ensures stops[k].counted == 0
  {
    if k > 0 {
      NoneLeftNoneCounted(stops, k - 1);
      var d := stops[k - 1];
      assert d in stops && DiskStep(d, stops[k]);
      var s :| Allowed(d, s) && stops[k] == After(d, s);
    }
  }

  /** In every state of every history the count read is what the note tells: the number of names, one
      more for a link that waits in the work directory or has been left there since the note was
      written; and the mount after a stop there reads the number of names less the links left that
      were there when the note was written. */
  lemma EveryStopIsRight(stops: seq<Disk>, d: Disk, fallback: nat)
    requires IsHistory(stops) && d in stops && d.indexed && d.note.Some?
    ensures var n := Told(d, BaseOf(d)); GetNlink(d, fallback) == if n > 0 then n else fallback
    ensures GetNlink(Mounted(d), fallback) == var n := Union(d) - d.counted; if n > 0 then n else fallback
    ensures (forall x :: x in stops ==> x.left == 0) ==>
        d.counted == 0 && Told(d, BaseOf(d)) == Union(d) + (if d.temp then 1 else 0)
  {
    var k :| 0 <= k < |stops| && stops[k] == d;
    HistoryIsSane(stops, k);
    ReadsTrue(d, fallback);
    NextMountReads(d, fallback);
    if forall x :: x in stops ==> x.left == 0 {
      NoneLeftNoneCounted(stops, k);
    }
  }

  /** No index entry, or, if links are left in the work directory, one that the next mount takes for
      an orphan. */
  ghost predicate NothingOfItLeft(d: Disk) {
    if d.left == 0 then !d.indexed
    else d.indexed && d.note.Some? && d.counted == 0 && GetNlink(Mounted(d), 0) == 0
  }

  lemma NoNames(d: Disk)
    ensures Names(d) == {} ==> Union(d) == 0
  {
    if Names(d) == {} {
      assert d.upper == {} && d.uncovered == {};
    }
  }

  lemma EndedWell(d: Disk)
    requires Sane(d) && Names(d) == {}
    requires if d.left == 0 then !d.indexed else d.indexed && d.note.Some? && d.counted == 0
    ensures NothingOfItLeft(d)
  {
    assert d.upper == {} && d.uncovered == {};
    if d.left > 0 {
      NextMountReads(d, 0);
    }
  }

  class OverlayInode {
    var disk: Disk
    /** i_nlink of the overlay inode. */
    var nlink: nat
    /** The dentries of this inode that the cache has hashed. */
    var hashed: set<Alias>
    /** Every state the disk has been in. */
    ghost var stops: seq<Disk>

    /** The count is the number of names; when there is none it is the number of links left in the
        work directory, once they have been found out. */
    ghost predicate Valid() reads this {
      nlink == (if Union(disk) > 0 then Union(disk) else disk.left) && AtRest()
    }

    ghost predicate AtRest() reads this {
      hashed <= Names(disk) && !disk.temp && IsKept() && Sane(disk)
    }

    /** The count is the number of names. */
    ghost predicate Counted() reads this {
      nlink == Union(disk) && AtRest()
    }

    lemma NamesAreCounted(name: Alias)
      requires Valid() && name in Names(disk)
      ensures Counted()
    {
      assert name in disk.upper || name in disk.uncovered;
    }

    /** stops is a history and ends with the disk. */
    ghost predicate IsKept() reads this {
      IsHistory(stops) && stops[|stops| - 1] == disk
    }

    /** A file with several lower links, seen for the first time. */
    constructor (lower: set<Alias>)
      requires 2 <= |lower| < TWO_31 - 2
      ensures Valid()
      ensures disk == Disk(false, None, {}, false, lower, |lower|, 0, 0)
    {
      var d := Disk(false, None, {}, false, lower, |lower|, 0, 0);
      disk, stops := d, [d];
      nlink, hashed := |lower|, {};
    }

    /** One step on disk. */
    method Put(s: DiskOp)
      requires IsKept() && Sane(disk) && Allowed(disk, s)
      requires Union(disk) + disk.left + 1 < TWO_31 - 2 || !(s.LinkIn? || s.MoveIn? || s.LeaveAside?)
      modifies this`disk, this`stops
      ensures disk == After(old(disk), s) && stops == old(stops) + [disk] && IsKept() && Sane(disk)
      ensures Names(disk) == NamesThen(old(disk), s)
      ensures Union(disk) == Union(old(disk)) + (if s.LinkIn? || s.MoveIn? then 1 else if s.Unlink? then -1 else 0)
    {
      NamesAfter(disk, s);
      UnionAfter(disk, s);
      StepKeepsSane(disk, s);
      HistoryGrows(stops, s);
      disk := After(disk, s);
      stops := stops + [disk];
    }

    /** ovl_set_nlink_upper and ovl_set_nlink_lower; writing the note may fail.  The text
        always fits the buffer. */
    method SetNlink(base: Base, written: bool) returns (ok: bool)
      requires Counted() && disk.indexed
      modifies this`disk, this`stops
      ensures Counted() && ok == written
      ensures disk == if ok then After(old(disk), WriteNote(base)) else old(disk)
      ensures ok ==> disk.note == Some(Note(nlink, Links(old(disk), base), base))
      ensures stops == if ok then old(stops) + [disk] else old(stops)
    {
      var text := Note(nlink, Links(disk, base), base);
      NoteFits(nlink, Links(disk, base), base);
      if |text| >= 13 {
        assert false;
      }
      if written {
        Put(WriteNote(base));
      }
      ok := written;
    }

    /** ovl_link_up: one more name is linked to the upper inode that is there, in three steps. */
    method LinkUp(name: Alias, o: Outcome) returns (ok: bool)
      requires Counted() && disk.indexed && name in disk.uncovered
      modifies this`disk, this`stops
      ensures Counted() && disk.indexed && disk.lowerLinks == old(disk).lowerLinks && disk.left == old(disk).left
      ensures old(disk).note.Some? ==> disk.note.Some?
      ensures ok == (o.lowerNote && o.linked && o.upperNote)
      ensures Names(disk) == Names(old(disk)) && Union(disk) == Union(old(disk))
      ensures disk.upper == if o.lowerNote && o.linked then old(disk).upper + {name} else old(disk).upper
      ensures old(stops) <= stops
      ensures |stops| == |old(stops)| + (if !o.lowerNote then 0 else if !o.linked then 1 else if ok then 3 else 2)
      ensures forall k :: |old(stops)| <= k < |stops| ==> Names(stops[k]) == Names(old(disk))
    {
      ok := SetNlink(Lower, o.lowerNote);
      if !ok || !o.linked {
        return false;
      }
      Put(CopyName(name));
      ok := SetNlink(Upper, o.upperNote);
    }

    /** ovl_copy_up_one for a non-directory that must be indexed: the index entry first, then
        the link.  Nothing shows, wherever it fails. */
    method CopyUp(name: Alias, o: Outcome) returns (ok: bool)
      requires Counted() && name in Names(disk)
      modifies this`disk, this`stops
      ensures Counted() && disk.lowerLinks == old(disk).lowerLinks && disk.left == old(disk).left
      ensures Names(disk) == Names(old(disk)) && Union(disk) == Union(old(disk))
      ensures disk.upper == old(disk).upper || disk.upper == old(disk).upper + {name}
      ensures ok ==> disk.indexed && name in disk.upper
      ensures o == ALL_WELL ==> ok
      ensures old(disk).indexed || !disk.indexed || !o.firstNote || disk.note.Some?
      ensures old(stops) <= stops
    {
      ok := true;
      if !disk.indexed {
        if !o.copied {
          return false;
        }
        Put(MakeIndex);
        ok := SetNlink(Upper, o.firstNote);
      }
      if ok && name !in disk.upper {
        ok := LinkUp(name, o);
      }
    }

    /** ovl_nlink_start: the name is copied up first, and the note is made relative to the
        upper inode. */
    method NlinkStart(name: Alias, o: Outcome) returns (ok: bool)
      requires Counted() && name in Names(disk)
      modifies this`disk, this`stops
      ensures Counted() && disk.lowerLinks == old(disk).lowerLinks && disk.left == old(disk).left
      ensures Names(disk) == Names(old(disk)) && Union(disk) == Union(old(disk))
      ensures ok ==> disk.indexed && JustNoted(disk, Upper) && name in disk.upper
      ensures o == ALL_WELL ==> ok
      ensures old(stops) <= stops
    {
      ok := true;
      if name !in disk.upper {
        ok := CopyUp(name, o);
      }
      if ok {
        ok := SetNlink(Upper, o.note);
      }
    }

    /** ovl_nlink_end: the last name takes the index entry with it, unless links are left in the
        work directory: then the count is repaired, and the note with it.  ended says whether the
        step on disk succeeds; if it does not, that is only logged. */
    method NlinkEnd(ended: bool)
      requires Counted()
      modifies this`disk, this`nlink, this`stops
      ensures Valid()
      ensures nlink == if old(nlink) == 0 then old(disk).left else old(nlink)
      ensures var d := old(disk); disk == if !d.indexed || old(nlink) > 0 || !ended then d
                                          else if d.left > 0 then After(d, Repair) else d.(indexed := false)
      ensures ended && old(disk).indexed && old(nlink) == 0 ==> NothingOfItLeft(disk)
      ensures stops == if old(disk).indexed && old(nlink) == 0 && ended then old(stops) + [disk] else old(stops)
    {
      if disk.indexed && nlink == 0 {
        assert disk.upper == {};
        if UpperLinks(disk) != 1 {
          nlink := UpperLinks(disk) - 1;
          if ended {
            Put(Repair);
          }
        } else if ended {
          Put(DropIndex);
        }
        if ended {
          EndedWell(disk);
        }
      }
    }

    /** A lookup finds the name and hashes its dentry. */
    method Lookup(name: Alias)
      requires Valid() && name in Names(disk)
      modifies this`hashed
      ensures Valid() && hashed == old(hashed) + {name}
    {
      hashed := hashed + {name};
    }

    /** ovl_drop_nlink: not to zero while another alias is hashed. */
    method DropNlink(name: Alias)
      modifies this`nlink
      ensures nlink == if old(nlink) > (if hashed - {name} != {} then 1 else 0) then old(nlink) - 1 else old(nlink)
    {
      var other := hashed - {name} != {};
      if nlink > (if other then 1 else 0) {
        nlink := nlink - 1;
      }
    }

    /** ovl_do_remove and the target of ovl_rename: one name goes iff the step on disk
        succeeds, and then the count goes down by one. */
    method Remove(name: Alias, o: Outcome, gone: bool, ended: bool) returns (ok: bool)
      requires Valid() && name in Names(disk)
      modifies this
      ensures Valid()
      ensures Names(disk) == if ok then Names(old(disk)) - {name} else Names(old(disk))
      ensures nlink == if !ok then old(nlink) else if old(nlink) > 1 then old(nlink) - 1 else disk.left
      ensures ok ==> gone
      ensures gone && o == ALL_WELL ==> ok
      ensures !gone && o == ALL_WELL ==> disk.indexed && JustNoted(disk, Upper)
      ensures ok && ended && Names(disk) == {} ==> NothingOfItLeft(disk)
      ensures disk.left == old(disk).left && old(stops) <= stops
    {
      hide IsHistory, Sane;
      NamesAreCounted(name);
      ok := NlinkStart(name, o);
      if !ok {
        return;
      }
      ok := gone;
      if gone {
        Take(name);
      }
      NoNames(disk);
      NlinkEnd(ended);
    }

    /** The name goes, and the count with it. */
    method Take(name: Alias)
      requires Counted() && disk.indexed && JustNoted(disk, Upper) && name in disk.upper
      modifies this
      ensures Counted() && disk.indexed && disk.left == old(disk).left
      ensures Names(disk) == Names(old(disk)) - {name} && nlink == old(nlink) - 1
      ensures stops == old(stops) + [disk]
    {
      OthersLeft(disk, hashed, name);
      Put(Unlink(name));
      DropNlink(name);
      hashed := hashed - {name};
    }

    /** The link in the work directory, put in its place or taken away again; if that fails it
        stays. */
    method LinkThenMove(newName: Alias, moved: bool, cleaned: bool)
      requires IsKept() && Sane(disk) && Allowed(disk, LinkIn(newName))
      requires Union(disk) + disk.left + 1 < TWO_31 - 2
      modifies this`disk, this`stops
      ensures IsKept() && Sane(disk) && old(stops) <= stops
      ensures disk == if moved then old(disk).(upper := old(disk).upper + {newName})
                      else if cleaned then old(disk) else old(disk).(left := old(disk).left + 1)
      ensures Union(disk) == Union(old(disk)) + (if moved then 1 else 0)
      ensures Names(disk) == if moved then Names(old(disk)) + {newName} else Names(old(disk))
      ensures |stops| == |old(stops)| + 2 && stops[|old(stops)|] == old(disk).(temp := true)
    {
      Put(LinkAside);
      Put(if moved then MoveIn(newName) else if cleaned then CleanAside else LeaveAside);
    }

    /** ovl_create_upper or, for a whiteout, ovl_create_over_whiteout, for a hard link: the
        new name is linked in place, or linked in the work directory and then renamed.
        linked, moved and cleaned say whether these steps and the removal of a link that could not
        be renamed succeed. */
    method LinkInto(newName: Alias, overWhiteout: bool, linked: bool, moved: bool, cleaned: bool) returns (ok: bool)
      requires Counted() && disk.indexed && JustNoted(disk, Upper) && newName !in Names(disk)
      requires nlink + disk.left + 3 < TWO_31
      modifies this`disk, this`nlink, this`stops
      ensures Counted() && ok == (linked && (overWhiteout ==> moved))
      ensures disk == if ok then old(disk).(upper := old(disk).upper + {newName})
                      else if linked && !cleaned then old(disk).(left := old(disk).left + 1) else old(disk)
      ensures nlink == if ok then old(nlink) + 1 else old(nlink)
      ensures old(stops) <= stops
      ensures overWhiteout && linked ==> |stops| == |old(stops)| + 2 && stops[|old(stops)|] == old(disk).(temp := true)
    {
      ok := linked && (overWhiteout ==> moved);
      if linked {
        if overWhiteout {
          LinkThenMove(newName, moved, cleaned);
        } else {
          Put(LinkIn(newName));
        }
        nlink := if ok then nlink + 1 else nlink;
        assert Union(disk) == nlink && hashed <= Names(disk);
      }
    }

    /** ovl_link */
    method Link(name: Alias, newName: Alias, overWhiteout: bool, o: Outcome, linked: bool, moved: bool, cleaned: bool)
      returns (ok: bool)
      requires Valid() && name in Names(disk) && newName !in Names(disk) && nlink + disk.left + 3 < TWO_31
      modifies this
      ensures Valid()
      ensures Names(disk) == if ok then Names(old(disk)) + {newName} else Names(old(disk))
      ensures nlink == if ok then old(nlink) + 1 else old(nlink)
      ensures ok ==> linked && (overWhiteout ==> moved)
      ensures linked && moved && o == ALL_WELL ==> ok
      ensures disk.left == old(disk).left || (disk.left == old(disk).left + 1 && !ok && linked && !cleaned)
      ensures !ok && linked && !cleaned && o == ALL_WELL ==> disk.left == old(disk).left + 1
      ensures overWhiteout && linked && o == ALL_WELL ==>
          exists d :: d in stops && d.temp && d.indexed && d.note.Some? && Union(d) == Union(old(disk))
      ensures old(stops) <= stops
    {
      hide IsHistory, Sane, NothingOfItLeft;
      NamesAreCounted(name);
      ok := NlinkStart(name, o);
      if !ok {
        return;
      }
      ghost var waiting := disk.(temp := true);
      ok := LinkInto(newName, overWhiteout, linked, moved, cleaned);
      NlinkEnd(true);
      assert overWhiteout && linked ==> waiting in stops && Union(waiting) == Union(old(disk));
    }

    /** A rename of one name to another that is free, or not this inode's. */
    method Move(name: Alias, newName: Alias, o: Outcome, moved: bool) returns (ok: bool)
      requires Valid() && name in Names(disk) && newName !in Names(disk)
      modifies this
      ensures Valid() && nlink == old(nlink)
      ensures Names(disk) == if ok then Names(old(disk)) - {name} + {newName} else Names(old(disk))
      ensures old(stops) <= stops && (ok ==> moved) && (moved && o == ALL_WELL ==> ok)
    {
      hide IsHistory, Right;
      NamesAreCounted(name);
      ok := CopyUp(name, o);
      ok := ok && moved;
      if ok {
        MoveTo(name, newName);
      }
    }

    /** The rename on disk; a dentry that is hashed is so under the new name. */
    method MoveTo(name: Alias, newName: Alias)
      requires Counted() && disk.indexed && name in disk.upper && newName !in Names(disk)
      modifies this`disk, this`stops, this`hashed
      ensures Counted() && Names(disk) == Names(old(disk)) - {name} + {newName} && stops == old(stops) + [disk]
    {
      Put(Rename(name, newName));
      hashed := if name in hashed then hashed - {name} + {newName} else hashed;
    }

    /** Stop at any point and mount again: ovl_get_inode loads the inode with the number of names
        less the links left that the last note has counted.  If it has counted none, the count is
        true and everything goes on.  What would have come after the stop has not happened. */
    method Remount(ghost k: nat, d: Disk)
      requires Valid() && k < |stops| && d == stops[k] && d.indexed && d.note.Some? && Union(d) > d.counted
      modifies this
      ensures disk == Mounted(d) && nlink == Union(d) - d.counted && AtRest()
      ensures Valid() <==> d.counted == 0
      ensures stops == old(stops)[..k + 1] + [disk]
    {
      HistoryIsSane(stops, k);
      HistoryUpTo(stops, k);
      disk, stops := d, stops[..k + 1];
      NextMountReads(d, UpperLinks(Mounted(d)));
      Put(EmptyWork);
      nlink, hashed := GetNlink(disk, UpperLinks(disk)), {};
    }
  }

  /** A hard link over a whiteout fails and its link stays in the work directory; then a removal
      fails.  Two names are left, and the next mount counts one. */
  method OneTooFew() returns (c: OverlayInode)
    ensures c.Valid() && c.disk.indexed && c.disk.note.Some? && Union(c.disk) == 2
    ensures GetNlink(Mounted(c.disk), 0) == 1
  {
    c := new OverlayInode({0, 1});
    var ok := c.Link(0, 2, true, ALL_WELL, true, false, false);
    ok := c.Remove(0, ALL_WELL, false, true);
    c.NamesAreCounted(0);
    NextMountReads(c.disk, 0);
  }

  /** Every name is removed, and every step succeeds. */
  method RemoveAll(c: OverlayInode)
    requires c.Valid() && Names(c.disk) != {}
    modifies c
    ensures c.Valid() && Names(c.disk) == {} && NothingOfItLeft(c.disk) && c.disk.left == old(c.disk.left)
    ensures c.nlink == c.disk.left && old(c.stops) <= c.stops
  {
    while Names(c.disk) != {}
      invariant c.Valid() && c.disk.left == old(c.disk.left) && old(c.stops) <= c.stops
      invariant Names(c.disk) == {} ==> NothingOfItLeft(c.disk)
      decreases Names(c.disk)
    {
      var name :| name in Names(c.disk);
      var ok := c.Remove(name, ALL_WELL, true, true);
    }
    assert c.disk.upper == {} && c.disk.uncovered == {};
  }
}
