// Inode numbers.  Objects of several file systems are shown as one: each file system gets
// an id, which goes into the high bits of the number.

module Ino {
  import opened Tree
  import opened Bits

  type SuperBlock = nat

  const OVL_MAX_STACK: nat := 500

  datatype Xino = XinoOff | XinoAuto | XinoOn

  /** What every mount sets up: -1, no common numbers; 0, one file system; otherwise how many
      high bits there are, enough for every id and one more. */
  ghost predicate GoodMode(mode: int, numfs: nat) {
    mode == -1 || mode == 0 || (2 <= mode <= 32 && numfs <= Pow2(mode - 1))
  }

  lemma EnoughBits(numfs: nat)
    requires 2 <= numfs <= OVL_MAX_STACK + 1
    ensures GoodMode(Ilog2(numfs - 1) + 2, numfs) && GoodMode(32, numfs)
  {
    Ilog2Bounds(numfs - 1);
    var k := Ilog2(numfs - 1);
    SmallPowers();
    if k > 30 {
      Pow2Grows(9, k);
    }
    Pow2Grows(9, 31);
  }

  /** The bits are the fewest that hold the ids, and one more. */
  lemma FewestBits(numfs: nat)
    requires 2 <= numfs <= OVL_MAX_STACK + 1
    ensures var bits := Ilog2(numfs - 1) + 2; 2 <= bits <= 32 && Pow2(bits - 2) < numfs <= Pow2(bits - 1)
  {
    EnoughBits(numfs);
    Ilog2Bounds(numfs - 1);
  }

  lemma SmallPowers()
    ensures Pow2(9) == 512
  {
    assert Pow2(3) == 8;
    Pow2Sum(3, 3);
    Pow2Sum(6, 3);
  }

  /** The file systems of a mount; 0 is that of the upper layer even when there is none. */
  class FileSystems {
    const fs: array<Option<SuperBlock>>
    var numfs: nat
    var xinoMode: int

    ghost predicate Valid() reads this, fs {
      && 1 <= numfs <= fs.Length
      && (forall i :: 1 <= i < numfs ==> fs[i].Some?)
      && forall i, j :: 0 <= i < j < numfs ==> fs[i] != fs[j]
    }

    constructor (numlower: nat, upper: Option<SuperBlock>, mode: int)
      ensures Valid() && fresh(fs) && fs.Length == numlower + 1 && numfs == 1 && fs[0] == upper && xinoMode == mode
    {
      fs := new Option<SuperBlock>[numlower + 1](_ => None);
      numfs, xinoMode := 1, mode;
      new;
      fs[0] := upper;
    }

    /** ovl_get_fsid */
    method GetFsid(sb: SuperBlock) returns (id: nat)
      requires Valid() && numfs < fs.Length
      modifies this`numfs, fs
      ensures Valid() && id < numfs && fs[id] == Some(sb)
      ensures fs[..old(numfs)] == old(fs[..numfs])
      ensures numfs == if Some(sb) in old(fs[..numfs]) then old(numfs) else old(numfs) + 1
    {
      var i := 0;
      while i < numfs
        invariant i <= numfs && forall k :: 0 <= k < i ==> fs[k] != Some(sb)
      {
        if fs[i] == Some(sb) {
          return i;
        }
        i := i + 1;
      }
      fs[numfs] := Some(sb);
      id, numfs := numfs, numfs + 1;
    }

    /** ovl_get_layers: layers get one id iff they are on one file system, and 0 iff that is
        the upper layer's; and the bits set aside are enough for all ids. */
    method GetLayers(lowers: seq<SuperBlock>, xino: Xino) returns (ids: seq<nat>)
      requires Valid() && numfs == 1 && fs.Length == |lowers| + 1
      requires 1 <= |lowers| <= OVL_MAX_STACK
      requires xinoMode == 32 || xinoMode == -1 || (xinoMode == 0 && xino.XinoOff?)
      modifies this, fs
      ensures Valid() && fs[0] == old(fs[0]) && |ids| == |lowers|
      ensures forall i :: 0 <= i < |ids| ==> ids[i] < numfs
      ensures forall i, j :: 0 <= i < |ids| && 0 <= j < |ids| ==> (ids[i] == ids[j] <==> lowers[i] == lowers[j])
      ensures forall i :: 0 <= i < |ids| ==> (ids[i] == 0 <==> fs[0] == Some(lowers[i]))
      ensures GoodMode(xinoMode, numfs)
      ensures xinoMode != 0 && xino.XinoOff? ==> xinoMode == -1
      ensures xinoMode != 0 && !xino.XinoOff? && old(xinoMode) > 0 ==> xinoMode == old(xinoMode)
      ensures xinoMode != 0 && !xino.XinoOff? && old(xinoMode) < 0 ==>
          2 <= xinoMode <= 32 && Pow2(xinoMode - 2) < numfs <= Pow2(xinoMode - 1)
      ensures xinoMode == 0 <==>
          (forall i :: 0 <= i < |lowers| ==> lowers[i] == lowers[0] && (fs[0].Some? ==> fs[0] == Some(lowers[i])))
    {
      ids := [];
      var i := 0;
      while i < |lowers|
        invariant 0 <= i == |ids| <= |lowers| && Valid() && numfs <= i + 1 && fs[0] == old(fs[0])
        invariant forall k :: 0 <= k < i ==> ids[k] < numfs && fs[ids[k]] == Some(lowers[k])
        invariant xinoMode == old(xinoMode) && forall n :: 1 <= n < numfs ==> n in ids
      {
        ghost var was, before := fs[..numfs], numfs;
        var id := GetFsid(lowers[i]);
        assert forall n :: 0 <= n < before ==> fs[n] == was[n] by {
          assert fs[..before] == was;
        }
        ids := ids + [id];
        i := i + 1;
      }
      OneFileSystem(lowers, ids);
      DecideMode(xino);
    }

    /** Its last part: how many high bits are set aside. */
    method DecideMode(xino: Xino)
      requires Valid() && numfs - (if fs[0].None? then 1 else 0) >= 1 && numfs <= OVL_MAX_STACK + 1
      requires xinoMode == 32 || xinoMode == -1 || (xinoMode == 0 && xino.XinoOff?)
      modifies this`xinoMode
      ensures GoodMode(xinoMode, numfs)
      ensures xinoMode == 0 <==> numfs - (if fs[0].None? then 1 else 0) == 1
      ensures xinoMode != 0 && xino.XinoOff? ==> xinoMode == -1
      ensures xinoMode != 0 && !xino.XinoOff? && old(xinoMode) > 0 ==> xinoMode == old(xinoMode)
      ensures xinoMode != 0 && !xino.XinoOff? && old(xinoMode) < 0 ==>
          2 <= xinoMode <= 32 && Pow2(xinoMode - 2) < numfs <= Pow2(xinoMode - 1)
    {
      if numfs - (if fs[0].None? then 1 else 0) == 1 {
        xinoMode := 0;
      } else {
        hide Pow2, Ilog2;
        EnoughBits(numfs);
        if xino.XinoOff? {
          xinoMode := -1;
        } else if xinoMode < 0 {
          FewestBits(numfs);
          xinoMode := Ilog2(numfs - 1) + 2;
        }
      }
    }

    lemma OneFileSystem(lowers: seq<SuperBlock>, ids: seq<nat>)
      requires Valid() && |ids| == |lowers| >= 1
      requires forall k :: 0 <= k < |ids| ==> ids[k] < numfs && fs[ids[k]] == Some(lowers[k])
      requires forall n :: 1 <= n < numfs ==> n in ids
      ensures numfs - (if fs[0].None? then 1 else 0) == 1 <==>
          (forall i :: 0 <= i < |lowers| ==> lowers[i] == lowers[0] && (fs[0].Some? ==> fs[0] == Some(lowers[i])))
      ensures numfs - (if fs[0].None? then 1 else 0) >= 1
    {
      assert fs[0].None? ==> ids[0] != 0;
      if numfs >= 3 {
        assert 1 in ids && 2 in ids;
        var k1 :| 0 <= k1 < |ids| && ids[k1] == 1;
        var k2 :| 0 <= k2 < |ids| && ids[k2] == 2;
        assert lowers[k1] != lowers[k2];
      } else if numfs == 2 {
        assert 1 in ids;
        var k :| 0 <= k < |ids| && ids[k] == 1;
        assert fs[1] == Some(lowers[k]);
      }
    }
  }

  datatype Dev = Overlay | Pseudo(fsid: nat)
  datatype Shown = Shown(dev: Dev, ino: nat)

  predicate Fits(mode: int, ino: nat) {
    0 < mode <= 32 && Shr(ino, 64 - mode) == 0
  }

  function Mapped(mode: int, ino: nat, fsid: nat): nat
    requires 0 < mode <= 32
  {
    Or(ino, Shl(fsid, 64 - mode + 1))
  }

  /** A number that is drawn for a directory at each mount. */
  function NonPersistent(mode: int, drawn: nat): nat
    requires mode <= 32
  {
    if mode > 0 then Or(Low(drawn, 64 - mode), Pow2(64 - mode)) else drawn
  }

  function StatOf(mode: int, isDir: bool, ino: nat, fsid: nat, inodeNumber: nat): Shown {
    if mode == 0 then Shown(Overlay, ino)
    else if Fits(mode, ino) then Shown(Overlay, Mapped(mode, ino, fsid))
    else if isDir then Shown(Overlay, inodeNumber)
    else Shown(Pseudo(fsid), ino)
  }

  function InodeNumber(mode: int, isDir: bool, ino: nat, fsid: nat, drawn: nat): nat
    requires mode <= 32
  {
    if mode == 0 then ino
    else if Fits(mode, ino) then Mapped(mode, ino, fsid)
    else if isDir then NonPersistent(mode, drawn)
    else ino
  }

  /** What stat fills in. */
  class KStat {
    var dev: Dev
    var ino: nat

    constructor (i: nat)
      ensures ino == i
    {
      dev, ino := Overlay, i;
    }

    /** ovl_map_dev_ino */
    method MapDevIno(mode: int, isDir: bool, fsid: nat, inodeNumber: nat)
      requires -1 <= mode <= 32
      modifies this
      ensures Shown(dev, ino) == StatOf(mode, isDir, old(ino), fsid, inodeNumber)
    {
      var xinobits := if mode >= 0 then mode else 0;
      if mode == 0 {
        dev := Overlay;
        return;
      } else if xinobits != 0 {
        var xinoshift := 64 - xinobits;
        if Shr(ino, xinoshift) == 0 {
          ino := Or(ino, Shl(fsid, xinoshift + 1));
          dev := Overlay;
          return;
        }
      }
      if isDir {
        dev, ino := Overlay, inodeNumber;
      } else {
        dev := Pseudo(fsid);
      }
    }
  }

  class Inode {
    var number: nat

    constructor ()
    {
      number := 0;
    }

    /** ovl_map_ino; the numbers drawn come from a counter of the mount that skips zero. */
    method MapIno(mode: int, isDir: bool, ino: nat, fsid: nat, lastIno: nat) returns (last: nat)
      requires -1 <= mode <= 32 && lastIno < Pow2(64)
      modifies this
      ensures number == InodeNumber(mode, isDir, ino, fsid, last)
      ensures isDir && mode != 0 && !Fits(mode, ino) ==> last == if lastIno + 1 < Pow2(64) then lastIno + 1 else 1
    {
      last := lastIno;
      number := ino;
      if mode == 0 {
        return;
      } else if mode > 0 && Shr(ino, 64 - mode) == 0 {
        number := Or(number, Shl(fsid, 64 - mode + 1));
        return;
      }
      if isDir {
        last := Low(last + 1, 64);
        if last == 0 {
          last := Low(last + 1, 64);
        }
        NextBelow(lastIno);
        number := last;
        if mode > 0 {
          number := Low(number, 64 - mode);
          number := Or(number, Pow2(64 - mode));
        }
      }
    }
  }

  lemma NextBelow(last: nat)
    requires last < Pow2(64)
    ensures Low(last + 1, 64) == if last + 1 < Pow2(64) then last + 1 else 0
    ensures Low(1, 64) == 1
  {
    Pow2Grows(1, 64);
    var p := Pow2(64);
    ModSmall(1, p);
    if last + 1 < p {
      ModSmall(last + 1, p);
    } else {
      ModSelf(p);
    }
  }

  // ------------------------------------------------------------- what the numbers mean

  lemma FitsMeansSmall(mode: int, ino: nat)
    requires Fits(mode, ino)
    ensures ino < Pow2(64 - mode)
  {
    var p := Pow2(64 - mode);
    assert ino == p * (ino / p) + ino % p;
  }

  /** The id is not shifted out, and does not touch the number or the bit between. */
  lemma MappedIs(mode: int, numfs: nat, ino: nat, fsid: nat)
    requires GoodMode(mode, numfs) && mode > 0 && fsid < numfs && Fits(mode, ino)
    ensures Mapped(mode, ino, fsid) == ino + (2 * fsid) * Pow2(64 - mode)
    ensures Mapped(mode, ino, fsid) < Pow2(64)
  {
    var s := 64 - mode;
    FitsMeansSmall(mode, ino);
    ShlFits(fsid, mode - 1, s + 1);
    Pow2Grows(s, s + 1);
    OrDisjoint(ino, fsid, s + 1);
    Twice(fsid, Pow2(s));
  }

  lemma FitsIff(mode: int, ino: nat)
    requires 0 < mode <= 32
    ensures Fits(mode, ino) <==> ino < Pow2(64 - mode)
  {
    if Fits(mode, ino) {
      FitsMeansSmall(mode, ino);
    } else if ino < Pow2(64 - mode) {
      DivSmall(ino, Pow2(64 - mode));
    }
  }

  /** What stat shows, said in numbers: the device of the overlay and the number itself on one file
      system; the device of the overlay and a number made of the number and the id if the number
      leaves the high bits free; else the number of the overlay's inode for a directory, and the
      device set aside for the file system, with its own number, for anything else. */
  lemma StatIs(mode: int, numfs: nat, isDir: bool, ino: nat, fsid: nat, inodeNumber: nat)
    requires GoodMode(mode, numfs) && fsid < numfs
    ensures StatOf(mode, isDir, ino, fsid, inodeNumber) ==
        if mode == 0 then Shown(Overlay, ino)
        else if mode > 0 && ino < Pow2(64 - mode) then Shown(Overlay, ino + (2 * fsid) * Pow2(64 - mode))
        else if isDir then Shown(Overlay, inodeNumber)
        else Shown(Pseudo(fsid), ino)
  {
    if mode > 0 {
      FitsIff(mode, ino);
      if ino < Pow2(64 - mode) {
        MappedIs(mode, numfs, ino, fsid);
      }
    }
  }

  /** The number of the overlay's inode is the one stat shows; that of a directory for which stat
      shows no other is drawn, from numbers that no real one is mapped to. */
  lemma InodeNumberIs(mode: int, numfs: nat, isDir: bool, ino: nat, fsid: nat, drawn: nat)
    requires GoodMode(mode, numfs) && fsid < numfs
    ensures var number := InodeNumber(mode, isDir, ino, fsid, drawn);
            && StatOf(mode, isDir, ino, fsid, number).ino == number
            && (mode == -1 ==> number == if isDir then drawn else ino)
            && (mode > 0 && isDir && ino >= Pow2(64 - mode) ==>
                  Pow2(64 - mode) <= number < 2 * Pow2(64 - mode))
  {
    if mode > 0 {
      FitsIff(mode, ino);
      NonPersistentIs(mode, drawn);
      LowIsSmall(drawn, 64 - mode);
    }
  }

  lemma Twice(f: nat, p: nat)
    ensures f * (2 * p) == (2 * f) * p
  {
  }

  lemma LowIsSmall(x: nat, n: nat)
    ensures Low(x, n) < Pow2(n)
  {
  }

  lemma NonPersistentIs(mode: int, drawn: nat)
    requires 0 < mode <= 32
    ensures NonPersistent(mode, drawn) == Low(drawn, 64 - mode) + 1 * Pow2(64 - mode)
  {
    LowIsSmall(drawn, 64 - mode);
    OrDisjoint(Low(drawn, 64 - mode), 1, 64 - mode);
  }

  /** An object of the overlay: the real inode that stat reports, the one the overlay inode is
      hashed by, and the number drawn for it. */
  datatype Object = Object(isDir: bool, ino: nat, fsid: nat, keyIno: nat, keyFsid: nat, drawn: nat)

  function Stat(mode: int, o: Object): Shown
    requires mode <= 32
  {
    StatOf(mode, o.isDir, o.ino, o.fsid, InodeNumber(mode, o.isDir, o.keyIno, o.keyFsid, o.drawn))
  }

  /** Two objects that share no real inode; numbers drawn for directories have not wrapped. */
  ghost predicate Apart(mode: int, a: Object, b: Object)
    requires mode <= 32
  {
    && (a.ino, a.fsid) != (b.ino, b.fsid) && (a.keyIno, a.keyFsid) != (b.keyIno, b.keyFsid)
    && (a.ino, a.fsid) != (b.keyIno, b.keyFsid) && (a.keyIno, a.keyFsid) != (b.ino, b.fsid)
    && (mode == 0 ==> a.fsid == b.fsid)
    && (a.isDir && b.isDir ==>
          if mode > 0 then Low(a.drawn, 64 - mode) != Low(b.drawn, 64 - mode) else a.drawn != b.drawn)
  }

  /** Where a number on the overlay's own device comes from. */
  datatype Source = Real(ino: nat, fsid: nat) | Drawn(low: nat)

  ghost predicate From(mode: int, numfs: nat, number: nat, s: Source)
    requires 0 < mode <= 32
  {
    match s
    case Real(ino, fsid) => fsid < numfs && Fits(mode, ino) && number == ino + (2 * fsid) * Pow2(64 - mode)
    case Drawn(low) => low < Pow2(64 - mode) && number == low + 1 * Pow2(64 - mode)
  }

  ghost function SourceOf(mode: int, o: Object): Source
    requires 0 < mode <= 32
  {
    if Fits(mode, o.ino) then Real(o.ino, o.fsid)
    else if Fits(mode, o.keyIno) then Real(o.keyIno, o.keyFsid)
    else Drawn(Low(o.drawn, 64 - mode))
  }

  lemma StatComesFrom(mode: int, numfs: nat, o: Object)
    requires GoodMode(mode, numfs) && mode > 0 && o.fsid < numfs && o.keyFsid < numfs
    requires Stat(mode, o).dev == Overlay
    ensures From(mode, numfs, Stat(mode, o).ino, SourceOf(mode, o))
  {
    if Fits(mode, o.ino) {
      MappedIs(mode, numfs, o.ino, o.fsid);
    } else if Fits(mode, o.keyIno) {
      MappedIs(mode, numfs, o.keyIno, o.keyFsid);
    } else {
      LowIsSmall(o.drawn, 64 - mode);
      NonPersistentIs(mode, o.drawn);
    }
  }

  /** A number has one source: real numbers do not collide with each other, nor with drawn
      ones. */
  lemma OneSource(mode: int, numfs: nat, number: nat, s: Source, t: Source)
    requires 0 < mode <= 32 && From(mode, numfs, number, s) && From(mode, numfs, number, t)
    ensures s == t
  {
    var p := Pow2(64 - mode);
    if s.Real? {
      FitsMeansSmall(mode, s.ino);
    }
    if t.Real? {
      FitsMeansSmall(mode, t.ino);
    }
    SplitUnique(
      if s.Real? then s.ino else s.low, if s.Real? then 2 * s.fsid else 1,
      if t.Real? then t.ino else t.low, if t.Real? then 2 * t.fsid else 1, p);
  }

  /** No two objects of a mount have the same device and number, in any mode. */
  lemma StatIsUnique(mode: int, numfs: nat, a: Object, b: Object)
    requires GoodMode(mode, numfs) && Apart(mode, a, b)
    requires a.fsid < numfs && a.keyFsid < numfs && b.fsid < numfs && b.keyFsid < numfs
    ensures Stat(mode, a) != Stat(mode, b)
  {
    if mode > 0 && Stat(mode, a) == Stat(mode, b) && Stat(mode, a).dev == Overlay {
      StatComesFrom(mode, numfs, a);
      StatComesFrom(mode, numfs, b);
      OneSource(mode, numfs, Stat(mode, a).ino, SourceOf(mode, a), SourceOf(mode, b));
      assert false;
    }
  }

  /** ovl_remap_lower_ino, for readdir. */
  function RemapLowerIno(ino: nat, mode: int, fsid: nat): nat
    requires 0 < mode <= 32
  {
    if Shr(ino, 64 - mode) != 0 then ino else Or(ino, Shl(fsid, 64 - mode + 1))
  }

  /** readdir and stat show the same number, except for a directory whose real number is too
      big and is not the one drawn for it. */
  lemma ReaddirAgreesWithStat(mode: int, isDir: bool, ino: nat, fsid: nat, inodeNumber: nat)
    requires 0 < mode <= 32
    ensures RemapLowerIno(ino, mode, fsid) == StatOf(mode, isDir, ino, fsid, inodeNumber).ino <==>
        Fits(mode, ino) || !isDir || inodeNumber == ino
  {
  }
}
