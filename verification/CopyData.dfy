// Copying the contents of a file up, without filling its holes.

module CopyData {

  newtype byte = x: int | 0 <= x < 256

  type Bytes = seq<byte>

  const CHUNK: nat := 0x10_0000
  const EINTR := -4
  const ENXIO := -6

  /** What is read at a position: a file is zero where nothing was written. */
  function ByteAt(s: Bytes, k: nat): byte {
    if k < |s| then s[k] else 0
  }

  function Zeros(n: nat): Bytes {
    seq(n, _ => 0)
  }

  /** A file cut or extended to a size. */
  function Sized(s: Bytes, size: nat): (r: Bytes)
    ensures |r| == size && forall k :: 0 <= k < size ==> r[k] == ByteAt(s, k)
  {
    seq(size, k requires 0 <= k => ByteAt(s, k))
  }

  predicate AllZero(s: Bytes, from: nat, to: nat) {
    forall k :: from <= k < to && k < |s| ==> s[k] == 0
  }

  /** What a file system may answer to SEEK_DATA: the start of some data with only zeros on
      the way there, that there is no more data, or that it cannot tell. */
  predicate SeekLegal(s: Bytes, pos: nat, answer: int) {
    if answer >= 0 then pos <= answer < |s| && AllZero(s, pos, answer)
    else answer == ENXIO ==> AllZero(s, pos, |s|)
  }

  /** An open file that is being written. */
  class UpperFile {
    var data: Bytes

    constructor ()
      ensures data == []
    {
      data := [];
    }

    method WriteAt(pos: nat, bytes: Bytes)
      requires bytes != []
      modifies this
      ensures |data| == if pos + |bytes| > |old(data)| then pos + |bytes| else |old(data)|
      ensures forall k :: 0 <= k < |data| ==>
          data[k] == if pos <= k < pos + |bytes| then bytes[k - pos] else ByteAt(old(data), k)
    {
      var size := if pos + |bytes| > |data| then pos + |bytes| else |data|;
      var was := data;
      data := seq(size, k requires 0 <= k => if pos <= k < pos + |bytes| then bytes[k - pos] else ByteAt(was, k));
    }

    method SetSize(size: nat)
      modifies this
      ensures data == Sized(old(data), size)
    {
      data := Sized(data, size);
    }
  }

  /** Nothing in the copy is wrong: what is there is as in the original, and what was passed
      over is zero in the original. */
  predicate Faithful(copy: Bytes, lower: Bytes, pos: nat) {
    && |copy| <= |lower|
    && (forall k :: 0 <= k < |copy| ==> copy[k] == lower[k])
    && AllZero(lower, |copy|, pos)
  }

  /** Writing the next bytes where they belong. */
  lemma StaysFaithful(before: Bytes, after: Bytes, lower: Bytes, pos: nat, n: nat)
    requires Faithful(before, lower, pos) && pos + n <= |lower|
    requires |after| == if pos + n > |before| then pos + n else |before|
    requires forall k :: 0 <= k < |after| ==>
        after[k] == if pos <= k < pos + n then lower[pos..pos + n][k - pos] else ByteAt(before, k)
    ensures Faithful(after, lower, pos + n) && |after| <= |lower|
  {
  }

  lemma PassedNothing(lower: Bytes)
    ensures Faithful([], lower, 0)
  {
  }

  lemma PassesOver(copy: Bytes, lower: Bytes, pos: nat, to: nat)
    requires Faithful(copy, lower, pos) && (pos <= to ==> AllZero(lower, pos, to))
    ensures Faithful(copy, lower, to)
  {
  }

  /** How the outside answers: at each turn of the loop a signal, SEEK_DATA and the splice;
      how much a clone that failed had done; and the sync at the end. */
  datatype Outside = Outside(
    canSeek: bool, cloned: int, part: nat, sync: int,
    signal: nat -> bool, seek: (nat, nat) -> int, splice: (nat, nat, nat) -> int)

  ghost predicate Legal(o: Outside, lower: Bytes) {
    && o.part <= |lower| && o.sync <= 0
    && (forall turn: nat, pos: nat :: pos < |lower| ==> SeekLegal(lower, pos, o.seek(turn, pos)))
    && (forall turn: nat, pos: nat, want: nat :: o.splice(turn, pos, want) <= want)
  }

  /** No splice says it is at the end when it is not. */
  ghost predicate NeverShortOfEnd(o: Outside, lower: Bytes) {
    forall turn: nat, pos: nat, want: nat :: pos < |lower| && want > 0 ==> o.splice(turn, pos, want) != 0
  }

  /** Nothing gets in the way. */
  ghost predicate AllWell(o: Outside, lower: Bytes) {
    && o.sync == 0 && (forall turn: nat :: !o.signal(turn))
    && (forall turn: nat, pos: nat, want: nat :: pos < |lower| && want > 0 ==> o.splice(turn, pos, want) > 0)
  }

  /** The first thing learnt of the file is that it is one hole. */
  predicate OnlyHole(o: Outside, len: nat) {
    len > 0 && o.cloned != len && o.canSeek && !o.signal(1) && o.seek(1, 0) == ENXIO
  }

  /** ovl_copy_up_data, for a file of len bytes, or for none of it.  end is where it stopped, after
      this many turns of the loop. */
  method CopyUpData(lower: Bytes, upper: UpperFile, len: nat, o: Outside)
    returns (error: int, ghost end: nat, ghost turns: nat)
    requires Legal(o, lower) && upper.data == [] && (len == |lower| || len == 0)
    modifies upper
    ensures error <= 0 && Faithful(upper.data, lower, end) && end <= len && |upper.data| <= len
    ensures AllWell(o, lower) ==> error == 0
    ensures error == 0 && len > 0 ==> o.sync == 0
    ensures OnlyHole(o, len) ==> error == o.sync && end == len && |upper.data| == o.part
    ensures error < 0 ==>
        || error == o.sync || (error == EINTR && turns > 0 && o.signal(turns))
        || exists want: nat :: want > 0 && o.splice(turns, end, want) == error
    ensures error == 0 ==> forall turn :: 1 <= turn <= turns ==> !o.signal(turn)
    ensures len > 0 && o.cloned != len ==> turns > 0 && (o.signal(turns) ==> error == EINTR)
    ensures end <= turns * CHUNK || o.canSeek || o.cloned == len
    ensures error == 0 && NeverShortOfEnd(o, lower) ==> end == len
    ensures error == 0 && o.cloned != len && end < len ==>
        exists turn: nat, want: nat :: want > 0 && o.splice(turn, end, want) == 0
  {
    hide Faithful, AllZero;
    PassedNothing(lower);
    error, end, turns := 0, 0, 0;
    if len == 0 {
      return;
    }
    if o.cloned == len {
      upper.WriteAt(0, lower);
      StaysFaithful([], upper.data, lower, 0, len);
      return o.sync, len, 0;
    }
    if o.part > 0 {
      upper.WriteAt(0, lower[..o.part]);
      StaysFaithful([], upper.data, lower, 0, o.part);
      PassesOver(upper.data, lower, o.part, 0);
    }
    var oldPos, newPos, dataPos, left, skipHole, turn := 0, 0, -1, len, o.canSeek, 0;
    while left != 0
      invariant left >= 0 && left + oldPos == len && newPos == oldPos == end && error == 0
      invariant Faithful(upper.data, lower, oldPos) && |upper.data| <= len
      invariant turns == turn && (turn == 0 ==> left == len) && forall t :: 1 <= t <= turn ==> !o.signal(t)
      invariant end <= turns * CHUNK || o.canSeek
      invariant skipHole ==> o.canSeek
      invariant OnlyHole(o, len) ==> turn == 0 && skipHole && oldPos == 0 && dataPos == -1 && |upper.data| == o.part
      decreases left
    {
      var thisLen := if left < CHUNK then left else CHUNK;
      turn := turn + 1;
      turns := turn;
      if o.signal(turn) {
        error := EINTR;
        break;
      }
      if skipHole && dataPos < oldPos {
        dataPos := o.seek(turn, oldPos);
        if dataPos > oldPos {
          PassesOver(upper.data, lower, oldPos, dataPos);
          left := left - (dataPos - oldPos);
          oldPos, newPos, end := dataPos, dataPos, dataPos;
          continue;
        } else if dataPos == ENXIO {
          PassesOver(upper.data, lower, oldPos, len);
          end := len;
          break;
        } else if dataPos < 0 {
          skipHole := false;
        }
      }
      var bytes := o.splice(turn, oldPos, thisLen);
      if bytes <= 0 {
        error := bytes;
        break;
      }
      ghost var before := upper.data;
      upper.WriteAt(newPos, lower[oldPos..oldPos + bytes]);
      StaysFaithful(before, upper.data, lower, oldPos, bytes);
      oldPos, newPos, end := oldPos + bytes, newPos + bytes, end + bytes;
      if oldPos != newPos {
        assert false;
      }
      left := left - bytes;
    }
    if error == 0 {
      error := o.sync;
    }
  }

  /** Copying and then setting the size, as a copy-up does. */
  method CopyUpFile(lower: Bytes, len: nat, o: Outside) returns (error: int, upper: UpperFile)
    requires Legal(o, lower) && (len == |lower| || len == 0)
    ensures fresh(upper) && error <= 0
    ensures AllWell(o, lower) ==> error == 0 && upper.data == lower[..len]
    ensures error == 0 ==> |upper.data| == len && (len > 0 ==> o.sync == 0)
    ensures error == 0 && NeverShortOfEnd(o, lower) ==> upper.data == lower[..len]
    ensures error == 0 ==> exists end: nat :: end <= len && upper.data == lower[..end] + Zeros(len - end)
  {
    upper := new UpperFile();
    ghost var end, turns;
    error, end, turns := CopyUpData(lower, upper, len, o);
    ghost var copy := upper.data;
    if error == 0 {
      upper.SetSize(len);
      ghost var most := if |copy| > end then |copy| else end;
      assert most <= len && upper.data == lower[..most] + Zeros(len - most);
    }
  }
}
