/** Sliding replay windows over packet-ids.  `Window` is the plain meaning: the
    set of packet-ids accepted so far.  The multi-word bitmap of the data
    channel and the single-word bitmap of the control-channel wrappers are both
    proved to answer every call exactly as it does. */
module Replay {
  import opened Bytes
  import opened WordBits

  const DEFAULT_REPLAY_WINDOW := 1024

  /** The meaning of a replay window: which packet-ids were accepted. */
  datatype Window = Window(highest: u32, accepted: set<int>)

  const EMPTY := Window(0, {})

  /** `highest` is the greatest accepted packet-id (0 before the first). */
  ghost predicate Consistent(w: Window) {
    && (w.highest == 0 || w.highest in w.accepted)
    && forall p :: p in w.accepted ==> 1 <= p <= w.highest
  }

  /** A packet-id is fresh when it is non-zero and either beyond the greatest
      one accepted or inside the window and not accepted before. */
  predicate Fresh(w: Window, size: nat, pid: u32) {
    && pid != 0
    && (pid > w.highest || (w.highest - pid < size && pid !in w.accepted))
  }

  function Advance(w: Window, size: nat, pid: u32): (w': Window)
    ensures Consistent(w) ==> Consistent(w')
  {
    if Fresh(w, size, pid) then Window(Max(w.highest, pid), w.accepted + {pid}) else w
  }

  /** The answers given to a sequence of calls. */
  function Answers(w: Window, size: nat, pids: seq<u32>): (r: seq<bool>)
    ensures |r| == |pids|
    decreases |pids|
  {
    if pids == [] then []
    else [Fresh(w, size, pids[0])] + Answers(Advance(w, size, pids[0]), size, pids[1..])
  }

  /** What was once accepted is never accepted again. */
  lemma {:induction false} AcceptedStaysRefused(w: Window, size: nat, pids: seq<u32>, k: nat)
    requires Consistent(w)
    requires k < |pids| && pids[k] in w.accepted
    ensures !Answers(w, size, pids)[k]
    decreases k
  {
    if k > 0 {
      AcceptedStaysRefused(Advance(w, size, pids[0]), size, pids[1..], k - 1);
    }
  }

  /** No packet-id is accepted twice, in any sequence of calls to a window of
      any size. */
  lemma {:induction false} NeverAcceptedTwice(w: Window, size: nat, pids: seq<u32>, i: nat, j: nat)
    requires Consistent(w)
    requires i < j < |pids| && pids[i] == pids[j]
    ensures !(Answers(w, size, pids)[i] && Answers(w, size, pids)[j])
    decreases i
  {
    var w' := Advance(w, size, pids[0]);
    if i > 0 {
      NeverAcceptedTwice(w', size, pids[1..], i - 1, j - 1);
    } else if Answers(w, size, pids)[0] {
      assert pids[1..][j - 1] == pids[0];
      AcceptedStaysRefused(w', size, pids[1..], j - 1);
    }
  }

  lemma {:induction false} AcceptedFrom(w: Window, size: nat, pids: seq<u32>, k: nat)
    requires Consistent(w) && k < |pids|
    ensures Answers(w, size, pids)[k] <==>
      && pids[k] != 0
      && (forall a :: a in w.accepted ==> a != pids[k] && a - pids[k] < size)
      && (forall i :: 0 <= i < k && Answers(w, size, pids)[i] ==> pids[i] != pids[k] && pids[i] - pids[k] < size)
    decreases k
  {
    var w', rest := Advance(w, size, pids[0]), pids[1..];
    assert Answers(w, size, pids)[0] == Fresh(w, size, pids[0]);
    if k == 0 {
      assert w.highest != 0 ==> w.highest in w.accepted;
    } else {
      AcceptedFrom(w', size, rest, k - 1);
      assert forall i :: 0 <= i < |rest| ==> rest[i] == pids[i + 1];
      assert forall i :: 0 <= i < |rest| ==> Answers(w', size, rest)[i] == Answers(w, size, pids)[i + 1];
      OneMore(w, size, pids, k);
    }
  }

  /** Conditions on the calls after the first, with the first one added. */
  lemma OneMore(w: Window, size: nat, pids: seq<u32>, k: nat)
    requires 0 < k < |pids|
    ensures var w', rest := Advance(w, size, pids[0]), pids[1..];
      ((forall a :: a in w'.accepted ==> a != pids[k] && a - pids[k] < size)
       && (forall i :: 0 <= i < k - 1 && Answers(w', size, rest)[i] ==> rest[i] != pids[k] && rest[i] - pids[k] < size))
      <==>
      ((forall a :: a in w.accepted ==> a != pids[k] && a - pids[k] < size)
       && (forall i :: 0 <= i < k && Answers(w, size, pids)[i] ==> pids[i] != pids[k] && pids[i] - pids[k] < size))
  {
    var w', rest := Advance(w, size, pids[0]), pids[1..];
    assert forall i :: 1 <= i < |pids| ==> pids[i] == rest[i - 1];
    assert forall i :: 1 <= i < |pids| ==> Answers(w, size, pids)[i] == Answers(w', size, rest)[i - 1];
    assert forall i :: 0 <= i < |rest| ==> rest[i] == pids[i + 1];
    assert forall i :: 0 <= i < |rest| ==> Answers(w', size, rest)[i] == Answers(w, size, pids)[i + 1];
  }

  /** What a new window accepts, by the sequence of calls alone: a packet-id is
      accepted exactly if it is not zero, differs from every one accepted before and
      lies less than the window's size behind each of them. */
  lemma AcceptedExactly(size: nat, pids: seq<u32>, k: nat)
    requires k < |pids|
    ensures Answers(EMPTY, size, pids)[k] <==>
      && pids[k] != 0
      && forall i :: 0 <= i < k && Answers(EMPTY, size, pids)[i] ==> pids[i] != pids[k] && pids[i] - pids[k] < size
  {
    AcceptedFrom(EMPTY, size, pids, k);
  }

  /** The size the code compares against: `uint32(w.size)`. */
  function EffectiveSize(size: nat): nat {
    size % U32_LIMIT
  }

  /** Two sizes that no offset between packet-ids can tell apart answer every
      call sequence alike. */
  lemma {:induction false} SizesAnswerAlike(w: Window, size: nat, size': nat, pids: seq<u32>)
    requires size == size' || (size >= U32_LIMIT - 1 && size' >= U32_LIMIT - 1)
    ensures Answers(w, size, pids) == Answers(w, size', pids)
    decreases |pids|
  {
    if pids != [] {
      SizesAnswerAlike(Advance(w, size, pids[0]), size, size', pids[1..]);
    }
  }

  /** After the greatest packet-id, one just outside the truncated window but
      inside the real one is refused. */
  lemma TruncationRefuses(size: nat)
    requires size >= U32_LIMIT && EffectiveSize(size) < U32_LIMIT - 1
    ensures var off := if EffectiveSize(size) == 0 then 1 else EffectiveSize(size);
      var pids: seq<u32> := [U32_LIMIT - 1, U32_LIMIT - 1 - off];
      Answers(EMPTY, EffectiveSize(size), pids) == [true, false] && Answers(EMPTY, size, pids) == [true, true]
  {
    var off := if EffectiveSize(size) == 0 then 1 else EffectiveSize(size);
    var pids: seq<u32> := [U32_LIMIT - 1, U32_LIMIT - 1 - off];
    var w := Window(U32_LIMIT - 1, {U32_LIMIT - 1});
    assert pids[1..] == [pids[1]] && pids[1..][1..] == [];
    forall n | n == size || n == EffectiveSize(size)
      ensures Answers(EMPTY, n, pids) == [true, Fresh(w, n, pids[1])]
    {
      assert Advance(EMPTY, n, pids[0]) == w;
      assert Answers(w, n, pids[1..]) == [Fresh(w, n, pids[1])];
    }
  }

  /** Truncating the size to 32 bits changes the answer to some call sequence on
      a new window exactly when the size needs more than 32 bits and is not
      congruent to 2^32 - 1. */
  lemma TruncationIsExact(size: nat)
    ensures (forall pids: seq<u32> :: Answers(EMPTY, EffectiveSize(size), pids) == Answers(EMPTY, size, pids))
        <==> (size < U32_LIMIT || size % U32_LIMIT == U32_LIMIT - 1)
  {
    if size < U32_LIMIT || size % U32_LIMIT == U32_LIMIT - 1 {
      forall pids: seq<u32>
        ensures Answers(EMPTY, EffectiveSize(size), pids) == Answers(EMPTY, size, pids)
      {
        SizesAnswerAlike(EMPTY, EffectiveSize(size), size, pids);
      }
    } else {
      TruncationRefuses(size);
    }
  }

  /** The bitmap represents the window on every offset the code looks at. */
  ghost predicate Represents(words: seq<u64>, w: Window, size: nat)
    requires size <= 64 * |words|
  {
    forall off :: 0 <= off < size ==> (BitAt(words, off) <==> (w.highest - off) in w.accepted)
  }

  /** The first `size` bits moved towards higher offsets, zeros moving in. */
  ghost predicate MovedUp(before: seq<u64>, after: seq<u64>, shift: nat, size: nat)
    requires size <= 64 * |before| && size <= 64 * |after|
  {
    forall off :: 0 <= off < size ==> BitAt(after, off) == (shift <= off && BitAt(before, off - shift))
  }

  lemma ZeroMovedUp(before: seq<u64>, after: seq<u64>, shift: nat, size: nat)
    requires size <= 64 * |before| && |after| == |before| && size <= shift
    requires forall k :: 0 <= k < |after| ==> after[k] == 0
    ensures MovedUp(before, after, shift, size)
  {
    forall off | 0 <= off < size
      ensures !BitAt(after, off)
    {
      BitsOfZero(off % 64);
    }
  }

  lemma ShiftedMovedUp(before: seq<u64>, after: seq<u64>, shift: nat, size: nat)
    requires size <= 64 * |before| && |after| == |before|
    requires forall k :: 0 <= k < |after| ==> after[k] == ShiftedWord(before, shift, k)
    ensures MovedUp(before, after, shift, size)
  {
    forall off | 0 <= off < size
      ensures BitAt(after, off) == (shift <= off && BitAt(before, off - shift))
    {
      ShiftedWordBits(before, shift, off / 64, off % 64);
    }
  }

  /** A bitmap moved up by the distance to a new highest packet-id, with bit 0
      set, represents the window that has accepted it. */
  lemma SlideRepresents(before: seq<u64>, moved: seq<u64>, w: Window, full: nat, size: nat, pid: u32)
    requires size <= full <= 64 * |before| && full <= 64 * |moved| && 0 < |moved|
    requires Consistent(w) && Represents(before, w, size) && pid > w.highest
    requires MovedUp(before, moved, pid - w.highest, full)
    ensures Represents(WithBit(moved, 0), Advance(w, size, pid), size)
  {
    WithBitBits(moved, 0);
  }

  /** The bit of a packet-id inside the window says whether it was accepted, and
      setting it records an unseen one. */
  lemma MarkRepresents(words: seq<u64>, w: Window, size: nat, pid: u32)
    requires size <= 64 * |words|
    requires Consistent(w) && Represents(words, w, size)
    requires pid != 0 && pid <= w.highest && w.highest - pid < size
    ensures var off := w.highest - pid;
      && (And(words[off / 64], Shl(1, off % 64)) != 0 <==> pid in w.accepted)
      && (pid !in w.accepted ==> Represents(WithBit(words, off), Advance(w, size, pid), size))
  {
    var off := w.highest - pid;
    MaskTestsBit(words[off / 64], off % 64);
    assert BitAt(words, off) <==> (w.highest - off) in w.accepted;
    WithBitBits(words, off);
  }

  class ReplayWindow {
    var highest: u32
    const bitmap: array<u64>
    const size: nat
    ghost var accepted: set<int>

    ghost predicate Valid()
      reads this, bitmap
    {
      && size > 0
      && bitmap.Length == (size + 63) / 64
      && Consistent(Abs())
      && Represents(bitmap[..], Abs(), EffectiveSize(size))
    }

    ghost function Abs(): Window
      reads this
    {
      Window(highest, accepted)
    }

    constructor (requested: nat)
      ensures Valid() && fresh(bitmap)
      ensures Abs() == EMPTY
      ensures size == if requested == 0 then 1024 else requested
    {
      var n := if requested == 0 then DEFAULT_REPLAY_WINDOW else requested;
      size := n;
      bitmap := new u64[(n + 63) / 64](_ => 0);
      highest := 0;
      accepted := {};
      new;
      forall off | 0 <= off < EffectiveSize(size)
        ensures !BitAt(bitmap[..], off)
      {
        BitsOfZero(off % 64);
      }
    }

    /** Accept succeeds exactly on a fresh packet-id, and then records it. */
    method Accept(pid: u32) returns (ok: bool)
      requires Valid()
      modifies this, bitmap
      ensures Valid()
      ensures ok == Fresh(old(Abs()), EffectiveSize(size), pid)
      ensures Abs() == Advance(old(Abs()), EffectiveSize(size), pid)
    {
      if pid == 0 {
        return false;
      }
      if pid > highest {
        Slide(pid);
        return true;
      }
      if highest - pid >= size % U32_LIMIT {
        return false;
      }
      ok := MarkSeen(pid);
    }

    /** A packet-id above the highest: move the window up to it. */
    method Slide(pid: u32)
      requires Valid() && pid > highest
      modifies this, bitmap
      ensures Valid() && Abs() == Advance(old(Abs()), EffectiveSize(size), pid)
    {
      ghost var before, w := bitmap[..], Abs();
      var shift := pid - highest;
      ShiftLeft(shift);
      ghost var moved := bitmap[..];
      bitmap[0] := Or(bitmap[0], 1);
      assert bitmap[..] == WithBit(moved, 0);
      SlideRepresents(before, moved, w, size, EffectiveSize(size), pid);
      highest := pid;
      accepted := accepted + {pid};
    }

    /** A packet-id inside the window: test and set its bit. */
    method MarkSeen(pid: u32) returns (ok: bool)
      requires Valid() && pid != 0 && pid <= highest && highest - pid < EffectiveSize(size)
      modifies this, bitmap
      ensures Valid()
      ensures ok == (pid !in old(accepted))
      ensures Abs() == Advance(old(Abs()), EffectiveSize(size), pid)
    {
      ghost var before, w := bitmap[..], Abs();
      var offset := highest - pid;
      var mask := Shl(1, offset % 64);
      var idx := offset / 64;
      MarkRepresents(before, w, EffectiveSize(size), pid);
      if And(bitmap[idx], mask) != 0 {
        return false;
      }
      bitmap[idx] := Or(bitmap[idx], mask);
      assert bitmap[..] == WithBit(before, offset);
      accepted := accepted + {pid};
      return true;
    }

    /** Test predicts Accept and changes nothing. */
    method Test(pid: u32) returns (ok: bool)
      requires Valid()
      ensures ok == Fresh(Abs(), EffectiveSize(size), pid)
    {
      if pid == 0 {
        return false;
      }
      if pid > highest {
        return true;
      }
      if highest - pid >= size % U32_LIMIT {
        return false;
      }
      var offset := highest - pid;
      MarkRepresents(bitmap[..], Abs(), EffectiveSize(size), pid);
      return And(bitmap[offset / 64], Shl(1, offset % 64)) == 0;
    }

    /** Shifts the bitmap in place, word by word from the top.  Offsets below
        `shift` are cleared; a shift by the whole window clears everything. */
    method ShiftLeft(shift: nat)
      requires Valid() && 0 < shift
      modifies bitmap
      ensures MovedUp(old(bitmap[..]), bitmap[..], shift, size)
    {
      ghost var before := bitmap[..];
      var nWords := bitmap.Length;
      if shift >= size {
        for i := 0 to nWords
          invariant forall k :: 0 <= k < i ==> bitmap[k] == 0
        {
          bitmap[i] := 0;
        }
        ZeroMovedUp(before, bitmap[..], shift, size);
        return;
      }
      var wordShift, bitShift := shift / 64, shift % 64;
      var i := nWords - 1;
      while i >= 0
        invariant -1 <= i < nWords
        invariant forall k :: 0 <= k <= i ==> bitmap[k] == before[k]
        invariant forall k :: i < k < nWords ==> bitmap[k] == ShiftedWord(before, shift, k)
      {
        var src := i - wordShift;
        var v: u64 := 0;
        if src >= 0 {
          v := Shl(bitmap[src], bitShift);
        }
        if bitShift > 0 && src - 1 >= 0 {
          v := Or(v, Shr(bitmap[src - 1], 64 - bitShift));
        }
        bitmap[i] := v;
        i := i - 1;
      }
      ShiftedMovedUp(before, bitmap[..], shift, size);
    }
  }

  /** The one-word window kept, with the same code, by the tls-crypt and the
      tls-auth wrapper. */
  const WINDOW_SIZE := 64

  class PidWindow {
    var highest: u32
    var bitmap: u64
    ghost var accepted: set<int>

    ghost predicate Valid()
      reads this
    {
      && Consistent(Abs())
      && Represents([bitmap], Abs(), WINDOW_SIZE)
    }

    ghost function Abs(): Window
      reads this
    {
      Window(highest, accepted)
    }

    constructor ()
      ensures Valid() && Abs() == EMPTY
    {
      highest, bitmap, accepted := 0, 0, {};
      new;
      forall off | 0 <= off < WINDOW_SIZE
        ensures !BitAt([bitmap], off)
      {
        BitsOfZero(off);
      }
    }

    method Accept(pid: u32) returns (ok: bool)
      requires Valid()
      modifies this
      ensures Valid()
      ensures ok == Fresh(old(Abs()), WINDOW_SIZE, pid)
      ensures Abs() == Advance(old(Abs()), WINDOW_SIZE, pid)
    {
      if pid == 0 {
        return false;
      }
      ghost var before, w := [bitmap], Abs();
      if pid > highest {
        var shift := pid - highest;
        ghost var moved: u64 := if shift >= WINDOW_SIZE then 0 else Shl(bitmap, shift);
        if shift >= WINDOW_SIZE {
          bitmap := 1;
        } else {
          bitmap := Or(Shl(bitmap, shift), 1);
        }
        forall off | 0 <= off < WINDOW_SIZE
          ensures BitAt([moved], off) == (shift <= off && BitAt(before, off - shift))
        {
          BitsOfZero(off);
          BitOfShl(before[0], shift, off);
        }
        assert [bitmap] == WithBit([moved], 0);
        SlideRepresents(before, [moved], w, WINDOW_SIZE, WINDOW_SIZE, pid);
        highest := pid;
        accepted := accepted + {pid};
        return true;
      }
      if highest - pid >= WINDOW_SIZE {
        return false;
      }
      var offset := highest - pid;
      var mask := Shl(1, offset);
      MarkRepresents(before, w, WINDOW_SIZE, pid);
      if And(bitmap, mask) != 0 {
        return false;
      }
      bitmap := Or(bitmap, mask);
      assert [bitmap] == WithBit(before, offset);
      accepted := accepted + {pid};
      return true;
    }

    method Test(pid: u32) returns (ok: bool)
      requires Valid()
      ensures ok == Fresh(Abs(), WINDOW_SIZE, pid)
    {
      if pid == 0 {
        return false;
      }
      if pid > highest {
        return true;
      }
      if highest - pid >= WINDOW_SIZE {
        return false;
      }
      MarkRepresents([bitmap], Abs(), WINDOW_SIZE, pid);
      return And(bitmap, Shl(1, highest - pid)) == 0;
    }
  }

  lemma AnswersSnoc(w: Window, size: nat, pids: seq<u32>, pid: u32)
    ensures Answers(w, size, pids + [pid]) ==
            Answers(w, size, pids) + [Fresh(AdvanceAll(w, size, pids), size, pid)]
    ensures AdvanceAll(w, size, pids + [pid]) == Advance(AdvanceAll(w, size, pids), size, pid)
    decreases |pids|
  {
    if pids != [] {
      AnswersSnoc(Advance(w, size, pids[0]), size, pids[1..], pid);
      assert (pids + [pid])[1..] == pids[1..] + [pid];
    }
  }

  function AdvanceAll(w: Window, size: nat, pids: seq<u32>): Window
    decreases |pids|
  {
    if pids == [] then w else AdvanceAll(Advance(w, size, pids[0]), size, pids[1..])
  }

  /** Fed the same calls, a 64-packet bitmap window and a one-word window give
      the same answers, and Test announces each of them. */
  method RunSideBySide(pids: seq<u32>) returns (multi: seq<bool>, single: seq<bool>, announced: seq<bool>)
    ensures multi == single == announced == Answers(EMPTY, 64, pids)
  {
    var m := new ReplayWindow(64);
    var s := new PidWindow();
    multi, single, announced := [], [], [];
    assert pids[..0] == [];
    for i := 0 to |pids|
      invariant m.Valid() && s.Valid() && fresh(m) && fresh(m.bitmap) && fresh(s) && m.size == 64
      invariant m.Abs() == s.Abs() == AdvanceAll(EMPTY, 64, pids[..i])
      invariant multi == single == announced == Answers(EMPTY, 64, pids[..i])
    {
      assert pids[..i + 1] == pids[..i] + [pids[i]];
      AnswersSnoc(EMPTY, 64, pids[..i], pids[i]);
      var t := m.Test(pids[i]);
      var a := m.Accept(pids[i]);
      var b := s.Accept(pids[i]);
      multi, single, announced := multi + [a], single + [b], announced + [t];
    }
    assert pids[..|pids|] == pids;
  }
}
