/** Fixed-width integers, big-endian byte strings and the Option/Result types
    shared by every other module. */
module Bytes {

  type byte = x: int | 0 <= x < 0x100
  type u16 = x: int | 0 <= x < 0x1_0000
  type u32 = x: int | 0 <= x < 0x1_0000_0000
  type u64 = x: int | 0 <= x < 0x1_0000_0000_0000_0000

  const U32_LIMIT: int := 0x1_0000_0000

  datatype Option<+T> = None | Some(value: T)

  datatype Result<+T, +E> = Ok(value: T) | Err(error: E)

  function Min(a: int, b: int): int {
    if a <= b then a else b
  }

  function Max(a: int, b: int): int {
    if a <= b then b else a
  }

  /** uint32 increment, with Go's wrap-around. */
  function Inc32(x: u32): u32 {
    (x + 1) % U32_LIMIT
  }

  function PutU16(x: u16): (r: seq<byte>)
    ensures |r| == 2
  {
    [x / 0x100, x % 0x100]
  }

  function GetU16(b: seq<byte>): u16
    requires |b| == 2
  {
    0x100 * (b[0] as int) + b[1]
  }

  function PutU32(x: u32): (r: seq<byte>)
    ensures |r| == 4
  {
    PutU16(x / 0x1_0000) + PutU16(x % 0x1_0000)
  }

  function GetU32(b: seq<byte>): u32
    requires |b| == 4
  {
    0x1_0000 * (GetU16(b[..2]) as int) + GetU16(b[2..])
  }

  function PutU64(x: u64): (r: seq<byte>)
    ensures |r| == 8
  {
    PutU32(x / U32_LIMIT) + PutU32(x % U32_LIMIT)
  }

  function GetU64(b: seq<byte>): u64
    requires |b| == 8
  {
    U32_LIMIT * (GetU32(b[..4]) as int) + GetU32(b[4..])
  }

  lemma U16RoundTrip(x: u16)
    ensures GetU16(PutU16(x)) == x
  {
  }

  lemma U16RoundTripBack(b: seq<byte>)
    requires |b| == 2
    ensures PutU16(GetU16(b)) == b
  {
  }

  lemma U32RoundTrip(x: u32)
    ensures GetU32(PutU32(x)) == x
  {
    SplitAt(PutU16(x / 0x1_0000), PutU16(x % 0x1_0000));
    U16RoundTrip(x / 0x1_0000);
    U16RoundTrip(x % 0x1_0000);
  }

  lemma U32RoundTripBack(b: seq<byte>)
    requires |b| == 4
    ensures PutU32(GetU32(b)) == b
  {
    var hi: u16, lo: u16 := GetU16(b[..2]), GetU16(b[2..]);
    assert GetU32(b) / 0x1_0000 == hi && GetU32(b) % 0x1_0000 == lo;
    U16RoundTripBack(b[..2]);
    U16RoundTripBack(b[2..]);
    assert b == b[..2] + b[2..];
  }

  lemma U64RoundTrip(x: u64)
    ensures GetU64(PutU64(x)) == x
  {
    SplitAt(PutU32(x / U32_LIMIT), PutU32(x % U32_LIMIT));
    U32RoundTrip(x / U32_LIMIT);
    U32RoundTrip(x % U32_LIMIT);
  }

  lemma HighAndLow(hi: u32, lo: u32)
    ensures (U32_LIMIT * (hi as int) + lo) / U32_LIMIT == hi
    ensures (U32_LIMIT * (hi as int) + lo) % U32_LIMIT == lo
  {
  }

  lemma U64RoundTripBack(b: seq<byte>)
    requires |b| == 8
    ensures PutU64(GetU64(b)) == b
  {
    var hi: u32, lo: u32 := GetU32(b[..4]), GetU32(b[4..]);
    HighAndLow(hi, lo);
    U32RoundTripBack(b[..4]);
    U32RoundTripBack(b[4..]);
    assert b == b[..4] + b[4..];
  }

  lemma Associate<T>(a: seq<T>, b: seq<T>, c: seq<T>)
    ensures a + (b + c) == (a + b) + c
  {
  }

  // --- byte order -----------------------------------------------------------

  /** Numbers as they stand in a packet, most significant byte first. */
  function Two(d: seq<byte>, at: nat): nat
    requires at + 2 <= |d|
  {
    0x100 * (d[at] as int) + d[at + 1]
  }

  function Four(d: seq<byte>, at: nat): nat
    requires at + 4 <= |d|
  {
    0x100_0000 * (d[at] as int) + 0x1_0000 * (d[at + 1] as int) + 0x100 * (d[at + 2] as int) + d[at + 3]
  }

  function Eight(d: seq<byte>, at: nat): nat
    requires at + 8 <= |d|
  {
    0x1_0000_0000 * Four(d, at) + Four(d, at + 4)
  }

  lemma BigEndian16(x: u16, b: seq<byte>)
    requires |b| == 2
    ensures Two(PutU16(x), 0) == x && GetU16(b) == Two(b, 0)
  {
  }

  lemma BigEndian32(x: u32, b: seq<byte>)
    requires |b| == 4
    ensures Four(PutU32(x), 0) == x && GetU32(b) == Four(b, 0)
  {
    BigEndian16(x / 0x1_0000, b[..2]);
    BigEndian16(x % 0x1_0000, b[2..]);
    assert PutU32(x) == PutU16(x / 0x1_0000) + PutU16(x % 0x1_0000);
  }

  lemma BigEndian64(x: u64, b: seq<byte>)
    requires |b| == 8
    ensures Eight(PutU64(x), 0) == x && GetU64(b) == Eight(b, 0)
  {
    BigEndian32(x / U32_LIMIT, b[..4]);
    BigEndian32(x % U32_LIMIT, b[4..]);
    SamePlace(PutU64(x), 0, PutU32(x / U32_LIMIT), 0);
    SamePlace(PutU64(x), 4, PutU32(x % U32_LIMIT), 0);
    SamePlace(b, 0, b[..4], 0);
    SamePlace(b, 4, b[4..], 0);
  }

  /** A number in a part of a packet stands there in the whole packet. */
  lemma SamePlace(d: seq<byte>, at: nat, part: seq<byte>, i: nat)
    requires at + |part| <= |d| && d[at..at + |part|] == part && i + 4 <= |part|
    ensures Four(d, at + i) == Four(part, i)
  {
    var slice := d[at..at + |part|];
    assert slice[i] == part[i] && slice[i + 1] == part[i + 1];
    assert slice[i + 2] == part[i + 2] && slice[i + 3] == part[i + 3];
  }

  lemma U16At(d: seq<byte>, at: nat, x: u16)
    requires at + 2 <= |d| && d[at..at + 2] == PutU16(x)
    ensures Two(d, at) == x
  {
    var slice := d[at..at + 2];
    assert d[at] == slice[0] && d[at + 1] == slice[1];
    BigEndian16(x, [0, 0]);
  }

  lemma U32At(d: seq<byte>, at: nat, x: u32)
    requires at + 4 <= |d| && d[at..at + 4] == PutU32(x)
    ensures Four(d, at) == x
  {
    BigEndian32(x, [0, 0, 0, 0]);
    SamePlace(d, at, PutU32(x), 0);
  }

  lemma U64At(d: seq<byte>, at: nat, x: u64)
    requires at + 8 <= |d| && d[at..at + 8] == PutU64(x)
    ensures Eight(d, at) == x
  {
    BigEndian64(x, [0, 0, 0, 0, 0, 0, 0, 0]);
    SamePlace(d, at, PutU64(x), 0);
    SamePlace(d, at, PutU64(x), 4);
  }

  /** Writing a string of bytes one after the other loses nothing. */
  lemma SplitAt<T>(a: seq<T>, b: seq<T>)
    ensures (a + b)[..|a|] == a
    ensures (a + b)[|a|..] == b
  {
  }

  /** A finite set of integers drawn from an interval is no larger than the
      interval. */
  lemma IntervalCardinality(s: set<int>, lo: int, hi: int)
    requires lo <= hi
    requires forall x :: x in s ==> lo <= x < hi
    ensures |s| <= hi - lo
    decreases hi - lo
  {
    if lo == hi {
      assert s == {};
    } else {
      var t := s - {hi - 1};
      IntervalCardinality(t, lo, hi - 1);
      assert s <= t + {hi - 1};
      if hi - 1 in s {
        assert s == t + {hi - 1};
      } else {
        assert s == t;
      }
    }
  }

  lemma SubsetSize<T>(a: set<T>, b: set<T>)
    requires a <= b
    ensures |a| <= |b|
  {
    assert b == a + (b - a);
  }
}
