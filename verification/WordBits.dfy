/** The bitwise operators on 64-bit words, bit by bit, and bit strings laid
    out over arrays of words. */
module WordBits {
  import opened Bytes

  const TOP_BIT: int := 0x8000_0000_0000_0000

  /** Bit n of w, counted from the least significant one. */
  predicate Bit(w: nat, n: nat)
    decreases n
  {
    if n == 0 then w % 2 == 1 else Bit(w / 2, n - 1)
  }

  function Pow2(n: nat): (r: nat)
    ensures r > 0
  {
    if n == 0 then 1 else 2 * Pow2(n - 1)
  }

  /** w << n: bits shifted past position 63 are lost. */
  function Shl(w: u64, n: nat): u64 {
    if n == 0 then w
    else
      var v := Shl(w, n - 1);
      if v >= TOP_BIT then 2 * (v - TOP_BIT) else 2 * v
  }

  /** w >> n. */
  function Shr(w: u64, n: nat): u64 {
    if n == 0 then w else Shr(w, n - 1) / 2
  }

  function OrNat(a: nat, b: nat): nat {
    if a == 0 then b
    else if b == 0 then a
    else 2 * OrNat(a / 2, b / 2) + if a % 2 == 1 || b % 2 == 1 then 1 else 0
  }

  /** a | b. */
  function Or(a: u64, b: u64): u64 {
    Pow2Of64();
    OrBound(a, b, 64);
    OrNat(a, b)
  }

  /** a & b. */
  function And(a: nat, b: nat): nat {
    if a == 0 || b == 0 then 0
    else 2 * And(a / 2, b / 2) + if a % 2 == 1 && b % 2 == 1 then 1 else 0
  }

  lemma Pow2Sum(a: nat, b: nat)
    ensures Pow2(a + b) == Pow2(a) * Pow2(b)
  {
    if b != 0 {
      Pow2Sum(a, b - 1);
      assert Pow2(a + b) == 2 * Pow2(a + (b - 1));
    }
  }

  lemma Pow2Of64()
    ensures Pow2(63) == TOP_BIT
    ensures Pow2(64) == 2 * TOP_BIT
  {
    assert Pow2(8) == 0x100;
    Pow2Times256(8);
    Pow2Times256(16);
    Pow2Times256(24);
    Pow2Times256(32);
    Pow2Times256(40);
    Pow2Times256(48);
    Pow2Times256(56);
    assert Pow2(64) == 2 * Pow2(63);
  }

  lemma Pow2Times256(n: nat)
    ensures Pow2(n + 8) == 0x100 * Pow2(n)
  {
    assert Pow2(n + 1) == 2 * Pow2(n);
    assert Pow2(n + 2) == 2 * Pow2(n + 1);
    assert Pow2(n + 3) == 2 * Pow2(n + 2);
    assert Pow2(n + 4) == 2 * Pow2(n + 3);
    assert Pow2(n + 5) == 2 * Pow2(n + 4);
    assert Pow2(n + 6) == 2 * Pow2(n + 5);
    assert Pow2(n + 7) == 2 * Pow2(n + 6);
  }

  lemma OrBound(a: nat, b: nat, n: nat)
    requires a < Pow2(n) && b < Pow2(n)
    ensures OrNat(a, b) < Pow2(n)
  {
    if a != 0 && b != 0 {
      OrBound(a / 2, b / 2, n - 1);
    }
  }

  lemma BitsOfZero(n: nat)
    ensures !Bit(0, n)
  {
  }

  lemma BitsOfOne(n: nat)
    ensures Bit(1, n) == (n == 0)
  {
    if n > 0 {
      BitsOfZero(n - 1);
    }
  }

  lemma NoBitsAbove(w: nat, n: nat)
    requires w < Pow2(n)
    ensures !Bit(w, n)
  {
    if n != 0 {
      NoBitsAbove(w / 2, n - 1);
    }
  }

  /** Removing the leading power of two leaves the lower bits alone. */
  lemma LowerBits(w: nat, k: nat, n: nat)
    requires Pow2(k) <= w && n < k
    ensures Bit(w - Pow2(k), n) == Bit(w, n)
  {
    assert Pow2(k) == 2 * Pow2(k - 1);
    if n != 0 {
      LowerBits(w / 2, k - 1, n - 1);
    }
  }

  lemma BitOfDouble(w: nat, n: nat)
    ensures Bit(2 * w, n) == (n > 0 && Bit(w, n - 1))
  {
    assert 2 * w / 2 == w;
  }

  lemma {:induction false} BitOfShl(w: u64, s: nat, n: nat)
    requires n < 64
    ensures Bit(Shl(w, s), n) == (s <= n && Bit(w, n - s))
    decreases s
  {
    if s != 0 {
      var v := Shl(w, s - 1);
      if v >= TOP_BIT {
        BitOfDouble(v - TOP_BIT, n);
        if n > 0 {
          Pow2Of64();
          LowerBits(v, 63, n - 1);
        }
      } else {
        BitOfDouble(v, n);
      }
      if n > 0 {
        BitOfShl(w, s - 1, n - 1);
      }
    }
  }

  lemma BitOfHalf(w: nat, n: nat)
    ensures Bit(w / 2, n) == Bit(w, n + 1)
  {
  }

  lemma {:induction false} BitOfShr(w: u64, s: nat, n: nat)
    ensures Bit(Shr(w, s), n) == Bit(w, n + s)
    decreases s
  {
    if s != 0 {
      BitOfHalf(Shr(w, s - 1), n);
      BitOfShr(w, s - 1, n + 1);
    }
  }

  lemma BitOfOr(a: nat, b: nat, n: nat)
    ensures Bit(OrNat(a, b), n) == (Bit(a, n) || Bit(b, n))
    decreases n
  {
    if a == 0 || b == 0 {
      BitsOfZero(n);
    } else if n != 0 {
      BitOfOr(a / 2, b / 2, n - 1);
    }
  }

  lemma ShlOne(n: nat)
    requires n < 64
    ensures Shl(1, n) == Pow2(n)
  {
    if n != 0 {
      ShlOne(n - 1);
      Pow2Of64();
      Pow2Sum(n, 63 - n);
    }
  }

  /** Pow2(n) has exactly one bit. */
  lemma BitOfPow2(k: nat, n: nat)
    ensures Bit(Pow2(k), n) == (n == k)
  {
    if k == 0 {
      BitsOfOne(n);
    } else {
      BitOfDouble(Pow2(k - 1), n);
      if n != 0 {
        BitOfPow2(k - 1, n - 1);
      }
    }
  }

  /** Masking with 1 << n tests bit n. */
  lemma MaskTestsBit(w: nat, n: nat)
    requires n < 64
    ensures (And(w, Shl(1, n)) != 0) == Bit(w, n)
  {
    ShlOne(n);
    AndPow2(w, n);
  }

  lemma AndPow2(w: nat, n: nat)
    ensures (And(w, Pow2(n)) != 0) == Bit(w, n)
  {
    if w == 0 {
      BitsOfZero(n);
    } else if n != 0 {
      AndPow2(w / 2, n - 1);
    } else {
      assert And(w, 1) == 2 * And(w / 2, 0) + if w % 2 == 1 then 1 else 0;
    }
  }

  /** w | 1 << n sets bit n and nothing else. */
  lemma SetBit(w: u64, s: nat, n: nat)
    requires s < 64
    ensures Bit(Or(w, Shl(1, s)), n) == (Bit(w, n) || n == s)
  {
    ShlOne(s);
    BitOfPow2(s, n);
    BitOfOr(w, Shl(1, s), n);
  }

  /** Bit `off` of an array of words, lowest word first. */
  predicate BitAt(words: seq<u64>, off: nat)
    requires off < 64 * |words|
  {
    Bit(words[off / 64], off % 64)
  }

  /** The words with a mask for bit `at` or-ed in. */
  function WithBit(words: seq<u64>, at: nat): (r: seq<u64>)
    requires at < 64 * |words|
    ensures |r| == |words|
  {
    words[at / 64 := Or(words[at / 64], Shl(1, at % 64))]
  }

  /** Or-ing a mask into one word sets one bit of the whole string. */
  lemma WithBitBits(words: seq<u64>, at: nat)
    requires at < 64 * |words|
    ensures forall off :: 0 <= off < 64 * |words| ==>
      BitAt(WithBit(words, at), off) == (off == at || BitAt(words, off))
  {
    forall off | 0 <= off < 64 * |words|
      ensures BitAt(WithBit(words, at), off) == (off == at || BitAt(words, off))
    {
      SetBit(words[at / 64], at % 64, off % 64);
    }
  }

  /** Word i of the array shifted by s bits towards higher offsets. */
  function ShiftedWord(words: seq<u64>, s: nat, i: nat): u64
    requires i < |words|
  {
    var src := i - s / 64;
    var v := if src >= 0 then Shl(words[src], s % 64) else 0;
    if s % 64 > 0 && src - 1 >= 0
    then Or(v, Shr(words[src - 1], 64 - s % 64))
    else v
  }

  /** Shifting word by word shifts the whole string of bits. */
  lemma ShiftedWordBits(words: seq<u64>, s: nat, i: nat, n: nat)
    requires i < |words| && n < 64
    ensures Bit(ShiftedWord(words, s, i), n) == (s <= 64 * i + n && BitAt(words, 64 * i + n - s))
  {
    var src, b := i - s / 64, s % 64;
    var off := 64 * i + n - s;
    assert off == 64 * src + n - b;
    var v := if src >= 0 then Shl(words[src], b) else 0;
    if src >= 0 {
      BitOfShl(words[src], b, n);
    } else {
      BitsOfZero(n);
    }
    if b > 0 && src - 1 >= 0 {
      var low := words[src - 1];
      BitOfShr(low, 64 - b, n);
      BitOfOr(v, Shr(low, 64 - b), n);
      if b <= n {
        assert n + (64 - b) >= 64;
        HighBitsClear(low, n + (64 - b));
      }
    }
    if off >= 0 {
      if b <= n {
        assert off / 64 == src && off % 64 == n - b;
      } else {
        assert off / 64 == src - 1 && off % 64 == 64 + n - b;
      }
    }
  }

  lemma HighBitsClear(w: u64, n: nat)
    requires n >= 64
    ensures !Bit(w, n)
  {
    Pow2Of64();
    Pow2Sum(64, n - 64);
    NoBitsAbove(w, n);
  }
}
