/** A byte's number as its eight bits. */
module ByteBits {
  predicate Bit(n: nat, k: nat)
    requires k > 0
  {
    n / k % 2 == 1
  }

  function Bits(n: nat): bv8 {
    (if Bit(n, 128) then 0x80 else 0) | (if Bit(n, 64) then 0x40 else 0)
    | (if Bit(n, 32) then 0x20 else 0) | (if Bit(n, 16) then 0x10 else 0)
    | (if Bit(n, 8) then 0x08 else 0) | (if Bit(n, 4) then 0x04 else 0)
    | (if Bit(n, 2) then 0x02 else 0) | (if Bit(n, 1) then 0x01 else 0)
  }

  predicate SameBits(a: nat, b: nat) {
    && (Bit(a, 128) <==> Bit(b, 128)) && (Bit(a, 64) <==> Bit(b, 64)) && (Bit(a, 32) <==> Bit(b, 32))
    && (Bit(a, 16) <==> Bit(b, 16))
    && (Bit(a, 8) <==> Bit(b, 8)) && (Bit(a, 4) <==> Bit(b, 4)) && (Bit(a, 2) <==> Bit(b, 2))
    && (Bit(a, 1) <==> Bit(b, 1))
  }

  lemma BitsSame(a: nat, b: nat)
    requires Bits(a) == Bits(b)
    ensures SameBits(a, b)
  {
    hide Bit;
  }

  /** Halves that agree, and the bit below them, make numbers that agree. */
  lemma Halves(a: nat, b: nat, a2: nat, b2: nat)
    requires a2 == a / 2 && b2 == b / 2 && a2 == b2 && (a % 2 == 1 <==> b % 2 == 1)
    ensures a == b
  {}

  lemma HighBits(a: nat, b: nat)
    requires a < 0x100 && b < 0x100 && SameBits(a, b)
    ensures a / 16 == b / 16
  {
    assert a / 128 == b / 128;
    assert a / 64 == b / 64 by { Halves(a / 64, b / 64, a / 128, b / 128); }
    assert a / 32 == b / 32 by { Halves(a / 32, b / 32, a / 64, b / 64); }
    Halves(a / 16, b / 16, a / 32, b / 32);
  }

  lemma BitsDetermine(a: nat, b: nat)
    requires a < 0x100 && b < 0x100 && SameBits(a, b)
    ensures a == b
  {
    HighBits(a, b);
    assert a / 8 == b / 8 by { Halves(a / 8, b / 8, a / 16, b / 16); }
    assert a / 4 == b / 4 by { Halves(a / 4, b / 4, a / 8, b / 8); }
    assert a / 2 == b / 2 by { Halves(a / 2, b / 2, a / 4, b / 4); }
    Halves(a, b, a / 2, b / 2);
  }

  /** Different bytes have different bits. */
  lemma Injective(a: nat, b: nat)
    requires a < 0x100 && b < 0x100
    ensures Bits(a) == Bits(b) <==> a == b
  {
    hide Bits, Bit;
    if Bits(a) == Bits(b) {
      BitsSame(a, b);
      BitsDetermine(a, b);
    }
  }
}

/** Comparing two buffers a long at a time, as migration/xbzrle.c does. */
module LongWords {
  import opened ByteBits

  type Byte = b: int | 0 <= b < 0x100
  type Bytes = seq<Byte>

  const WORD: nat := 8            // sizeof(long)
  const MASK: bv64 := 0x0101_0101_0101_0101

  /** Eight bytes as one long, little end first. */
  function Long(b0: bv8, b1: bv8, b2: bv8, b3: bv8, b4: bv8, b5: bv8, b6: bv8, b7: bv8): bv64 {
    (b0 as bv64) | ((b1 as bv64) << 8) | ((b2 as bv64) << 16) | ((b3 as bv64) << 24)
    | ((b4 as bv64) << 32) | ((b5 as bv64) << 40) | ((b6 as bv64) << 48) | ((b7 as bv64) << 56)
  }

  /** The expression xbzrle_encode_buffer tests for a zero byte in a long. */
  predicate ZeroByteTest(x: bv64) { ((x - MASK) & !x & (MASK << 7)) != 0 }

  /** The test is exact: it fires when, and only when, some byte of the long is zero. */
  lemma ZeroByteTestExact(x: bv64)
    ensures ZeroByteTest(x) <==> SomeZero(x)
  {}

  predicate SomeZero(x: bv64) {
    || x & 0xff == 0 || (x >> 8) & 0xff == 0 || (x >> 16) & 0xff == 0 || (x >> 24) & 0xff == 0
    || (x >> 32) & 0xff == 0 || (x >> 40) & 0xff == 0 || (x >> 48) & 0xff == 0 || (x >> 56) & 0xff == 0
  }

  /** Which bytes of x are zero. */
  predicate ZeroBytes(x: bv64, e0: bool, e1: bool, e2: bool, e3: bool, e4: bool, e5: bool, e6: bool, e7: bool) {
    && (x & 0xff == 0 <==> e0) && ((x >> 8) & 0xff == 0 <==> e1) && ((x >> 16) & 0xff == 0 <==> e2)
    && ((x >> 24) & 0xff == 0 <==> e3)
    && ((x >> 32) & 0xff == 0 <==> e4) && ((x >> 40) & 0xff == 0 <==> e5) && ((x >> 48) & 0xff == 0 <==> e6)
    && ((x >> 56) & 0xff == 0 <==> e7)
  }

  lemma XorBytes(a0: bv8, a1: bv8, a2: bv8, a3: bv8, a4: bv8, a5: bv8, a6: bv8, a7: bv8,
                 b0: bv8, b1: bv8, b2: bv8, b3: bv8, b4: bv8, b5: bv8, b6: bv8, b7: bv8)
    ensures ZeroBytes(Long(a0, a1, a2, a3, a4, a5, a6, a7) ^ Long(b0, b1, b2, b3, b4, b5, b6, b7), a0 == b0, a1 == b1,
      a2 == b2, a3 == b3, a4 == b4, a5 == b5, a6 == b6, a7 == b7)
  {}

  lemma TestBytes(x: bv64, e0: bool, e1: bool, e2: bool, e3: bool, e4: bool, e5: bool, e6: bool, e7: bool)
    requires ZeroBytes(x, e0, e1, e2, e3, e4, e5, e6, e7)
    ensures ZeroByteTest(x) <==> e0 || e1 || e2 || e3 || e4 || e5 || e6 || e7
  {
    ZeroByteTestExact(x);
  }

  lemma LongInjective(a0: bv8, a1: bv8, a2: bv8, a3: bv8, a4: bv8, a5: bv8, a6: bv8, a7: bv8,
                      b0: bv8, b1: bv8, b2: bv8, b3: bv8, b4: bv8, b5: bv8, b6: bv8, b7: bv8)
    ensures Long(a0, a1, a2, a3, a4, a5, a6, a7) == Long(b0, b1, b2, b3, b4, b5, b6, b7) <==>
      a0 == b0 && a1 == b1 && a2 == b2 && a3 == b3 && a4 == b4 && a5 == b5 && a6 == b6 && a7 == b7
  {}

  function Word(s: Bytes, i: nat): bv64
    requires i + WORD <= |s|
  {
    Long(Bits(s[i]), Bits(s[i + 1]), Bits(s[i + 2]), Bits(s[i + 3]), Bits(s[i + 4]), Bits(s[i + 5]), Bits(s[i + 6]),
        Bits(s[i + 7]))
  }

  /** The xor of two longs has a zero byte where their bytes are equal, which the test finds. */
  method TestLongs(a0: bv8, a1: bv8, a2: bv8, a3: bv8, a4: bv8, a5: bv8, a6: bv8, a7: bv8,
                   b0: bv8, b1: bv8, b2: bv8, b3: bv8, b4: bv8, b5: bv8, b6: bv8, b7: bv8) returns (found: bool)
    ensures found <==> a0 == b0 || a1 == b1 || a2 == b2 || a3 == b3 || a4 == b4 || a5 == b5 || a6 == b6 || a7 == b7
  {
    var x := Long(a0, a1, a2, a3, a4, a5, a6, a7) ^ Long(b0, b1, b2, b3, b4, b5, b6, b7);
    XorBytes(a0, a1, a2, a3, a4, a5, a6, a7, b0, b1, b2, b3, b4, b5, b6, b7);
    TestBytes(x, a0 == b0, a1 == b1, a2 == b2, a3 == b3, a4 == b4, a5 == b5, a6 == b6, a7 == b7);
    found := ZeroByteTest(x);
  }

  method TestWords(s: Bytes, t: Bytes, i: nat) returns (found: bool)
    requires i + WORD <= |s| && i + WORD <= |t|
    ensures found <==>
      || Bits(s[i]) == Bits(t[i]) || Bits(s[i + 1]) == Bits(t[i + 1])
      || Bits(s[i + 2]) == Bits(t[i + 2]) || Bits(s[i + 3]) == Bits(t[i + 3])
      || Bits(s[i + 4]) == Bits(t[i + 4]) || Bits(s[i + 5]) == Bits(t[i + 5])
      || Bits(s[i + 6]) == Bits(t[i + 6]) || Bits(s[i + 7]) == Bits(t[i + 7])
  {
    hide Bits;
    found := TestLongs(Bits(s[i]), Bits(s[i + 1]), Bits(s[i + 2]), Bits(s[i + 3]),
                       Bits(s[i + 4]), Bits(s[i + 5]), Bits(s[i + 6]), Bits(s[i + 7]),
                       Bits(t[i]), Bits(t[i + 1]), Bits(t[i + 2]), Bits(t[i + 3]),
                       Bits(t[i + 4]), Bits(t[i + 5]), Bits(t[i + 6]), Bits(t[i + 7]));
  }

  predicate SomeSame(s: Bytes, t: Bytes, i: nat)
    requires i + WORD <= |s| && i + WORD <= |t|
  {
    || s[i] == t[i] || s[i + 1] == t[i + 1] || s[i + 2] == t[i + 2] || s[i + 3] == t[i + 3]
    || s[i + 4] == t[i + 4] || s[i + 5] == t[i + 5] || s[i + 6] == t[i + 6] || s[i + 7] == t[i + 7]
  }

  /** The word test, on two buffers. */
  method TestLong(s: Bytes, t: Bytes, i: nat) returns (found: bool)
    requires i + WORD <= |s| && i + WORD <= |t|
    ensures found <==> SomeSame(s, t, i)
  {
    hide Bits;
    found := TestWords(s, t, i);
    Injective(s[i], t[i]);
    Injective(s[i + 1], t[i + 1]);
    Injective(s[i + 2], t[i + 2]);
    Injective(s[i + 3], t[i + 3]);
    Injective(s[i + 4], t[i + 4]);
    Injective(s[i + 5], t[i + 5]);
    Injective(s[i + 6], t[i + 6]);
    Injective(s[i + 7], t[i + 7]);
  }

  /** The word test finds an equal byte exactly when there is one. */
  method HasEqualByte(s: Bytes, t: Bytes, i: nat) returns (found: bool)
    requires i + WORD <= |s| && i + WORD <= |t|
    ensures found <==> exists k :: i <= k < i + WORD && s[k] == t[k]
  {
    found := TestLong(s, t, i);
  }

  method CompareLongs(s: Bytes, t: Bytes, i: nat) returns (same: bool)
    requires i + WORD <= |s| && i + WORD <= |t|
    ensures same <==>
      && Bits(s[i]) == Bits(t[i]) && Bits(s[i + 1]) == Bits(t[i + 1])
      && Bits(s[i + 2]) == Bits(t[i + 2]) && Bits(s[i + 3]) == Bits(t[i + 3])
      && Bits(s[i + 4]) == Bits(t[i + 4]) && Bits(s[i + 5]) == Bits(t[i + 5])
      && Bits(s[i + 6]) == Bits(t[i + 6]) && Bits(s[i + 7]) == Bits(t[i + 7])
  {
    hide Bits;
    LongInjective(Bits(s[i]), Bits(s[i + 1]), Bits(s[i + 2]), Bits(s[i + 3]),
                  Bits(s[i + 4]), Bits(s[i + 5]), Bits(s[i + 6]), Bits(s[i + 7]),
                  Bits(t[i]), Bits(t[i + 1]), Bits(t[i + 2]), Bits(t[i + 3]),
                  Bits(t[i + 4]), Bits(t[i + 5]), Bits(t[i + 6]), Bits(t[i + 7]));
    same := Word(s, i) == Word(t, i);
  }

  predicate AllSame(s: Bytes, t: Bytes, i: nat)
    requires i + WORD <= |s| && i + WORD <= |t|
  {
    && s[i] == t[i] && s[i + 1] == t[i + 1] && s[i + 2] == t[i + 2] && s[i + 3] == t[i + 3]
    && s[i + 4] == t[i + 4] && s[i + 5] == t[i + 5] && s[i + 6] == t[i + 6] && s[i + 7] == t[i + 7]
  }

  method CompareBytes(s: Bytes, t: Bytes, i: nat) returns (same: bool)
    requires i + WORD <= |s| && i + WORD <= |t|
    ensures same <==> AllSame(s, t, i)
  {
    hide Bits;
    same := CompareLongs(s, t, i);
    Injective(s[i], t[i]);
    Injective(s[i + 1], t[i + 1]);
    Injective(s[i + 2], t[i + 2]);
    Injective(s[i + 3], t[i + 3]);
    Injective(s[i + 4], t[i + 4]);
    Injective(s[i + 5], t[i + 5]);
    Injective(s[i + 6], t[i + 6]);
    Injective(s[i + 7], t[i + 7]);
  }

  /** Two longs are equal exactly when their bytes are. */
  method SameLong(s: Bytes, t: Bytes, i: nat) returns (same: bool)
    requires i + WORD <= |s| && i + WORD <= |t|
    ensures same <==> forall k :: i <= k < i + WORD ==> s[k] == t[k]
  {
    same := CompareBytes(s, t, i);
  }
}
