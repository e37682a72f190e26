/** Numbers as bytes. */
module Endian {
  import Arith
  import opened LongWords

  function Pow256(n: nat): nat { if n == 0 then 1 else 256 * Pow256(n - 1) }

  /** v as n bytes, high byte first. */
  function Be(n: nat, v: nat): (s: Bytes)
    ensures |s| == n
  {
    if n == 0 then [] else Be(n - 1, v / 256) + [v % 256]
  }

  function UnBe(s: Bytes): nat {
    if s == [] then 0 else UnBe(s[..|s| - 1]) * 256 + s[|s| - 1]
  }

  lemma {:induction false} BeRoundTrip(n: nat, v: nat)
    requires v < Pow256(n)
    ensures UnBe(Be(n, v)) == v
  {
    if n > 0 {
      BeRoundTrip(n - 1, v / 256);
      assert Be(n, v)[..n - 1] == Be(n - 1, v / 256);
    }
  }

  /** Any bytes are those of the number they read as. */
  lemma {:induction false} UnBeRoundTrip(s: Bytes)
    ensures Be(|s|, UnBe(s)) == s && UnBe(s) < Pow256(|s|)
  {
    if s != [] { UnBeRoundTrip(s[..|s| - 1]); }
  }

  /** The same bytes in the other order. */
  function Reverse(s: Bytes): (r: Bytes)
    ensures |r| == |s|
  {
    if s == [] then [] else [s[|s| - 1]] + Reverse(s[..|s| - 1])
  }

  lemma {:induction false} ReverseAt(s: Bytes, i: nat)
    requires i < |s|
    ensures Reverse(s)[i] == s[|s| - 1 - i]
  {
    if i > 0 { ReverseAt(s[..|s| - 1], i - 1); }
  }

  lemma ReverseTwice(s: Bytes)
    ensures Reverse(Reverse(s)) == s
  {
    forall i | 0 <= i < |s|
      ensures Reverse(Reverse(s))[i] == s[i]
    {
      ReverseAt(Reverse(s), i);
      ReverseAt(s, |s| - 1 - i);
    }
  }

  /** v in n bytes of the given order, cut to what they hold. */
  function Num(n: nat, v: nat, big: bool): (s: Bytes)
    ensures |s| == n
  {
    if big then Be(n, v) else Reverse(Be(n, v))
  }

  function UnNum(s: Bytes, big: bool): nat {
    UnBe(if big then s else Reverse(s))
  }

  lemma {:induction false} BeCut(n: nat, v: nat)
    ensures Pow256(n) > 0 && UnBe(Be(n, v)) == v % Pow256(n)
  {
    if n > 0 {
      BeCut(n - 1, v / 256);
      assert Be(n, v)[..n - 1] == Be(n - 1, v / 256);
      CutDigit(v, Pow256(n - 1));
    }
  }

  lemma CutDigit(v: nat, p: nat)
    requires p > 0
    ensures v / 256 % p * 256 + v % 256 == v % (256 * p)
  {
    var q, d := v / 256, v % 256;
    var k, r := q / p, q % p;
    assert v == 256 * (k * p + r) + d;
    assert v == k * (256 * p) + (256 * r + d) by { assert 256 * (k * p) == k * (256 * p); }
    Arith.DivModUnique(v, 256 * p, k, 256 * r + d);
  }

  lemma NumRoundTrip(n: nat, v: nat, big: bool)
    ensures Pow256(n) > 0 && UnNum(Num(n, v, big), big) == v % Pow256(n)
  {
    BeCut(n, v);
    ReverseTwice(Be(n, v));
  }
}
