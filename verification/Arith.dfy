/** Division and rounding facts shared by the other modules. */
module Arith {
  function Min(a: int, b: int): int { if a <= b then a else b }
  function Max(a: int, b: int): int { if a >= b then a else b }

  lemma MulMono(a: int, b: int, m: int)
    requires a <= b && m >= 0
    ensures a * m <= b * m
  {}

  lemma DivModUnique(a: int, m: int, q: int, r: int)
    requires m > 0 && 0 <= r < m && a == q * m + r
    ensures a / m == q && a % m == r
  {
    var q', r' := a / m, a % m;
    assert a == q' * m + r';
    if q' < q {
      MulMono(q' + 1, q, m);
    } else if q' > q {
      MulMono(q + 1, q', m);
    }
  }

  lemma MulMod(k: int, m: int)
    requires m > 0
    ensures (k * m) % m == 0 && (k * m) / m == k
  {
    DivModUnique(k * m, m, k, 0);
  }

  lemma AddMod(x: int, m: int)
    requires m > 0
    ensures (x + m) % m == x % m && (x + m) / m == x / m + 1
  {
    DivModUnique(x + m, m, x / m + 1, x % m);
  }

  /** Two multiples of m that are less than m apart are equal. */
  lemma MultiplesApart(a: int, b: int, m: int)
    requires m > 0 && a % m == 0 && b % m == 0 && a < b
    ensures a + m <= b
  {
    var p, q := a / m, b / m;
    assert a == p * m && b == q * m;
    if q <= p { MulMono(q, p, m); } else { MulMono(p + 1, q, m); }
  }

  function AlignDown(x: nat, align: nat): (r: nat)
    requires align > 0
    ensures r <= x < r + align && r % align == 0
    ensures x % align == 0 ==> r == x
  {
    var q := x / align;
    assert x == q * align + x % align;
    MulMod(q, align);
    assert x - x % align == q * align;
    x - x % align
  }

  function AlignUp(x: nat, align: nat): (r: nat)
    requires align > 0
    ensures x <= r < x + align && r % align == 0
    ensures x % align == 0 ==> r == x
  {
    var r := AlignDown(x + align - 1, align);
    assert x % align == 0 ==> r == x by {
      if x % align == 0 && x < r { MultiplesApart(x, r, align); }
    }
    r
  }
}
