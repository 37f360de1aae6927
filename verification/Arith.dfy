/** Division and powers of two, shared by the address-splitting arguments. */
module Arith {

  lemma DivBelow(x: nat, d: nat, n: nat)
    requires d > 0 && x < n * d
    ensures x / d < n
  {
  }

  lemma MulMono(a: nat, b: nat, d: nat)
    requires a <= b
    ensures a * d <= b * d
  {
  }

  /** Quotient and remainder are the only way to split a number. */
  lemma DivMod(q: nat, r: nat, d: nat)
    requires r < d
    ensures (q * d + r) / d == q && (q * d + r) % d == r
  {
    var x := q * d + r;
    var k := x / d - q;
    assert k * d == r - x % d;
    if k != 0 {
      assert false;
    }
  }

  function Pow2(n: nat): (p: nat)
    ensures p >= 1 && (n >= 1 ==> p >= 2)
  {
    if n == 0 then 1 else 2 * Pow2(n - 1)
  }

  lemma MulAssoc(x: nat, y: nat, z: nat)
    ensures x * (y * z) == (x * y) * z
  {
  }

  lemma {:induction false} Pow2Add(a: nat, b: nat)
    ensures Pow2(a + b) == Pow2(a) * Pow2(b)
  {
    if a > 0 {
      Pow2Add(a - 1, b);
      MulAssoc(2, Pow2(a - 1), Pow2(b));
    }
  }

  /** A common factor cancels from a remainder and from a quotient. */
  lemma Scale(x: nat, y: nat, t: nat)
    requires y > 0 && t > 0
    ensures y * t > 0 && (x * t) % (y * t) == (x % y) * t && (x * t) / (y * t) == x / y
  {
    var q, r := x / y, x % y;
    assert x == q * y + r;
    assert x * t == q * (y * t) + r * t;
    assert r * t < y * t;
    DivMod(q, r * t, y * t);
  }
}
