/** How a 64-bit address splits into tag, index and offset by shifts. */
module CacheAddress {
  import opened Arith

  const WORD: nat := 0x1_0000_0000_0000_0000

  type u64 = x: int | 0 <= x < WORD

  /** The cache holds 2^C bytes in sets of 2^S blocks of 2^B bytes. */
  datatype Geometry = Geometry(C: nat, S: nat, B: nat) {
    /** The sizes for which every shift below moves by less than 64 places. */
    ghost predicate Legal() {
      C > B + S && C - S <= 63
    }
  }

  /** `x << k` on 64-bit words. */
  function Shl(x: u64, k: nat): u64 {
    (x * Pow2(k)) % WORD
  }

  /** `x >> k` on 64-bit words. */
  function Shr(x: u64, k: nat): u64 {
    Quotient(x, Pow2(k))
  }

  function Quotient(x: nat, d: nat): (q: nat)
    requires d > 0
    ensures q <= x
  {
    MulMono(1, d, x + 1);
    DivBelow(x, d, x + 1);
    x / d
  }

  function OffsetBits(g: Geometry): nat {
    g.B
  }

  function IndexBits(g: Geometry): nat
    requires g.C >= g.B + g.S
  {
    g.C - g.B - g.S
  }

  function TagBits(g: Geometry): nat
    requires g.B + g.S <= g.C <= g.S + 64
  {
    64 - OffsetBits(g) - IndexBits(g)
  }

  function GetIndex(a: u64, g: Geometry): u64
    requires g.Legal()
  {
    Shr(Shl(a, TagBits(g)), TagBits(g) + OffsetBits(g))
  }

  function GetTag(a: u64, g: Geometry): u64
    requires g.Legal()
  {
    Shr(a, OffsetBits(g) + IndexBits(g))
  }

  /** The number of sets `cache_init` allocates. */
  function NumSets(g: Geometry): nat
    requires g.Legal()
  {
    Pow2(IndexBits(g))
  }

  lemma SixteenBits()
    ensures Pow2(16) == 0x1_0000
  {
    assert Pow2(4) == 16;
    Pow2Add(4, 4);
    Pow2Add(8, 8);
  }

  lemma WordIsPow2()
    ensures WORD == Pow2(64)
  {
    hide Pow2;
    SixteenBits();
    Pow2Add(16, 16);
    Pow2Add(32, 32);
  }

  /** The shifts compute quotients and remainders. */
  lemma ShiftsDivide(a: u64, g: Geometry)
    requires g.Legal()
    ensures GetTag(a, g) == a / Pow2(g.C - g.S)
    ensures GetIndex(a, g) == a % Pow2(g.C - g.S) / Pow2(g.B)
  {
    var t, m := TagBits(g), g.C - g.S;
    WordIsPow2();
    Pow2Add(m, t);
    Scale(a, Pow2(m), Pow2(t));
    assert Shl(a, t) == a % Pow2(m) * Pow2(t);
    Pow2Add(g.B, t);
    Scale(a % Pow2(m), Pow2(g.B), Pow2(t));
  }

  /** Tag, index and offset put the address together again, and the index is that of an allocated set. */
  lemma AddressSplit(a: u64, g: Geometry)
    requires g.Legal()
    ensures a == GetTag(a, g) * Pow2(g.C - g.S) + GetIndex(a, g) * Pow2(g.B) + a % Pow2(g.B)
    ensures GetIndex(a, g) < NumSets(g)
  {
    var m, b, i := Pow2(g.C - g.S), Pow2(g.B), Pow2(IndexBits(g));
    ShiftsDivide(a, g);
    Pow2Add(IndexBits(g), g.B);
    DivBelow(a % m, b, i);
    BlockNumber(a, b, i);
  }

  lemma Regroup(q: nat, i: nat, b: nat, s: nat)
    ensures q * (i * b) + s * b == (q * i + s) * b
  {
    MulAssoc(q, i, b);
  }

  /** The block number splits into the quotient and the remainder the shifts compute. */
  lemma BlockNumber(a: nat, b: nat, i: nat)
    requires b > 0 && i > 0
    ensures i * b > 0
    ensures a / b == a / (i * b) * i + a % (i * b) / b
    ensures a == a / (i * b) * (i * b) + a % (i * b) / b * b + a % b
  {
    MulMono(1, i, b);
    var m := i * b;
    var q, r := a / m, a % m;
    var s, t := r / b, r % b;
    Regroup(q, i, b, s);
    assert a == (q * i + s) * b + t;
    DivMod(q * i + s, t, b);
  }

  /** Tag and index are the quotient and the remainder of the block number. */
  lemma BlockSplit(a: u64, g: Geometry)
    requires g.Legal()
    ensures GetTag(a, g) == a / Pow2(g.B) / NumSets(g) && GetIndex(a, g) == a / Pow2(g.B) % NumSets(g)
    ensures a / Pow2(g.B) == GetTag(a, g) * NumSets(g) + GetIndex(a, g)
  {
    var b, i := Pow2(g.B), NumSets(g);
    Pow2Add(IndexBits(g), g.B);
    ShiftsDivide(a, g);
    AddressSplit(a, g);
    BlockNumber(a, b, i);
    DivMod(GetTag(a, g), GetIndex(a, g), i);
  }

  /** Two addresses share tag and index exactly when they lie in the same block. */
  lemma SameBlock(a: u64, a': u64, g: Geometry)
    requires g.Legal()
    ensures GetTag(a, g) == GetTag(a', g) && GetIndex(a, g) == GetIndex(a', g) <==> a / Pow2(g.B) == a' / Pow2(g.B)
  {
    BlockSplit(a, g);
    BlockSplit(a', g);
  }

  /** Caches whose sizes differ in associativity only use the same tags and indices. */
  lemma SameSplit(a: u64, g: Geometry, h: Geometry)
    requires g.Legal() && h.Legal() && g.B == h.B && g.C - g.S == h.C - h.S
    ensures GetTag(a, g) == GetTag(a, h) && GetIndex(a, g) == GetIndex(a, h)
  {
    hide Shl, Shr, Pow2;
    assert TagBits(g) == TagBits(h) && IndexBits(g) == IndexBits(h);
  }
}
