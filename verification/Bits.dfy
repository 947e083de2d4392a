/** What the arithmetic forms in Words mean bit by bit, and the bit-length macro of bitops.h. */
module Bits {
  import opened Words

  function Pow2(n: nat): (p: nat)
    ensures p > 0
  {
    if n == 0 then 1 else 2 * Pow2(n - 1)
  }

  predicate Bit(v: nat, i: nat) { if i == 0 then v % 2 == 1 else Bit(v / 2, i - 1) }

  lemma {:induction false} ZeroHasNoBits(i: nat)
    ensures !Bit(0, i)
  {
    if i > 0 {
      ZeroHasNoBits(i - 1);
    }
  }

  lemma ProductAtLeast(m: int, d: int)
    requires m > 0 && d >= 1
    ensures m * d >= m
  {
  }

  lemma ProductDiffers(m: int, e: int, q: int)
    ensures m * (e - q) == m * e - m * q
  {
  }

  lemma ProductGrows(p: int, x: int, y: int)
    requires p > 0 && x <= y
    ensures p * x <= p * y
  {
  }

  lemma DivMod(a: int, m: int)
    requires m > 0
    ensures a == m * (a / m) + a % m && 0 <= a % m < m
  {
  }

  lemma DivIs(a: int, m: int, q: int, r: int)
    requires m > 0 && 0 <= r < m && a == m * q + r
    ensures a / m == q && a % m == r
  {
    DivMod(a, m);
    var e := a / m;
    ProductDiffers(m, e, q);
    ProductDiffers(m, q, e);
    if e > q {
      ProductAtLeast(m, e - q);
    } else if e < q {
      ProductAtLeast(m, q - e);
    }
  }

  lemma DivByDouble(v: nat, m: nat)
    requires m > 0
    ensures v / (2 * m) == v / 2 / m
    ensures v % (2 * m) == 2 * (v / 2 % m) + v % 2
  {
    var q, r := v / 2 / m, v / 2 % m;
    DivMod(v / 2, m);
    assert v == (2 * m) * q + (2 * r + v % 2) by {
      assert 2 * (m * q) == (2 * m) * q;
    }
    DivIs(v, 2 * m, q, 2 * r + v % 2);
  }

  /** GETVAL with the mask of bits l .. l+w-1 */
  function Field(v: nat, l: nat, w: nat): nat {
    GetVal(v, Pow2(l), Pow2(w))
  }

  /** GETVAL brings the masked bits down and no others. */
  lemma {:induction false} GetValBits(v: nat, l: nat, w: nat, i: nat)
    ensures Bit(Field(v, l, w), i) <==> i < w && Bit(v, l + i)
    decreases l + i
  {
    if l > 0 {
      DivByDouble(v, Pow2(l - 1));
      GetValBits(v / 2, l - 1, w, i);
    } else if w == 0 {
      ZeroHasNoBits(i);
    } else {
      DivByDouble(v, Pow2(w - 1));
      assert Field(v, 0, w) == 2 * Field(v / 2, 0, w - 1) + v % 2;
      if i > 0 {
        GetValBits(v / 2, 0, w - 1, i - 1);
      }
    }
  }

  /** The field of bits l .. l+w-1 of v replaced by the low bits of value */
  function Replaced(v: nat, value: nat, l: nat, w: nat): int {
    v - Field(v, l, w) * Pow2(l) + (value % Pow2(w)) * Pow2(l)
  }

  lemma GetValIsBelow(v: nat, u: nat, s: nat)
    requires u > 0 && s > 0
    ensures GetVal(v, u, s) * u <= v
  {
    var q := v / u;
    DivMod(v, u);
    ModIsBelow(q, s);
    var f := q % s;
    assert f == GetVal(v, u, s);
    assert u * q <= v;
    hide GetVal;
    BelowProduct(v, u, q, f);
  }

  lemma FieldIsBelow(v: nat, l: nat, w: nat)
    ensures Field(v, l, w) * Pow2(l) <= v
  {
    GetValIsBelow(v, Pow2(l), Pow2(w));
  }

  lemma BelowProduct(v: nat, u: nat, q: nat, f: nat)
    requires u > 0 && u * q <= v && f <= q
    ensures f * u <= v
  {
    ProductGrows(u, f, q);
  }

  lemma ModIsBelow(q: nat, s: nat)
    requires s > 0
    ensures q % s <= q
  {
  }

  /** Halving a replacement above bit 0 halves the word around it; at bit 0 it halves the value too. */
  lemma HalfReplaced(v: nat, value: nat, l: nat, w: nat)
    ensures l > 0 ==> Replaced(v, value, l, w) == 2 * Replaced(v / 2, value, l - 1, w) + v % 2
    ensures l == 0 && w > 0 ==> Replaced(v, value, 0, w) == 2 * Replaced(v / 2, value / 2, 0, w - 1) + value % 2
  {
    if l > 0 {
      DivByDouble(v, Pow2(l - 1));
      DoubledWeight(v, Field(v / 2, l - 1, w), value % Pow2(w), Pow2(l - 1));
    } else if w > 0 {
      DivByDouble(v, Pow2(w - 1));
      DivByDouble(value, Pow2(w - 1));
    }
  }

  lemma DoubledWeight(v: nat, f: nat, x: nat, u: nat)
    ensures v - f * (2 * u) + x * (2 * u) == 2 * (v / 2 - f * u + x * u) + v % 2
  {
    assert f * (2 * u) == 2 * (f * u) && x * (2 * u) == 2 * (x * u);
  }

  lemma {:induction false} ReplacedBits(v: nat, value: nat, l: nat, w: nat, i: nat)
    ensures Replaced(v, value, l, w) >= 0
    ensures Bit(Replaced(v, value, l, w), i) <==> if l <= i < l + w then Bit(value, i - l) else Bit(v, i)
    decreases l + i
  {
    ReplacedIsNat(v, value, l, w);
    HalfReplaced(v, value, l, w);
    if l > 0 {
      hide Replaced;
      ReplacedIsNat(v / 2, value, l - 1, w);
      HalfBit(Replaced(v, value, l, w), Replaced(v / 2, value, l - 1, w), v % 2, i);
      if i > 0 {
        ReplacedBits(v / 2, value, l - 1, w, i - 1);
      }
    } else if w > 0 {
      hide Replaced;
      ReplacedIsNat(v / 2, value / 2, 0, w - 1);
      HalfBit(Replaced(v, value, 0, w), Replaced(v / 2, value / 2, 0, w - 1), value % 2, i);
      if i > 0 {
        ReplacedBits(v / 2, value / 2, 0, w - 1, i - 1);
      }
    }
  }

  lemma HalfBit(r: nat, rest: nat, low: nat, i: nat)
    requires r == 2 * rest + low && low < 2
    ensures Bit(r, i) <==> if i == 0 then low == 1 else Bit(rest, i - 1)
  {
    assert r / 2 == rest && r % 2 == low;
  }

  lemma ReplacedIsNat(v: nat, value: nat, l: nat, w: nat)
    ensures Replaced(v, value, l, w) >= 0
  {
    FieldIsBelow(v, l, w);
    assert (value % Pow2(w)) * Pow2(l) >= 0;
  }

  lemma LowWordBits(v: nat, i: nat)
    ensures Bit(v % WORD, i) <==> i < 32 && Bit(v, i)
  {
    Weights();
    Pow2Adds(16, 16);
    assert Field(v, 0, 32) == v % WORD;
    GetValBits(v, 0, 32, i);
  }

  /** SETVAL puts the value's bits under the mask and keeps all others of the low 32. */
  lemma SetValBits(v: nat, value: nat, l: nat, w: nat, i: nat)
    ensures SetVal(v, value, Pow2(l), Pow2(w)) >= 0
    ensures Bit(SetVal(v, value, Pow2(l), Pow2(w)), i) <==> if l <= i < l + w then Bit(value, i - l) else i < 32 && Bit(v, i)
  {
    ReplacedBits(v % WORD, value, l, w, i);
    LowWordBits(v, i);
  }

  lemma SetBitBits(v: nat, k: nat, i: nat)
    ensures Bit(SetBit(v, Pow2(k)), i) <==> i == k || Bit(v, i)
  {
    OneBit(v, k);
    ReplacedBits(v, 1, k, 1, i);
    ZeroHasNoBits(0);
  }

  lemma ClrBitBits(v: nat, k: nat, i: nat)
    ensures ClrBit(v, Pow2(k)) >= 0
    ensures Bit(ClrBit(v, Pow2(k)), i) <==> i != k && i < 32 && Bit(v, i)
  {
    OneBit(v % WORD, k);
    ReplacedBits(v % WORD, 0, k, 1, i);
    LowWordBits(v, i);
    ZeroHasNoBits(0);
  }

  lemma OneBit(v: nat, k: nat)
    ensures SetBit(v, Pow2(k)) == Replaced(v, 1, k, 1)
    ensures (if (v / Pow2(k)) % 2 == 0 then v else v - Pow2(k)) == Replaced(v, 0, k, 1)
  {
    assert Pow2(1) == 2;
    var f, u := Field(v, k, 1), Pow2(k);
    assert f == 0 || f == 1;
  }

  // ---------------------------------------------------------------- NBITS

  function NBits2(n: nat): nat { if GetVal(n, 2, 2) != 0 then 1 else 0 }

  function NBits4(n: nat): nat { if GetVal(n, 4, 4) != 0 then 2 + NBits2(n / 4) else NBits2(n) }

  function NBits8(n: nat): nat { if GetVal(n, 0x10, 0x10) != 0 then 4 + NBits4(n / 0x10) else NBits4(n) }

  function NBits16(n: nat): nat { if GetVal(n, 0x100, 0x100) != 0 then 8 + NBits8(n / 0x100) else NBits8(n) }

  function NBits32(n: nat): nat { if GetVal(n, 0x1_0000, 0x1_0000) != 0 then 16 + NBits16(n / 0x1_0000) else NBits16(n) }

  /** The nested conditionals search for the highest bit set: NBITS is the base-2 logarithm, rounded down,
      so that of a page size of 2^k is k. */
  lemma NBitsIsLog2(n: nat)
    requires 0 < n < WORD
    ensures Pow2(NBits32(n)) <= n < 2 * Pow2(NBits32(n))
  {
    Weights();
    hide Pow2;
    if n / 0x1_0000 != 0 {
      NBits16IsLog2(n / 0x1_0000);
      Shifted(n, 16, NBits16(n / 0x1_0000));
    } else {
      NBits16IsLog2(n);
    }
  }

  lemma {:induction false} Pow2Adds(k: nat, b: nat)
    ensures Pow2(k + b) == Pow2(k) * Pow2(b)
  {
    if k > 0 {
      Pow2Adds(k - 1, b);
    }
  }

  lemma Shifted(n: nat, k: nat, b: nat)
    requires Pow2(b) <= n / Pow2(k) < 2 * Pow2(b)
    ensures Pow2(k + b) <= n < 2 * Pow2(k + b)
  {
    Pow2Adds(k, b);
    var p, q, t := Pow2(k), n / Pow2(k), Pow2(b);
    hide Pow2;
    DivMod(n, p);
    ShiftedBy(n, p, q, t);
  }

  lemma ShiftedBy(n: nat, p: nat, q: nat, t: nat)
    requires p > 0 && p * q <= n < p * q + p && t <= q < 2 * t
    ensures p * t <= n < 2 * (p * t)
  {
    ProductGrows(p, t, q);
    ProductGrows(p, q + 1, 2 * t);
  }

  lemma Weights()
    ensures Pow2(2) == 4 && Pow2(4) == 0x10 && Pow2(8) == 0x100 && Pow2(16) == 0x1_0000
  {
    Pow2Adds(2, 2);
    Pow2Adds(4, 4);
    Pow2Adds(8, 8);
  }

  lemma NBits16IsLog2(n: nat)
    requires 0 < n < 0x1_0000
    ensures Pow2(NBits16(n)) <= n < 2 * Pow2(NBits16(n))
  {
    Weights();
    hide Pow2;
    if n / 0x100 != 0 {
      NBits8IsLog2(n / 0x100);
      Shifted(n, 8, NBits8(n / 0x100));
    } else {
      NBits8IsLog2(n);
    }
  }

  lemma NBits8IsLog2(n: nat)
    requires 0 < n < 0x100
    ensures Pow2(NBits8(n)) <= n < 2 * Pow2(NBits8(n))
  {
    Weights();
    hide Pow2;
    if n / 0x10 != 0 {
      NBits4IsLog2(n / 0x10);
      Shifted(n, 4, NBits4(n / 0x10));
    } else {
      NBits4IsLog2(n);
    }
  }

  lemma NBits4IsLog2(n: nat)
    requires 0 < n < 0x10
    ensures Pow2(NBits4(n)) <= n < 2 * Pow2(NBits4(n))
  {
    Weights();
    assert Pow2(0) == 1 && Pow2(1) == 2;
    if n / 4 != 0 {
      Shifted(n, 2, NBits2(n / 4));
    }
  }
}
