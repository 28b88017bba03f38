/** Half-precision floats (`decodeFloat16`): the double with the same value, bit for bit. */
module Halves {
  import opened Bytes
  import opened Doubles

  function HalfExponent(x: seq<byte>): (e: nat)
    requires |x| == 2
  {
    var high: int := x[0];
    high / 4 % 32
  }

  function HalfMantissa(x: seq<byte>): (m: nat)
    requires |x| == 2
    ensures m < 1024
  {
    var high: int := x[0];
    high % 4 * 256 + x[1]
  }

  /** The place of the highest bit of a non-zero mantissa. */
  function TopBit(m: nat): (k: nat)
    requires m > 0
    ensures Pow2(k) <= m < 2 * Pow2(k)
  {
    if m == 1 then 0 else 1 + TopBit(m / 2)
  }

  /** The double with a sign, an exponent and the ten highest bits of a fraction. */
  function Assemble(negative: bool, e: nat, m: nat): (b: Bits64)
    requires e < 2048 && m < 1024
  {
    [(if negative then 128 else 0) + e / 16, e % 16 * 16 + m / 64, m % 64 * 4, 0, 0, 0, 0, 0]
  }

  lemma TopBitBound(m: nat)
    requires 0 < m < 1024
    ensures TopBit(m) < 10
  {
    Pow2Monotone(10, TopBit(m));
    Pow2Of10();
  }

  lemma {:induction false} Pow2Monotone(a: nat, b: nat)
    ensures a <= b ==> Pow2(a) <= Pow2(b)
    decreases b
  {
    if a < b {
      Pow2Monotone(a, b - 1);
    }
  }

  lemma Pow2Of10()
    ensures Pow2(5) == 32 && Pow2(10) == 1024
  {
    assert Pow2(3) == 8;
    assert Pow2(6) == 64;
  }

  lemma {:induction false} Pow2Add(a: nat, b: nat)
    ensures Pow2(a + b) == Pow2(a) * Pow2(b)
    decreases b
  {
    if b > 0 {
      Pow2Add(a, b - 1);
    }
  }

  /** The ten mantissa bits after the leading one. */
  function Shifted(m: nat): (r: nat)
    requires 0 < m < 1024
    ensures r < 1024 && TopBit(m) < 10 && 1024 + r == m * Pow2(10 - TopBit(m))
  {
    TopBitBound(m);
    var k := TopBit(m);
    Pow2Add(k, 10 - k);
    Pow2Of10();
    Scaled(m, Pow2(k), Pow2(10 - k));
    (m - Pow2(k)) * Pow2(10 - k)
  }

  lemma Scaled(m: nat, p: nat, q: nat)
    requires p <= m < 2 * p && p * q == 1024 && q > 0
    ensures 0 <= (m - p) * q < 1024 && 1024 + (m - p) * q == m * q
  {
    assert (m - p) * q == m * q - p * q;
    assert m * q < 2 * p * q;
  }

  /** `decodeFloat16`, as the bits of its result. */
  function Widened(x: seq<byte>): (b: Bits64)
    requires |x| == 2
  {
    var negative, e, m := x[0] >= 128, HalfExponent(x), HalfMantissa(x);
    if e == 31 then if m == 0 then Assemble(negative, 2047, 0) else NAN
    else if e != 0 then Assemble(negative, e + 1008, m)
    else if m == 0 then Assemble(negative, 0, 0)
    else Assemble(negative, TopBit(m) + 999, Shifted(m))
  }

  // ---- what the assembled bits denote -------------------------------------------------------------

  lemma AssembledExponent(negative: bool, e: nat, m: nat)
    requires e < 2048 && m < 1024
    ensures Exponent(Assemble(negative, e, m)) == e && (Assemble(negative, e, m)[0] >= 128 <==> negative)
  {
  }

  lemma AssembledFraction(negative: bool, e: nat, m: nat)
    requires e < 2048 && m < 1024
    ensures Fraction(Assemble(negative, e, m)) == m * Pow2(42)
  {
    var b := Assemble(negative, e, m);
    var high: byte := m / 64;
    Nibble(e % 16, high);
    assert [b[1] % 16] + b[2..] == [high, m % 64 * 4, 0, 0, 0, 0, 0];
    HighBytes(high, m % 64 * 4);
    Pow2Of42();
    TenBits(m);
  }

  lemma Nibble(a: nat, b: nat)
    requires b < 16
    ensures (a * 16 + b) % 16 == b
  {
  }

  lemma TenBits(m: nat)
    ensures m / 64 * 256 + m % 64 * 4 == 4 * m
  {
  }

  lemma HighBytes(a: byte, b: byte)
    ensures BeValue([a, b, 0, 0, 0, 0, 0]) == (a * 256 + b) * 0x100_0000_0000
  {
    BePush([], a);
    BePush([a], b);
    assert [] + [a] == [a] && [a] + [b] == [a, b];
    ThreeZeros([a, b], [a, b, 0, 0, 0]);
    BePush([a, b, 0, 0, 0], 0);
    BePush([a, b, 0, 0, 0, 0], 0);
    assert [a, b, 0, 0, 0] + [0] == [a, b, 0, 0, 0, 0] && [a, b, 0, 0, 0, 0] + [0] == [a, b, 0, 0, 0, 0, 0];
  }

  lemma ThreeZeros(s: seq<byte>, t: seq<byte>)
    requires t == s + [0, 0, 0]
    ensures BeValue(t) == BeValue(s) * 0x100_0000
  {
    BePush(s, 0);
    BePush(s + [0], 0);
    BePush(s + [0] + [0], 0);
    assert t == s + [0] + [0] + [0];
  }

  lemma BePush(s: seq<byte>, x: byte)
    ensures BeValue(s + [x]) == BeValue(s) * 256 + x
  {
    assert (s + [x])[..|s|] == s;
  }

  lemma Pow2Of42()
    ensures Pow2(42) == 4 * 0x100_0000_0000
  {
    Pow2Of10();
    Pow2Add(10, 10);
    Pow2Add(20, 20);
    Pow2Add(40, 2);
    assert Pow2(2) == 4;
  }

  function Sign(negative: bool): (n: int) {
    if negative then -1 else 1
  }

  /** The signed mantissa of a half. */
  function Signed(x: seq<byte>, m: nat): (n: int)
    requires |x| == 2
  {
    Sign(x[0] >= 128) * m
  }

  /** The numerator of an assembled double below 2^52: its eleven leading bits, 42 places up. */
  lemma AssembledNumerator(negative: bool, e: nat, m: nat, up: nat)
    requires 0 < e <= 1075 && m < 1024 && up == 42
    ensures var b := Assemble(negative, e, m);
            && SignedNumerator(b) == Sign(negative) * ((1024 + m) * Pow2(up))
            && Denominator(b) == Pow2(1075 - e)
  {
    var b := Assemble(negative, e, m);
    AssembledExponent(negative, e, m);
    AssembledFraction(negative, e, m);
    Pow2Of42();
    assert Significand(b) == (1024 + m) * Pow2(up);
    assert Numerator(b) == Significand(b) * Pow2(0);
  }

  /**
   * Widening is exact: a half of exponent 0 is its mantissa over 2^24, one of exponent 31 an infinity or
   * NaN, and any other its mantissa and leading one times 2^(exponent - 25), as the bits of a double say.
   */
  lemma WidenedIsExact(x: seq<byte>)
    requires |x| == 2
    ensures var w, e, m := Widened(x), HalfExponent(x), HalfMantissa(x);
            && (e == 0 ==> Finite(w, 0x100_0000, Signed(x, m)))
            && (0 < e < 31 ==> Finite(w, 0x200_0000, Signed(x, 1024 + m) * Pow2(e)))
            && (e == 31 ==> Exponent(w) == 2047 && (IsNaN(w) <==> m != 0))
            && (!IsNaN(w) ==> (w[0] >= 128 <==> x[0] >= 128))
  {
    var e, m := HalfExponent(x), HalfMantissa(x);
    if e == 31 {
      InfinityOrNaN(x);
    } else if e != 0 {
      NormalIsExact(Widened(x), x[0] >= 128, e, m, 42, 25);
    } else if m == 0 {
      ZeroIsExact(x);
    } else {
      TopBitBound(m);
      SubnormalIsExact(Widened(x), x[0] >= 128, m, TopBit(m), Shifted(m), 42, 24);
    }
  }

  /** The double is `n` over `d`. */
  predicate Finite(w: Bits64, d: nat, n: int) {
    Exponent(w) != 2047 && SignedNumerator(w) * d == n * Denominator(w)
  }

  lemma InfinityOrNaN(x: seq<byte>)
    requires |x| == 2 && HalfExponent(x) == 31
    ensures var w := Widened(x);
            && Exponent(w) == 2047 && (IsNaN(w) <==> HalfMantissa(x) != 0)
            && (!IsNaN(w) ==> (w[0] >= 128 <==> x[0] >= 128))
  {
    if HalfMantissa(x) == 0 {
      AssembledExponent(x[0] >= 128, 2047, 0);
      AssembledFraction(x[0] >= 128, 2047, 0);
    } else {
      CanonicalNaN();
    }
  }

  lemma ZeroIsExact(x: seq<byte>)
    requires |x| == 2 && HalfExponent(x) == 0 && HalfMantissa(x) == 0
    ensures var w := Widened(x);
            Exponent(w) == 0 && SignedNumerator(w) == 0 && (w[0] >= 128 <==> x[0] >= 128)
  {
    AssembledExponent(x[0] >= 128, 0, 0);
    AssembledFraction(x[0] >= 128, 0, 0);
  }

  lemma Regroup(s: int, a: int, p: int, q: int, r: int, d: int)
    requires p * q == r * d
    ensures (s * (a * p)) * q == (s * a) * r * d
  {
    assert (s * (a * p)) * q == (s * a) * (p * q);
    assert (s * a) * r * d == (s * a) * (r * d);
  }

  /** Two ways to split the same exponent. */
  lemma {:induction false} SamePower(a: nat, b: nat, c: nat, d: nat)
    requires a + b == c + d
    ensures Pow2(a) * Pow2(b) == Pow2(c) * Pow2(d)
  {
    Pow2Add(a, b);
    Pow2Add(c, d);
  }

  /** An assembled double is its leading bits times a power of two. */
  lemma {:induction false} AssembledValue(w: Bits64, negative: bool, e: nat, m: nat, a: nat, base: nat, up: nat,
                                          over: nat, r: nat)
    requires 0 < e <= 1075 && m < 1024 && w == Assemble(negative, e, m) && base == 42
    requires (1024 + m) * Pow2(base) == a * Pow2(up) && up + over == r + (1075 - e)
    ensures SignedNumerator(w) * Pow2(over) == Sign(negative) * a * Pow2(r) * Denominator(w)
    ensures Exponent(w) == e && (w[0] >= 128 <==> negative)
  {
    AssembledExponent(negative, e, m);
    AssembledNumerator(negative, e, m, base);
    SamePower(up, over, r, 1075 - e);
    Regroup(Sign(negative), a, Pow2(up), Pow2(over), Pow2(r), Pow2(1075 - e));
  }

  lemma {:induction false} NormalIsExact(w: Bits64, negative: bool, e: nat, m: nat, base: nat, over: nat)
    requires 0 < e < 31 && m < 1024 && w == Assemble(negative, e + 1008, m) && base == 42 && over == 25
    ensures w[0] >= 128 <==> negative
    ensures Finite(w, 0x200_0000, Sign(negative) * (1024 + m) * Pow2(e))
  {
    AssembledValue(w, negative, e + 1008, m, 1024 + m, base, base, over, e);
    Pow2Of25(over);
  }

  lemma {:induction false} SubnormalIsExact(w: Bits64, negative: bool, m: nat, k: nat, r: nat, base: nat, over: nat)
    requires 0 < m < 1024 && r < 1024 && k < 10 && 1024 + r == m * Pow2(10 - k)
    requires w == Assemble(negative, k + 999, r) && base == 42 && over == 24
    ensures w[0] >= 128 <==> negative
    ensures Finite(w, 0x100_0000, Sign(negative) * m)
  {
    ShiftedUp(m, k, r, base);
    var none := 0;
    AssembledValue(w, negative, k + 999, r, m, base, 10 - k + base, over, none);
    Pow2Of25(over + 1);
    OneFactor(Sign(negative) * m, Pow2(none), Denominator(w));
  }

  lemma OneFactor(a: int, p: int, d: int)
    requires p == 1
    ensures a * p * d == a * d
  {
  }

  lemma {:induction false} Pow2Of25(n: nat)
    requires n == 25
    ensures Pow2(n) == 0x200_0000 && Pow2(n - 1) == 0x100_0000
  {
    Pow2Of10();
    Pow2Add(10, 10);
    Pow2Add(20, 5);
  }

  lemma {:induction false} ShiftedUp(m: nat, k: nat, r: nat, up: nat)
    requires k < 10 && 1024 + r == m * Pow2(10 - k)
    ensures (1024 + r) * Pow2(up) == m * Pow2(10 - k + up)
  {
    Pow2Add(10 - k, up);
    Product(m, Pow2(10 - k), Pow2(up));
  }

  lemma Product(a: int, b: int, c: int)
    ensures (a * b) * c == a * (b * c)
  {
  }
}
