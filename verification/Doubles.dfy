/** The bit patterns of double-precision numbers, and which of them are integers. */
module Doubles {
  import opened Bytes

  type Bits64 = b: seq<byte> | |b| == 8 witness [0, 0, 0, 0, 0, 0, 0, 0]

  const NEGATIVE_ZERO: Bits64 := [0x80, 0, 0, 0, 0, 0, 0, 0]
  const NAN: Bits64 := [0x7F, 0xF8, 0, 0, 0, 0, 0, 0]

  function Pow2(n: nat): (p: nat)
    ensures p > 0
  {
    if n == 0 then 1 else 2 * Pow2(n - 1)
  }

  function Exponent(b: Bits64): (e: nat) {
    var high: int := b[0];
    high % 128 * 16 + b[1] / 16
  }

  function Fraction(b: Bits64): (f: nat) {
    BeValue([b[1] % 16] + b[2..])
  }

  predicate IsNaN(b: Bits64) {
    Exponent(b) == 2047 && Fraction(b) != 0
  }

  /** The significand; the number is it times 2 to the `Scale(b) - 1075`. */
  function Significand(b: Bits64): (m: nat) {
    if Exponent(b) == 0 then Fraction(b) else 0x10_0000_0000_0000 + Fraction(b)
  }

  function Scale(b: Bits64): (e: nat) {
    if Exponent(b) == 0 then 1 else Exponent(b)
  }

  /** A finite double is, up to its sign, `Numerator(b)` over `Denominator(b)`. */
  function Numerator(b: Bits64): (n: nat) {
    Significand(b) * Pow2(if Scale(b) > 1075 then Scale(b) - 1075 else 0)
  }

  function Denominator(b: Bits64): (n: nat)
    ensures n > 0
  {
    Pow2(if Scale(b) > 1075 then 0 else 1075 - Scale(b))
  }

  /** The integer a finite double is, if it is one (`Number.isInteger`, then `BigInt`). */
  function Integral(b: Bits64): (r: Option<int>) {
    var num, den := Numerator(b), Denominator(b);
    if Exponent(b) == 2047 || num % den != 0 then None
    else Some(if b[0] < 128 then num / den else -(num / den))
  }

  function SignedNumerator(b: Bits64): (n: int) {
    var num: int := Numerator(b);
    if b[0] < 128 then num else -num
  }

  lemma QuotientIs(num: nat, den: nat, n: int)
    requires den > 0
    ensures num % den == 0 && num / den == n <==> n * den == num
  {
    if n * den == num {
      QuotientIsUnique(num, den, n, 0);
    }
  }

  lemma NegatedProduct(n: int, den: int, num: int)
    ensures (-n) * den == num <==> n * den == -num
  {
  }

  lemma SignedQuotientIs(num: nat, den: nat, positive: bool, n: int)
    requires den > 0
    ensures num % den == 0 && num / den == (if positive then n else -n)
            <==> n * den == if positive then num as int else -(num as int)
  {
    QuotientIs(num, den, if positive then n else -n);
    NegatedProduct(n, den, num);
  }

  lemma IntegralForm(b: Bits64, n: int)
    requires Exponent(b) != 2047
    ensures Integral(b) == Some(n) <==>
      && Numerator(b) % Denominator(b) == 0
      && Numerator(b) / Denominator(b) == if b[0] < 128 then n else -n
  {
  }

  /** A finite double is the integer `n` exactly when its fraction equals it. */
  lemma IntegralIsExact(b: Bits64, n: int)
    requires Exponent(b) != 2047
    ensures Integral(b) == Some(n) <==> n * Denominator(b) == SignedNumerator(b)
  {
    IntegralForm(b, n);
    SignedQuotientIs(Numerator(b), Denominator(b), b[0] < 128, n);
  }

  lemma ZeroFraction(b: Bits64)
    requires b[1] % 16 == 0 && forall i | 2 <= i < 8 :: b[i] == 0
    ensures Fraction(b) == 0
  {
    ZeroValue([b[1] % 16] + b[2..]);
  }

  lemma {:induction false} ZeroValue(b: seq<byte>)
    requires forall i | 0 <= i < |b| :: b[i] == 0
    ensures BeValue(b) == 0
  {
    if b != [] {
      ZeroValue(b[..|b| - 1]);
    }
  }

  lemma NegativeZeroIsIntegral()
    ensures Integral(NEGATIVE_ZERO) == Some(0)
  {
    ZeroFraction(NEGATIVE_ZERO);
  }

  lemma NaNIsNotIntegral(b: Bits64)
    requires IsNaN(b)
    ensures Integral(b) == None
  {
  }

  lemma CanonicalNaN()
    ensures IsNaN(NAN)
  {
    var f: seq<byte> := [NAN[1] % 16] + NAN[2..];
    assert f[0] == 8;
    PositiveValue(f);
  }

  lemma {:induction false} PositiveValue(b: seq<byte>)
    requires b != [] && b[0] > 0
    ensures BeValue(b) > 0
  {
    if |b| > 1 {
      PositiveValue(b[..|b| - 1]);
    }
  }

  lemma Pow2Of12()
    ensures Pow2(0) == 1 && Pow2(12) == 4096
  {
    assert Pow2(4) == 16;
    assert Pow2(8) == 256;
  }

  /** The pattern of 2^40. */
  lemma TwoTo40IsIntegral()
    ensures Integral([0x42, 0x70, 0, 0, 0, 0, 0, 0]) == Some(0x100_0000_0000)
    ensures !IsNaN([0x42, 0x70, 0, 0, 0, 0, 0, 0])
  {
    ZeroFraction([0x42, 0x70, 0, 0, 0, 0, 0, 0]);
    Pow2Of12();
  }

  /** The pattern of 2^64. */
  lemma TwoTo64IsIntegral()
    ensures Integral([0x43, 0xF0, 0, 0, 0, 0, 0, 0]) == Some(0x1_0000_0000_0000_0000)
  {
    ZeroFraction([0x43, 0xF0, 0, 0, 0, 0, 0, 0]);
    Pow2Of12();
  }
}
