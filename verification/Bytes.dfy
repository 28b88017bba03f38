/** Bytes and big-endian numbers, as the wire codecs read and write them. */
module Bytes {

  type byte = x: int | 0 <= x < 256

  datatype Option<+T> = None | Some(value: T)

  /** 256 to the power `w`. */
  function Pow256(w: nat): (p: nat)
    ensures p > 0
  {
    if w == 0 then 1 else 256 * Pow256(w - 1)
  }

  /** The low `w` bytes of `n`, most significant first. */
  function BigEndian(n: nat, w: nat): (b: seq<byte>)
    ensures |b| == w
  {
    if w == 0 then [] else BigEndian(n / 256, w - 1) + [n % 256]
  }

  /** The number a big-endian byte string denotes. */
  function BeValue(b: seq<byte>): (n: nat)
  {
    if b == [] then 0 else BeValue(b[..|b| - 1]) * 256 + b[|b| - 1]
  }

  lemma Concat3<T>(a: seq<T>, b: seq<T>, c: seq<T>)
    ensures (a + b) + c == a + (b + c)
  {
  }

  lemma Concat4<T>(a: seq<T>, b: seq<T>, c: seq<T>, d: seq<T>)
    ensures ((a + b) + c) + d == a + (b + (c + d))
  {
  }

  lemma SliceOfPrefix<T>(a: seq<T>, b: seq<T>, i: nat, j: nat)
    requires i <= j <= |a|
    ensures (a + b)[i..j] == a[i..j] && (a + b)[j..] == a[j..] + b
  {
  }

  lemma Pow256Values()
    ensures Pow256(1) == 0x100
    ensures Pow256(2) == 0x1_0000
    ensures Pow256(4) == 0x1_0000_0000
    ensures Pow256(8) == 0x1_0000_0000_0000_0000
  {
    assert Pow256(2) == 256 * Pow256(1);
    assert Pow256(3) == 256 * Pow256(2);
    assert Pow256(4) == 256 * Pow256(3);
    assert Pow256(5) == 256 * Pow256(4);
    assert Pow256(6) == 256 * Pow256(5);
    assert Pow256(7) == 256 * Pow256(6);
    assert Pow256(8) == 256 * Pow256(7);
  }

  lemma QuotientIsUnique(n: int, m: int, q: int, r: int)
    requires m > 0 && n == q * m + r && 0 <= r < m
    ensures n / m == q && n % m == r
  {
    var d := n / m - q;
    assert n == (n / m) * m + n % m;
    assert d * m == r - n % m;
    assert d >= 1 ==> d * m >= m;
    assert d <= -1 ==> d * m <= -m;
  }

  lemma ModByteShift(n: nat, p: nat)
    requires p > 0
    ensures n % (256 * p) == (n / 256) % p * 256 + n % 256
    ensures n / (256 * p) == n / 256 / p
  {
    var q, r, s := n / 256 / p, n / 256 % p, n % 256;
    assert n / 256 == q * p + r;
    calc {
      n;
      (n / 256) * 256 + s;
      (q * p + r) * 256 + s;
      q * (256 * p) + (r * 256 + s);
    }
    QuotientIsUnique(n, 256 * p, q, r * 256 + s);
  }

  /** `n >> (8 * i)`. */
  function ShiftBytes(n: nat, i: nat): (r: nat)
  {
    if i == 0 then n else ShiftBytes(n / 256, i - 1)
  }

  lemma {:induction false} ShiftOneMore(n: nat, i: nat)
    ensures ShiftBytes(n, i + 1) == ShiftBytes(n, i) / 256
  {
    if i != 0 {
      ShiftOneMore(n / 256, i - 1);
    }
  }

  /** Reading back `w` big-endian bytes gives the number reduced to `8 * w` bits. */
  lemma {:induction false} BigEndianValue(n: nat, w: nat)
    ensures BeValue(BigEndian(n, w)) == n % Pow256(w)
  {
    if w != 0 {
      BigEndianValue(n / 256, w - 1);
      assert BigEndian(n, w)[..w - 1] == BigEndian(n / 256, w - 1);
      ModByteShift(n, Pow256(w - 1));
    }
  }

  /** Every byte string is the big-endian form of its value, which fits its width. */
  lemma {:induction false} BeValueBigEndian(b: seq<byte>)
    ensures BeValue(b) < Pow256(|b|)
    ensures BigEndian(BeValue(b), |b|) == b
  {
    if b != [] {
      var front := b[..|b| - 1];
      BeValueBigEndian(front);
      assert BeValue(b) / 256 == BeValue(front) && BeValue(b) % 256 == b[|b| - 1];
      assert front + [b[|b| - 1]] == b;
    }
  }

  lemma {:induction false} BeConcat(a: seq<byte>, b: seq<byte>)
    ensures BeValue(a + b) == BeValue(a) * Pow256(|b|) + BeValue(b)
    decreases |b|
  {
    if b == [] {
      assert a + b == a;
    } else {
      var front, n := b[..|b| - 1], |b| - 1;
      assert (a + b)[..|a + b| - 1] == a + front;
      BeConcat(a, front);
      Distributed(BeValue(a), Pow256(n), BeValue(front), b[n]);
    }
  }

  lemma Distributed(x: int, p: int, y: int, z: int)
    ensures (x * p + y) * 256 + z == x * (256 * p) + (y * 256 + z)
  {
  }

  function Two(a: byte, b: byte): (n: nat) { a * 256 + b }

  function Four(a: byte, b: byte, c: byte, d: byte): (n: nat) { ((a * 256 + b) * 256 + c) * 256 + d }

  lemma OneByte(s: seq<byte>)
    requires |s| == 1
    ensures BeValue(s) == s[0]
  {
    assert s[..0] == [];
    assert BeValue(s[..0]) == 0;
  }

  lemma ValueOfTwo(s: seq<byte>)
    requires |s| == 2
    ensures BeValue(s) == Two(s[0], s[1])
  {
    OneByte(s[..1]);
  }

  lemma ValueOfFour(s: seq<byte>)
    requires |s| == 4
    ensures BeValue(s) == Four(s[0], s[1], s[2], s[3])
  {
    assert s == s[..2] + s[2..];
    BeConcat(s[..2], s[2..]);
    ValueOfTwo(s[..2]);
    ValueOfTwo(s[2..]);
    Pow256Values();
  }
}
