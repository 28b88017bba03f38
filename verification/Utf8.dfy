/** UTF-8 text as the wire codec writes it (`TextEncoder`) and reads it (a fatal `TextDecoder`). */
module Utf8 {
  import opened Bytes

  const BOM: char := '\U{FEFF}'

  /** The UTF-8 form of one Unicode scalar value. */
  function EncodeChar(c: char): (b: seq<byte>)
    ensures 1 <= |b| <= 4
  {
    var n := c as int;
    if n < 0x80 then [n]
    else if n < 0x800 then [0xC0 + n / 64, 0x80 + n % 64]
    else if n < 0x1_0000 then [0xE0 + n / 4096, 0x80 + n / 64 % 64, 0x80 + n % 64]
    else [0xF0 + n / 262144, 0x80 + n / 4096 % 64, 0x80 + n / 64 % 64, 0x80 + n % 64]
  }

  function EncodeText(s: string): (b: seq<byte>)
  {
    if s == "" then [] else EncodeChar(s[0]) + EncodeText(s[1..])
  }

  predicate Continuation(x: byte) {
    0x80 <= x < 0xC0
  }

  /** The payload of a lead or continuation byte, `base` being its fixed bits. */
  function Payload(x: byte, base: int): int {
    x - base
  }

  predicate Scalar(n: int) {
    0 <= n < 0xD800 || 0xE000 <= n < 0x11_0000
  }

  /** The scalar value that starts `b`, and the bytes after it; `None` on ill-formed input. */
  function DecodeChar(b: seq<byte>): (r: Option<(char, seq<byte>)>)
    requires b != []
    ensures r.Some? ==> |r.value.1| < |b|
  {
    var x := b[0];
    if x < 0x80 then
      Some((x as char, b[1..]))
    else if 0xC2 <= x < 0xE0 && |b| >= 2 && Continuation(b[1]) then
      Some(((Payload(x, 0xC0) * 64 + Payload(b[1], 0x80)) as char, b[2..]))
    else if 0xE0 <= x < 0xF0 && |b| >= 3 && Continuation(b[1]) && Continuation(b[2]) then
      var n := Payload(x, 0xE0) * 4096 + Payload(b[1], 0x80) * 64 + Payload(b[2], 0x80);
      if n >= 0x800 && Scalar(n) then Some((n as char, b[3..])) else None
    else if 0xF0 <= x < 0xF5 && |b| >= 4 && Continuation(b[1]) && Continuation(b[2]) && Continuation(b[3]) then
      var n := Payload(x, 0xF0) * 262144 + Payload(b[1], 0x80) * 4096 + Payload(b[2], 0x80) * 64 + Payload(b[3], 0x80);
      if n >= 0x1_0000 && Scalar(n) then Some((n as char, b[4..])) else None
    else
      None
  }

  function DecodeScalars(b: seq<byte>): (r: Option<string>)
    decreases |b|
  {
    if b == [] then Some("")
    else
      match DecodeChar(b)
      case None => None
      case Some((c, rest)) =>
        match DecodeScalars(rest)
        case None => None
        case Some(s) => Some([c] + s)
  }

  function StripBom(s: string): (r: string)
    ensures |r| <= |s|
  {
    if s != "" && s[0] == BOM then s[1..] else s
  }

  /** `new TextDecoder('utf-8', { fatal: true }).decode`: a leading byte order mark is dropped. */
  function DecodeText(b: seq<byte>): (r: Option<string>)
  {
    DecodeScalars(if |b| >= 3 && b[..3] == [0xEF, 0xBB, 0xBF] then b[3..] else b)
  }

  lemma Shifts(n: nat)
    ensures n / 64 / 64 == n / 4096 && n / 4096 / 64 == n / 262144
  {
  }

  /** The number a lead byte, less its fixed bits, and continuation bytes spell, six bits at a time. */
  function Spelled(b: seq<byte>, base: int): (n: int)
    requires b != []
  {
    if |b| == 1 then Payload(b[0], base) else Spelled(b[..|b| - 1], base) * 64 + Payload(b[|b| - 1], 0x80)
  }

  lemma SpelledSnoc(b: seq<byte>, x: byte, base: int)
    requires b != []
    ensures Spelled(b + [x], base) == Spelled(b, base) * 64 + Payload(x, 0x80)
  {
    assert (b + [x])[..|b|] == b;
  }

  lemma SixBitsBack(n: nat)
    ensures n / 64 * 64 + n % 64 == n
  {
  }

  lemma SpellsTwo(n: nat, base: byte)
    requires base + n / 64 < 256
    ensures Spelled([base + n / 64, 0x80 + n % 64], base) == n
  {
    var b: seq<byte> := [base + n / 64];
    SpelledSnoc(b, 0x80 + n % 64, base);
    assert b + [0x80 + n % 64] == [base + n / 64, 0x80 + n % 64];
    SixBitsBack(n);
  }

  lemma SpellsThree(n: nat, base: byte)
    requires base + n / 4096 < 256
    ensures Spelled([base + n / 4096, 0x80 + n / 64 % 64, 0x80 + n % 64], base) == n
  {
    Shifts(n);
    SpellsTwo(n / 64, base);
    var b: seq<byte> := [base + n / 4096, 0x80 + n / 64 % 64];
    SpelledSnoc(b, 0x80 + n % 64, base);
    assert b + [0x80 + n % 64] == [base + n / 4096, 0x80 + n / 64 % 64, 0x80 + n % 64];
    SixBitsBack(n);
  }

  lemma SpellsFour(n: nat, base: byte)
    requires base + n / 262144 < 256
    ensures Spelled([base + n / 262144, 0x80 + n / 4096 % 64, 0x80 + n / 64 % 64, 0x80 + n % 64], base) == n
  {
    Shifts(n);
    Shifts(n / 64);
    SpellsThree(n / 64, base);
    var b: seq<byte> := [base + n / 262144, 0x80 + n / 4096 % 64, 0x80 + n / 64 % 64];
    SpelledSnoc(b, 0x80 + n % 64, base);
    assert b + [0x80 + n % 64] == [base + n / 262144, 0x80 + n / 4096 % 64, 0x80 + n / 64 % 64, 0x80 + n % 64];
    SixBitsBack(n);
  }

  /** The form of a scalar value (section 3 of RFC 3629): one byte below 80, else two bytes below 800, three
      below 10000 and four from there, whose lead byte has C0, E0 or F0 added and which spell the value. */
  lemma CharForm(c: char)
    ensures var b, n := EncodeChar(c), c as int;
            && |b| == (if n < 0x80 then 1 else if n < 0x800 then 2 else if n < 0x1_0000 then 3 else 4)
            && Spelled(b, if |b| == 1 then 0 else if |b| == 2 then 0xC0 else if |b| == 3 then 0xE0 else 0xF0) == n
            && forall i | 1 <= i < |b| :: Continuation(b[i])
  {
    var n := c as int;
    if 0x80 <= n < 0x800 {
      SpellsTwo(n, 0xC0);
    } else if 0x800 <= n < 0x1_0000 {
      SpellsThree(n, 0xE0);
    } else if n >= 0x1_0000 {
      SpellsFour(n, 0xF0);
    }
  }

  lemma DecodeEncodedChar(c: char, rest: seq<byte>)
    ensures DecodeChar(EncodeChar(c) + rest) == Some((c, rest))
  {
    var b := EncodeChar(c) + rest;
    assert b[|EncodeChar(c)|..] == rest;
    var n := c as int;
    if 0x800 <= n < 0x1_0000 {
      assert n / 64 / 64 == n / 4096;
    } else if n >= 0x1_0000 {
      assert n / 64 / 64 == n / 4096 && n / 4096 / 64 == n / 262144;
    }
  }

  lemma SixBits(hi: nat, lo: int)
    requires 0 <= lo < 64
    ensures (hi * 64 + lo) / 64 == hi && (hi * 64 + lo) % 64 == lo
  {
  }

  lemma ThreeByteDigits(x: nat, y: nat, z: nat)
    requires y < 64 && z < 64
    ensures var n := x * 4096 + y * 64 + z; n / 4096 == x && n / 64 % 64 == y && n % 64 == z
  {
    SixBits(x, y);
    SixBits(x * 64 + y, z);
    var n := x * 4096 + y * 64 + z;
    assert n == (x * 64 + y) * 64 + z;
    assert n / 64 == x * 64 + y;
    assert n / 4096 == n / 64 / 64;
  }

  lemma FourByteDigits(w: nat, x: nat, y: nat, z: nat)
    requires x < 64 && y < 64 && z < 64
    ensures var n := w * 262144 + x * 4096 + y * 64 + z;
            n / 262144 == w && n / 4096 % 64 == x && n / 64 % 64 == y && n % 64 == z
  {
    ThreeByteDigits(w * 64 + x, y, z);
    SixBits(w, x);
    var n := w * 262144 + x * 4096 + y * 64 + z;
    assert n == (w * 64 + x) * 4096 + y * 64 + z;
    assert n / 262144 == n / 4096 / 64;
  }

  lemma EncodeDecodedChar(b: seq<byte>)
    requires b != [] && DecodeChar(b).Some?
    ensures EncodeChar(DecodeChar(b).value.0) + DecodeChar(b).value.1 == b
  {
    var (c, rest) := DecodeChar(b).value;
    var k := |b| - |rest|;
    assert b == b[..k] + b[k..];
    if b[0] < 0x80 {
      assert b[..1] == EncodeChar(c);
    } else if b[0] < 0xE0 {
      SixBits(Payload(b[0], 0xC0), Payload(b[1], 0x80));
      assert b[..2] == EncodeChar(c);
    } else if b[0] < 0xF0 {
      ThreeByteDigits(Payload(b[0], 0xE0), Payload(b[1], 0x80), Payload(b[2], 0x80));
      assert b[..3] == EncodeChar(c);
    } else {
      FourByteDigits(Payload(b[0], 0xF0), Payload(b[1], 0x80), Payload(b[2], 0x80), Payload(b[3], 0x80));
      assert b[..4] == EncodeChar(c);
    }
  }

  lemma {:induction false} DecodeEncodedScalars(s: string)
    ensures DecodeScalars(EncodeText(s)) == Some(s)
  {
    if s != "" {
      DecodeEncodedChar(s[0], EncodeText(s[1..]));
      DecodeEncodedScalars(s[1..]);
      assert [s[0]] + s[1..] == s;
    }
  }

  /** UTF-8 has one form per text: what decodes was the encoding of the result. */
  lemma {:induction false} EncodeDecodedScalars(b: seq<byte>)
    requires DecodeScalars(b).Some?
    ensures EncodeText(DecodeScalars(b).value) == b
    decreases |b|
  {
    if b != [] {
      var (c, rest) := DecodeChar(b).value;
      EncodeDecodedChar(b);
      EncodeDecodedScalars(rest);
      assert DecodeScalars(b).value[1..] == DecodeScalars(rest).value;
    }
  }

  lemma BomBytes(s: string)
    ensures (|EncodeText(s)| >= 3 && EncodeText(s)[..3] == [0xEF, 0xBB, 0xBF]) <==> (s != "" && s[0] == BOM)
    ensures s != "" && s[0] == BOM ==> EncodeText(s)[3..] == EncodeText(s[1..])
  {
    if s != "" {
      var b, n := EncodeText(s), s[0] as int;
      if |b| >= 3 && b[..3] == [0xEF, 0xBB, 0xBF] {
        assert b[0] == b[..3][0] && b[1] == b[..3][1] && b[2] == b[..3][2];
        assert EncodeChar(s[0])[0] == b[0];
        assert 0x800 <= n < 0x1_0000;
        assert EncodeChar(s[0])[1] == b[1] && EncodeChar(s[0])[2] == b[2];
      }
      if s[0] == BOM {
        assert EncodeChar(s[0]) == [0xEF, 0xBB, 0xBF];
      }
    }
  }

  /** Text survives the wire except for a leading byte order mark. */
  lemma TextReadBack(s: string)
    ensures DecodeText(EncodeText(s)) == Some(StripBom(s))
  {
    BomBytes(s);
    DecodeEncodedScalars(StripBom(s));
  }

  /** Re-encoding decoded text never needs more bytes than were read. */
  lemma DecodedTextIsNoLonger(b: seq<byte>)
    requires DecodeText(b).Some?
    ensures |EncodeText(DecodeText(b).value)| <= |b|
  {
    EncodeDecodedScalars(if |b| >= 3 && b[..3] == [0xEF, 0xBB, 0xBF] then b[3..] else b);
  }
}
