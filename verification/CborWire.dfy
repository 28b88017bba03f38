/**
 * What the decoder makes of the bytes themselves, head by head (RFC 8949 section 3): every initial byte,
 * those the encoder never writes included, whatever follows the item.
 */
module CborWire {
  import opened Bytes
  import opened Doubles
  import opened Cbor
  import opened CborRoundTrip
  import Halves
  import Utf8

  // ---- heads --------------------------------------------------------------------------------------

  lemma EightBytes(s: seq<byte>)
    requires |s| == 8
    ensures BeValue(s) == Four(s[0], s[1], s[2], s[3]) * 0x1_0000_0000 + Four(s[4], s[5], s[6], s[7])
  {
    assert s == s[..4] + s[4..];
    BeConcat(s[..4], s[4..]);
    ValueOfFour(s[..4]);
    ValueOfFour(s[4..]);
    Pow256Values();
  }

  /** The low five bits of the first byte, and the bytes they announce, say `n` in `k` bytes. */
  predicate HeadSays(b: seq<byte>, n: nat, k: nat) {
    b != [] &&
    var low := b[0] % 32;
    || (low < 24 && k == 1 && n == low)
    || (low == 24 && k == 2 <= |b| && n == b[1])
    || (low == 25 && k == 3 <= |b| && n == Two(b[1], b[2]))
    || (low == 26 && k == 5 <= |b| && n == Four(b[1], b[2], b[3], b[4]))
    || (low == 27 && k == 9 <= |b|
        && n == Four(b[1], b[2], b[3], b[4]) * 0x1_0000_0000 + Four(b[5], b[6], b[7], b[8]))
  }

  lemma ArgSlice(b: seq<byte>, k: nat)
    requires 1 <= k <= |b|
    ensures b[1..][..k - 1] == b[1..k] && b[1..][k - 1..] == b[k..]
  {
  }

  lemma ArgIsRead(b: seq<byte>, n: nat, k: nat)
    requires HeadSays(b, n, k)
    ensures k <= |b| && ReadArg(b[0] % 32, b[1..]) == Ok(n, b[k..])
  {
    ArgSlice(b, k);
    var low, bytes := b[0] % 32, b[1..k];
    if low == 24 {
      OneByte(bytes);
    } else if low == 25 {
      ValueOfTwo(bytes);
    } else if low == 26 {
      ValueOfFour(bytes);
    } else if low == 27 {
      EightBytes(bytes);
    }
  }

  /** A head announces more bytes than there are. */
  predicate HeadCutShort(b: seq<byte>) {
    b == [] ||
    var low := b[0] % 32;
    || (low == 24 && |b| < 2) || (low == 25 && |b| < 3) || (low == 26 && |b| < 5) || (low == 27 && |b| < 9)
  }

  // ---- integers -----------------------------------------------------------------------------------

  /** 00 to 1B count up from 0, and 20 to 3B count down from -1. */
  lemma IntegerIsRead(h: Host, b: seq<byte>, n: nat, k: nat)
    requires HeadSays(b, n, k) && b[0] < 0x40
    ensures k <= |b| && ReadItem(h, b) == Ok(Int(if b[0] < 0x20 then n else -1 - n), b[k..])
  {
    ArgIsRead(b, n, k);
    ItemFromHead(h, b, b[0] / 32, n, b[k..]);
  }

  // ---- byte strings and texts ---------------------------------------------------------------------

  /** The next `len` bytes as they are, or the text they decode to. */
  function StringAt(b: seq<byte>, k: nat, len: nat, raw: bool): (r: Parsed<Value>) {
    if k + len > |b| then Err(EndOfInput)
    else if raw then Ok(ByteString(b[k..k + len]), b[k + len..])
    else match Utf8.DecodeText(b[k..k + len])
      case Some(s) => Ok(Text(s), b[k + len..])
      case None => Err(BadUtf8)
  }

  /** 40 to 5B are the next bytes as they are, 60 to 7B the text they decode to, if they are there. */
  lemma StringIsRead(h: Host, b: seq<byte>, n: nat, k: nat)
    requires HeadSays(b, n, k) && 0x40 <= b[0] < 0x80
    ensures ReadItem(h, b) == StringAt(b, k, h.round(n), b[0] < 0x60)
  {
    ArgIsRead(b, n, k);
    ItemFromHead(h, b, b[0] / 32, n, b[k..]);
    BytesAre(b, k, b[0] / 32, h.round(n));
  }

  lemma BytesAre(b: seq<byte>, k: nat, major: nat, len: nat)
    requires k <= |b|
    ensures ReadBytes(major, len, b[k..]) == StringAt(b, k, len, major == 2)
  {
    if k + len <= |b| {
      assert b[k..][..len] == b[k..k + len] && b[k..][len..] == b[k + len..];
    }
  }

  // ---- floats -------------------------------------------------------------------------------------

  /** The value is the number with these bits: the integer the bits denote, one NaN for all, and -0, the
      infinities and every other number as they are. */
  ghost predicate Denotes(v: Value, bits: Bits64) {
    if IsNaN(bits) then v == Float([0x7F, 0xF8, 0, 0, 0, 0, 0, 0])
    else if bits == [0x80, 0, 0, 0, 0, 0, 0, 0] || Exponent(bits) == 2047 then v == Float(bits)
    else if v.Int? then v.i * Denominator(bits) == SignedNumerator(bits)
    else v == Float(bits) && forall n: int {:trigger n * Denominator(bits)} ::
                               n * Denominator(bits) != SignedNumerator(bits)
  }

  lemma NumberDenotes(bits: Bits64)
    ensures Denotes(NumberOf(bits), bits)
  {
    if Exponent(bits) != 2047 {
      match Integral(bits)
      case Some(n) => IntegralIsExact(bits, n);
      case None =>
        forall n: int ensures n * Denominator(bits) != SignedNumerator(bits) {
          IntegralIsExact(bits, n);
        }
    }
  }

  predicate FloatHead(lead: byte, width: nat) {
    (lead == 0xF9 && width == 2) || (lead == 0xFA && width == 4) || (lead == 0xFB && width == 8)
  }

  /** F9, FA and FB are the numbers of the next two, four and eight bytes. */
  lemma FloatIsRead(h: Host, lead: byte, x: seq<byte>, w: Bits64, rest: seq<byte>)
    requires FloatHead(lead, |x|) && (if lead == 0xFB then w == x else h.widen(x) == Some(w))
    ensures var r := ReadItem(h, [lead] + x + rest); r.Ok? && r.rest == rest && Denotes(r.value, w)
  {
    var b := [lead] + x + rest;
    assert b[1..] == x + rest;
    assert (x + rest)[..|x|] == x && (x + rest)[|x|..] == rest;
    NumberDenotes(w);
  }

  /** They run out with the input, and a forbidden width is refused. */
  lemma FloatIsRefused(h: Host, lead: byte, width: nat, x: seq<byte>)
    requires FloatHead(lead, width)
    ensures |x| < width ==> ReadItem(h, [lead] + x) == Err(EndOfInput)
    ensures |x| >= width && width < 8 && h.widen(x[..width]).None? ==> ReadItem(h, [lead] + x) == Err(NarrowFloat)
  {
    assert ([lead] + x)[1..] == x;
  }

  /** So the bytes of a half are the number `decodeFloat16` computes from them. */
  lemma HalfIsRead(h: Host, x: seq<byte>, rest: seq<byte>)
    requires |x| == 2 && h.widen(x) == Some(Halves.Widened(x))
    ensures var r := ReadItem(h, [0xF9] + x + rest); r.Ok? && r.rest == rest && Denotes(r.value, Halves.Widened(x))
  {
    FloatIsRead(h, 0xF9, x, Halves.Widened(x), rest);
  }

  /** F9 3E 00 has the bits of the double 1.5. */
  lemma OneAndAHalf()
    ensures Halves.Widened([0x3E, 0]) == [0x3F, 0xF8, 0, 0, 0, 0, 0, 0]
  {
    assert Halves.HalfExponent([0x3E, 0]) == 15;
    assert Halves.HalfMantissa([0x3E, 0]) == 512;
  }

  // ---- the other simple values and what is refused ------------------------------------------------

  /** F4 is false, F5 true, and F6 and F7, JavaScript's undefined, are null. */
  lemma SimpleIsRead(h: Host, rest: seq<byte>)
    ensures ReadItem(h, [0xF4] + rest) == Ok(Bool(false), rest)
    ensures ReadItem(h, [0xF5] + rest) == Ok(Bool(true), rest)
    ensures ReadItem(h, [0xF6] + rest) == Ok(Null, rest)
    ensures ReadItem(h, [0xF7] + rest) == Ok(Null, rest)
  {
    assert ([0xF4] + rest)[1..] == ([0xF5] + rest)[1..] == ([0xF6] + rest)[1..] == ([0xF7] + rest)[1..] == rest;
  }

  /** Every other initial byte is refused by name: tags, other simple values, and lengths that are reserved
      or indefinite; and so is a head or an input that ends early. */
  lemma HeadIsRefused(h: Host, b: seq<byte>)
    ensures b != [] && 0xC0 <= b[0] < 0xE0 ==> ReadItem(h, b) == Err(UnsupportedMajor(6))
    ensures b != [] && (0xE0 <= b[0] < 0xF4 || b[0] == 0xF8 || 0xFC <= b[0]) ==>
              ReadItem(h, b) == Err(UnsupportedSimple(b[0] - 0xE0))
    ensures b != [] && b[0] < 0xC0 && b[0] % 32 >= 28 ==> ReadItem(h, b) == Err(UnsupportedInfo(b[0] % 32))
    ensures (b == [] || b[0] < 0xC0) && HeadCutShort(b) ==> ReadItem(h, b) == Err(EndOfInput)
  {
  }

  /** No initial byte is left over: each is read by one of the laws above, begins an array or a map, or is
      refused. */
  lemma EveryHead(b: seq<byte>)
    ensures
      || HeadCutShort(b)
      || (exists n, k :: HeadSays(b, n, k))
      || b[0] % 32 >= 28
  {
    if !HeadCutShort(b) {
      var low := b[0] % 32;
      if low < 24 {
        assert HeadSays(b, low, 1);
      } else if low == 24 {
        assert HeadSays(b, b[1], 2);
      } else if low == 25 {
        assert HeadSays(b, Two(b[1], b[2]), 3);
      } else if low == 26 {
        assert HeadSays(b, Four(b[1], b[2], b[3], b[4]), 5);
      } else if low == 27 {
        assert HeadSays(b, Four(b[1], b[2], b[3], b[4]) * 0x1_0000_0000 + Four(b[5], b[6], b[7], b[8]), 9);
      }
    }
  }

  // ---- map keys -----------------------------------------------------------------------------------

  /** A pair of a map is a property named by its key: a text as it is, any other key as the host names it. */
  lemma PairIsRead(h: Host, b: seq<byte>, k: Value, afterKey: seq<byte>, v: Value, rest: seq<byte>,
                   name: Option<string>)
    requires b != [] && b[0] == 0xA1 && h.round(1) == 1
    requires ReadItem(h, b[1..]) == Ok(k, afterKey) && ReadItem(h, afterKey) == Ok(v, rest)
    requires name == if k.Text? then Some(k.s) else h.keyText(k)
    ensures name.None? ==> ReadItem(h, b) == Err(BadKey)
    ensures name.Some? && name.value != "__proto__" ==> ReadItem(h, b) == Ok(Obj([Entry(name.value, v)]), rest)
  {
    ItemFromHead(h, b, 5, 1, b[1..]);
    if name.Some? && name.value != "__proto__" {
      assert Assign(h.guards, EMPTY, name.value, v) == Record([Entry(name.value, v)], Standard);
      OnePair(h, b[1..], name.value, afterKey, v, rest);
    } else if name.None? {
      assert ReadKey(h, b[1..]) == Err(BadKey);
      assert ReadEntries(h, 1, b[1..], EMPTY) == Err(BadKey);
    }
  }

  lemma OnePair(h: Host, b: seq<byte>, name: string, afterKey: seq<byte>, v: Value, rest: seq<byte>)
    requires ReadKey(h, b) == Ok(name, afterKey) && ReadItem(h, afterKey) == Ok(v, rest)
    requires Assign(h.guards, EMPTY, name, v).Record?
    ensures ReadEntries(h, 1, b, EMPTY) == Ok(Assign(h.guards, EMPTY, name, v), rest)
  {
  }

  // ---- what a double is written as ----------------------------------------------------------------

  /** A wrapped float keeps its eight bytes behind FB, integral or not. */
  lemma WrappedIsWritten(bits: Bits64)
    ensures Encode(Wrapped(bits)) == [0xFB] + bits
  {
  }

  // ---- repeated keys ------------------------------------------------------------------------------

  /** The value of a property. */
  function PropertyOf(es: seq<Entry>, k: string): (r: Option<Value>) {
    if es == [] then None else if es[0].key == k then Some(es[0].value) else PropertyOf(es[1..], k)
  }

  /** Assigning a property gives it the new value, adds no second one, and changes no other. */
  lemma {:induction false} PutSets(es: seq<Entry>, k: string, v: Value, other: string)
    requires Ordered(es)
    ensures PropertyOf(Put(es, k, v), k) == Some(v)
    ensures other != k ==> PropertyOf(Put(es, k, v), other) == PropertyOf(es, other)
    ensures |Put(es, k, v)| == |es| + if PropertyOf(es, k).None? then 1 else 0
  {
    var r := Put(es, k, v);
    if es == [] {
      assert r[1..] == [];
    } else if es[0].key == k {
      assert r[1..] == es[1..];
    } else if Before(k, es[0].key) {
      assert r[1..] == es;
      AbsentBefore(es, k);
    } else {
      assert r[1..] == Put(es[1..], k, v);
      PutSets(es[1..], k, v, other);
    }
  }

  lemma {:induction false} AbsentBefore(es: seq<Entry>, k: string)
    requires forall i | 0 <= i < |es| :: es[i].key != k
    ensures PropertyOf(es, k) == None
  {
    if es != [] {
      AbsentBefore(es[1..], k);
    }
  }

  /** What an assignment meets above the record: with no prototype every name is free, an own property of
      the prototype hides what is above it, and a name a byte array guards is ignored or throws. */
  lemma AssignMeets(g: Guards, own: seq<Entry>, k: string, v: Value)
    requires Ordered(own) && !HasKey(own, k)
    ensures Assign(g, Record(own, Nothing), k, v) == Record(Put(own, k, v), Nothing)
    ensures forall es :: HasKey(es, k) ==>
              Assign(g, Record(own, Is(Obj(es))), k, v) == Record(Put(own, k, v), Is(Obj(es)))
    ensures forall bytes: seq<byte> {:trigger ByteString(bytes)} :: k != "__proto__" ==>
              var r := Record(own, Is(ByteString(bytes)));
              match g(|bytes|, k)
              case Ignored => Assign(g, r, k, v) == r
              case Throws => Assign(g, r, k, v) == Broken
              case Free => Assign(g, r, k, v) == r.(own := Put(own, k, v))
              case Accessor => true
  {
  }
}
