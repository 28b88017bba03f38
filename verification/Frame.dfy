/** The 16-byte frame header and whole frames of the wire. */
module Frame {
  import opened Bytes

  const HEADER_LEN: nat := 16
  const MAX_PAYLOAD: nat := 16 * 1024 * 1024
  /** The flag bits 1, 2 and 4 are known: a 16-bit field holds no other bit exactly below 8. */
  const FLAG_LIMIT: nat := 8

  datatype Header = Header(version: nat, frameType: nat, streamId: nat, flags: nat, payloadLen: nat)

  datatype FrameError = ShortHeader | ReservedNonzero | UnknownFlag | PayloadTooLarge

  datatype Decoded = Ok(header: Header) | Err(error: FrameError)

  function EncodeHeader(h: Header): (b: seq<byte>)
    ensures |b| == HEADER_LEN
  {
    BigEndian(h.version, 2) + BigEndian(h.frameType, 2) + BigEndian(h.streamId, 4)
    + BigEndian(h.flags, 2) + BigEndian(0, 2) + BigEndian(h.payloadLen, 4)
  }

  function DecodeHeader(b: seq<byte>, maxPayload: nat): (r: Decoded)
  {
    if |b| < HEADER_LEN then Err(ShortHeader)
    else
      var h := Header(BeValue(b[0..2]), BeValue(b[2..4]), BeValue(b[4..8]), BeValue(b[8..10]), BeValue(b[12..16]));
      if BeValue(b[10..12]) != 0 then Err(ReservedNonzero)
      else if h.flags >= FLAG_LIMIT then Err(UnknownFlag)
      else if h.payloadLen > maxPayload then Err(PayloadTooLarge)
      else Ok(h)
  }

  /** The field widths of the header. */
  predicate InRange(h: Header) {
    && h.version < 0x1_0000 && h.frameType < 0x1_0000 && h.streamId < 0x1_0000_0000
    && h.flags < 0x1_0000 && h.payloadLen < 0x1_0000_0000
  }

  function Truncated(h: Header): (r: Header)
    ensures InRange(r)
    ensures InRange(h) ==> r == h
  {
    Header(h.version % 0x1_0000, h.frameType % 0x1_0000, h.streamId % 0x1_0000_0000,
           h.flags % 0x1_0000, h.payloadLen % 0x1_0000_0000)
  }

  lemma HeaderSlices(h: Header, rest: seq<byte>)
    ensures var b := EncodeHeader(h) + rest;
            && b[0..2] == BigEndian(h.version, 2) && b[2..4] == BigEndian(h.frameType, 2)
            && b[4..8] == BigEndian(h.streamId, 4) && b[8..10] == BigEndian(h.flags, 2)
            && b[10..12] == BigEndian(0, 2) && b[12..16] == BigEndian(h.payloadLen, 4)
  {
    Slices(BigEndian(h.version, 2), BigEndian(h.frameType, 2), BigEndian(h.streamId, 4),
           BigEndian(h.flags, 2), BigEndian(0, 2), BigEndian(h.payloadLen, 4), rest);
  }

  lemma Slices(a: seq<byte>, b: seq<byte>, c: seq<byte>, d: seq<byte>, e: seq<byte>, f: seq<byte>, rest: seq<byte>)
    requires |a| == 2 && |b| == 2 && |c| == 4 && |d| == 2 && |e| == 2 && |f| == 4
    ensures var s := a + b + c + d + e + f + rest;
            s[0..2] == a && s[2..4] == b && s[4..8] == c && s[8..10] == d && s[10..12] == e && s[12..16] == f
  {
  }

  /** Decoding an encoded header gives its fields cut to their widths, and is refused exactly for an
      unknown flag bit or a payload over the bound. */
  lemma HeaderReadBack(h: Header, rest: seq<byte>, maxPayload: nat)
    ensures DecodeHeader(EncodeHeader(h) + rest, maxPayload)
            == var t := Truncated(h);
               if t.flags >= FLAG_LIMIT then Err(UnknownFlag)
               else if t.payloadLen > maxPayload then Err(PayloadTooLarge)
               else Ok(t)
  {
    HeaderSlices(h, rest);
    Pow256Values();
    BigEndianValue(h.version, 2);
    BigEndianValue(h.frameType, 2);
    BigEndianValue(h.streamId, 4);
    BigEndianValue(h.flags, 2);
    BigEndianValue(0, 2);
    BigEndianValue(h.payloadLen, 4);
  }

  /** An accepted header is in range, and is the only header with those 16 bytes. */
  lemma AcceptedHeader(b: seq<byte>, maxPayload: nat)
    requires DecodeHeader(b, maxPayload).Ok?
    ensures var h := DecodeHeader(b, maxPayload).header;
            InRange(h) && h.flags < FLAG_LIMIT && h.payloadLen <= maxPayload && EncodeHeader(h) == b[..16]
  {
    Pow256Values();
    BeValueBigEndian(b[0..2]);
    BeValueBigEndian(b[2..4]);
    BeValueBigEndian(b[4..8]);
    BeValueBigEndian(b[8..10]);
    BeValueBigEndian(b[10..12]);
    BeValueBigEndian(b[12..16]);
    var h := DecodeHeader(b, maxPayload).header;
    assert EncodeHeader(h) == b[0..2] + b[2..4] + b[4..8] + b[8..10] + b[10..12] + b[12..16];
    Pieces(b);
  }

  lemma Pieces(b: seq<byte>)
    requires |b| >= 16
    ensures b[0..2] + b[2..4] + b[4..8] + b[8..10] + b[10..12] + b[12..16] == b[..16]
  {
  }

  lemma Shifts(n: nat)
    ensures n / 256 / 256 == n / 0x1_0000 && n / 0x1_0000 / 256 == n / 0x100_0000
  {
  }

  lemma TwoBytes(n: nat)
    ensures BigEndian(n, 2) == [n / 256 % 256, n % 256]
  {
    assert BigEndian(n / 256, 1) == BigEndian(n / 256 / 256, 0) + [n / 256 % 256];
  }

  lemma {:induction false} FourBytes(n: nat)
    ensures BigEndian(n, 4) == [n / 0x100_0000 % 256, n / 0x1_0000 % 256, n / 256 % 256, n % 256]
  {
    Shifts(n);
    TwoBytes(n / 256 / 256);
    assert BigEndian(n / 256, 3) == BigEndian(n / 256 / 256, 2) + [n / 256 % 256];
  }

  /** The layout, byte by byte: version, type, stream id, flags, two zero bytes, payload length, each most
      significant byte first. */
  lemma HeaderLayout(h: Header)
    ensures EncodeHeader(h) ==
              [h.version / 256 % 256, h.version % 256, h.frameType / 256 % 256, h.frameType % 256,
               h.streamId / 0x100_0000 % 256, h.streamId / 0x1_0000 % 256, h.streamId / 256 % 256, h.streamId % 256,
               h.flags / 256 % 256, h.flags % 256, 0, 0,
               h.payloadLen / 0x100_0000 % 256, h.payloadLen / 0x1_0000 % 256, h.payloadLen / 256 % 256,
               h.payloadLen % 256]
  {
    TwoBytes(h.version);
    TwoBytes(h.frameType);
    FourBytes(h.streamId);
    TwoBytes(h.flags);
    TwoBytes(0);
    FourBytes(h.payloadLen);
  }

  /** Which bytes are refused, and why: fewer than sixteen, a non-zero reserved byte, a flag bit above the
      third, or a payload over the bound, in this order. */
  lemma HeaderRefusal(b: seq<byte>, maxPayload: nat)
    ensures |b| < 16 ==> DecodeHeader(b, maxPayload) == Err(ShortHeader)
    ensures |b| >= 16 ==>
      var len := Four(b[12], b[13], b[14], b[15]);
      && (b[10] != 0 || b[11] != 0 ==> DecodeHeader(b, maxPayload) == Err(ReservedNonzero))
      && (b[10] == 0 && b[11] == 0 ==>
            if b[8] != 0 || b[9] >= 8 then DecodeHeader(b, maxPayload) == Err(UnknownFlag)
            else if len > maxPayload then DecodeHeader(b, maxPayload) == Err(PayloadTooLarge)
            else DecodeHeader(b, maxPayload).Ok?)
  {
    if |b| >= 16 {
      ValueOfTwo(b[10..12]);
      ValueOfTwo(b[8..10]);
      ValueOfFour(b[12..16]);
    }
  }

  lemma DecodeReadsHeaderOnly(b: seq<byte>, c: seq<byte>, maxPayload: nat)
    requires |b| >= HEADER_LEN
    ensures DecodeHeader(b + c, maxPayload) == DecodeHeader(b, maxPayload)
  {
    var s := b + c;
    assert s[0..2] == b[0..2] && s[2..4] == b[2..4] && s[4..8] == b[4..8];
    assert s[8..10] == b[8..10] && s[10..12] == b[10..12] && s[12..16] == b[12..16];
  }

  // ---- whole frames -------------------------------------------------------------------------------

  datatype WireFrame = WireFrame(header: Header, payload: seq<byte>)

  /** A frame a peer may send: header fields in range, and the declared length true and in bounds. */
  predicate ValidFrame(f: WireFrame) {
    && InRange(f.header) && f.header.flags < FLAG_LIMIT
    && f.header.payloadLen == |f.payload| <= MAX_PAYLOAD
  }

  function FrameBytes(f: WireFrame): (b: seq<byte>)
    ensures |b| == HEADER_LEN + |f.payload|
  {
    EncodeHeader(f.header) + f.payload
  }

  method SetUint(a: array<byte>, off: nat, value: nat, w: nat)
    requires off + w <= a.Length
    modifies a
    ensures a[off..] == BigEndian(value, w) + old(a[off + w..])
    ensures a[..off] == old(a[..off])
  {
    var bytes := BigEndian(value, w);
    forall i | 0 <= i < w {
      a[off + i] := bytes[i];
    }
  }

  lemma Regroup(a: seq<byte>, b: seq<byte>, c: seq<byte>, d: seq<byte>, e: seq<byte>, f: seq<byte>)
    ensures a + (b + (c + (d + (e + (f + []))))) == a + b + c + d + e + f
  {
  }

  method HeaderArray(h: Header) returns (a: array<byte>)
    ensures a[..] == EncodeHeader(h) && fresh(a)
  {
    a := new byte[HEADER_LEN];
    SetUint(a, 12, h.payloadLen, 4);
    ghost var lenBytes := a[12..];
    SetUint(a, 10, 0, 2);
    ghost var from10 := a[10..];
    SetUint(a, 8, h.flags, 2);
    ghost var from8 := a[8..];
    SetUint(a, 4, h.streamId, 4);
    ghost var from4 := a[4..];
    SetUint(a, 2, h.frameType, 2);
    ghost var from2 := a[2..];
    SetUint(a, 0, h.version, 2);
    assert a[..] == a[0..];
    Regroup(BigEndian(h.version, 2), BigEndian(h.frameType, 2), BigEndian(h.streamId, 4),
            BigEndian(h.flags, 2), BigEndian(0, 2), BigEndian(h.payloadLen, 4));
  }

  /** `encodeFrame`: the header's declared length is the payload's own, and `reserved` is zero. */
  method EncodeFrame(version: nat, frameType: nat, streamId: nat, flags: nat, payload: seq<byte>)
      returns (out: array<byte>)
    ensures out[..] == FrameBytes(WireFrame(Header(version, frameType, streamId, flags, |payload|), payload))
  {
    var head := HeaderArray(Header(version, frameType, streamId, flags, |payload|));
    ghost var header := head[..];
    out := new byte[HEADER_LEN + |payload|];
    forall i | 0 <= i < HEADER_LEN {
      out[i] := head[i];
    }
    forall i | 0 <= i < |payload| {
      out[HEADER_LEN + i] := payload[i];
    }
    assert out[..] == header + payload;
  }
}
