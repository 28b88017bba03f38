/** The decoder on arbitrary bytes: what it returns, what it costs, and what re-encoding gives. */
module CborDecode {
  import opened Bytes
  import opened Doubles
  import opened Cbor
  import opened CborRoundTrip
  import Utf8

  // ---- the shape of decoded values ----------------------------------------------------------------

  /** What every decoded value satisfies: no wrappers, numbers as they are, and records with distinct
      keys in property order. */
  ghost predicate Settled(v: Value) {
    match v
    case Float(bits) => NumberOf(bits) == v
    case Wrapped(_) => false
    case Arr(items) => forall i | 0 <= i < |items| :: Settled(items[i])
    case Obj(es) => Ordered(es) && forall i | 0 <= i < |es| :: Settled(es[i].value)
    case Heir(es, _) => Ordered(es) && forall i | 0 <= i < |es| :: Settled(es[i].value)
    case _ => true
  }

  ghost predicate SettledEntries(es: seq<Entry>) {
    Ordered(es) && forall i | 0 <= i < |es| :: Settled(es[i].value)
  }

  lemma NumberIsSettled(bits: Bits64)
    ensures Settled(NumberOf(bits))
  {
    CanonicalNaN();
    NaNIsNotIntegral(NAN);
  }

  lemma {:induction false} PutSettled(es: seq<Entry>, k: string, v: Value)
    requires (forall i | 0 <= i < |es| :: Settled(es[i].value)) && Settled(v)
    ensures forall i | 0 <= i < |Put(es, k, v)| :: Settled(Put(es, k, v)[i].value)
  {
    if es != [] && es[0].key != k && !Before(k, es[0].key) {
      PutSettled(es[1..], k, v);
    }
  }

  lemma AssignSettled(g: Guards, r: Record, k: string, v: Value)
    requires r.Record? && SettledEntries(r.own) && Settled(v)
    ensures Assign(g, r, k, v).Record? ==> SettledEntries(Assign(g, r, k, v).own)
  {
    PutSettled(r.own, k, v);
    PutOrdered(r.own, k, v);
  }

  lemma SimpleSettled(h: Host, ai: nat, b: seq<byte>)
    ensures ReadSimple(h, ai, b).Ok? ==> Settled(ReadSimple(h, ai, b).value)
  {
    if 25 <= ai < 28 && Take(ArgWidth(ai), b).Ok? {
      var bytes := Take(ArgWidth(ai), b).value;
      var bits := if ai == 27 then Some(bytes) else h.widen(bytes);
      if bits.Some? {
        NumberIsSettled(bits.value);
      }
    }
  }

  /** Every decoded value is settled. */
  lemma {:induction false} ItemSettled(h: Host, b: seq<byte>)
    ensures ReadItem(h, b).Ok? ==> Settled(ReadItem(h, b).value)
    decreases |b|, 0
  {
    if b != [] && b[0] / 32 == 7 {
      SimpleSettled(h, b[0] % 32, b[1..]);
    } else if b != [] && b[0] / 32 < 6 && ReadArg(b[0] % 32, b[1..]).Ok? {
      var Ok(n, rest) := ReadArg(b[0] % 32, b[1..]);
      ItemFromHead(h, b, b[0] / 32, n, rest);
      BodySettled(h, b[0] / 32, n, rest);
    }
  }

  lemma {:induction false} BodySettled(h: Host, major: nat, n: nat, b: seq<byte>)
    requires major < 6
    ensures ReadBody(h, major, n, b).Ok? ==> Settled(ReadBody(h, major, n, b).value)
    decreases |b|, 3
  {
    if major == 4 {
      ItemsSettled(h, h.round(n), b);
    } else if major == 5 {
      EntriesSettled(h, h.round(n), b, EMPTY);
    }
  }

  lemma {:induction false} ItemsSettled(h: Host, n: nat, b: seq<byte>)
    ensures ReadItems(h, n, b).Ok? ==> forall i | 0 <= i < n :: Settled(ReadItems(h, n, b).value[i])
    decreases |b|, 1
  {
    if n != 0 {
      ItemSettled(h, b);
      match ReadItem(h, b)
      case Err(_) =>
      case Ok(v, rest) => ItemsSettled(h, n - 1, rest);
    }
  }

  lemma {:induction false} EntriesSettled(h: Host, n: nat, b: seq<byte>, acc: Record)
    requires acc.Record? && SettledEntries(acc.own)
    ensures var p := ReadEntries(h, n, b, acc); p.Ok? && p.value.Record? ==> SettledEntries(p.value.own)
    decreases |b|, 2
  {
    if n != 0 && ReadKey(h, b).Ok? {
      var Ok(k, rest) := ReadKey(h, b);
      ItemSettled(h, rest);
      match ReadItem(h, rest)
      case Err(_) =>
      case Ok(v, rest') =>
        AssignSettled(h.guards, acc, k, v);
        var acc' := Assign(h.guards, acc, k, v);
        if acc'.Record? {
          EntriesSettled(h, n - 1, rest', acc');
        }
    }
  }

  lemma {:induction false} SettledIsUnwrapped(v: Value)
    requires Settled(v)
    ensures Unwrapped(v) == v
    decreases v, 1
  {
    match v
    case Arr(items) => SettledItemsUnwrapped(items);
    case Obj(es) => SettledEntriesUnwrapped(es);
    case Heir(es, _) => SettledEntriesUnwrapped(es);
    case _ =>
  }

  lemma {:induction false} SettledItemsUnwrapped(items: seq<Value>)
    requires forall i | 0 <= i < |items| :: Settled(items[i])
    ensures UnwrappedItems(items) == items
    decreases items, 0
  {
    if items != [] {
      SettledIsUnwrapped(items[0]);
      SettledItemsUnwrapped(items[1..]);
      assert items == [items[0]] + items[1..];
    }
  }

  lemma {:induction false} SettledEntriesUnwrapped(es: seq<Entry>)
    requires forall i | 0 <= i < |es| :: Settled(es[i].value)
    ensures UnwrappedEntries(es) == es
    decreases es, 0
  {
    if es != [] {
      SettledIsUnwrapped(es[0].value);
      SettledEntriesUnwrapped(es[1..]);
      assert es == [es[0]] + es[1..];
    }
  }

  // ---- size ---------------------------------------------------------------------------------------

  /** The items of a value: itself, its elements, each key and value of a record, and its prototype. */
  ghost function Nodes(v: Value): (n: nat)
    decreases v, 1
  {
    match v
    case Arr(items) => 1 + ItemsNodes(items)
    case Obj(es) => 1 + EntriesNodes(es)
    case Heir(es, parent) => 1 + EntriesNodes(es) + if parent.Some? then Nodes(parent.value) else 0
    case _ => 1
  }

  ghost function ItemsNodes(items: seq<Value>): nat
    decreases items, 0
  {
    if items == [] then 0 else Nodes(items[0]) + ItemsNodes(items[1..])
  }

  ghost function EntriesNodes(es: seq<Entry>): nat
    decreases es, 0
  {
    if es == [] then 0 else 1 + Nodes(es[0].value) + EntriesNodes(es[1..])
  }

  ghost function RecordNodes(r: Record): (n: nat)
    requires r.Record?
  {
    EntriesNodes(r.own) + if r.parent.Is? then Nodes(r.parent.target) else 0
  }

  /** The encoded length, counting a byte array (which grows when it is written again) as one. */
  ghost function Size(v: Value): (n: nat)
    decreases v, 1
  {
    match v
    case ByteString(_) => 1
    case Arr(items) => |Head(4, |items|)| + ItemsSize(items)
    case Obj(es) => |Head(5, |es|)| + EntriesSize(es)
    case Heir(es, _) => |Head(5, |es|)| + EntriesSize(es)
    case _ => |Encode(v)|
  }

  ghost function ItemsSize(items: seq<Value>): (n: nat)
    decreases items, 0
  {
    if items == [] then 0 else Size(items[0]) + ItemsSize(items[1..])
  }

  ghost function EntriesSize(es: seq<Entry>): (n: nat)
    decreases es, 0
  {
    if es == [] then 0 else |EncodeText(es[0].key)| + Size(es[0].value) + EntriesSize(es[1..])
  }

  /** Values without byte arrays. */
  ghost predicate Plain(v: Value)
    decreases v, 1
  {
    match v
    case ByteString(_) => false
    case Arr(items) => ItemsPlain(items)
    case Obj(es) => EntriesPlain(es)
    case Heir(es, _) => EntriesPlain(es)
    case _ => true
  }

  ghost predicate ItemsPlain(items: seq<Value>)
    decreases items, 0
  {
    items != [] ==> Plain(items[0]) && ItemsPlain(items[1..])
  }

  ghost predicate EntriesPlain(es: seq<Entry>)
    decreases es, 0
  {
    es != [] ==> Plain(es[0].value) && EntriesPlain(es[1..])
  }

  lemma {:induction false} PlainSize(v: Value)
    requires Plain(v)
    ensures Size(v) == |Encode(v)|
    decreases v, 1
  {
    match v
    case Arr(items) => PlainItemsSize(items);
    case Obj(es) => PlainEntriesSize(es);
    case Heir(es, _) => PlainEntriesSize(es);
    case _ =>
  }

  lemma {:induction false} PlainItemsSize(items: seq<Value>)
    requires ItemsPlain(items)
    ensures ItemsSize(items) == |EncodeItems(items)|
    decreases items, 0
  {
    if items != [] {
      PlainSize(items[0]);
      PlainItemsSize(items[1..]);
    }
  }

  lemma {:induction false} PlainEntriesSize(es: seq<Entry>)
    requires EntriesPlain(es)
    ensures EntriesSize(es) == |EncodeEntries(es)|
    decreases es, 0
  {
    if es != [] {
      PlainSize(es[0].value);
      PlainEntriesSize(es[1..]);
    }
  }

  lemma {:induction false} PutSize(es: seq<Entry>, k: string, v: Value)
    ensures |Put(es, k, v)| <= |es| + 1
    ensures EntriesSize(Put(es, k, v)) <= EntriesSize(es) + |EncodeText(k)| + Size(v)
  {
    if es != [] {
      var r := Put(es, k, v);
      if es[0].key == k {
        assert r[1..] == es[1..];
      } else if Before(k, es[0].key) {
        assert r[1..] == es;
      } else {
        assert r[1..] == Put(es[1..], k, v);
        PutSize(es[1..], k, v);
      }
    }
  }

  lemma {:induction false} PutNodes(es: seq<Entry>, k: string, v: Value)
    ensures EntriesNodes(Put(es, k, v)) <= EntriesNodes(es) + 1 + Nodes(v)
  {
    if es != [] {
      var r := Put(es, k, v);
      if es[0].key == k {
        assert r[1..] == es[1..];
      } else if Before(k, es[0].key) {
        assert r[1..] == es;
      } else {
        assert r[1..] == Put(es[1..], k, v);
        PutNodes(es[1..], k, v);
      }
    }
  }

  lemma AssignCosts(g: Guards, r: Record, k: string, v: Value)
    requires r.Record? && Assign(g, r, k, v).Record?
    ensures var r' := Assign(g, r, k, v);
            && |r'.own| <= |r.own| + 1
            && EntriesSize(r'.own) <= EntriesSize(r.own) + |EncodeText(k)| + Size(v)
            && RecordNodes(r') <= RecordNodes(r) + 1 + Nodes(v)
  {
    PutSize(r.own, k, v);
    PutNodes(r.own, k, v);
    AssignShape(g, r, k, v);
  }

  lemma AssignShape(g: Guards, r: Record, k: string, v: Value)
    requires r.Record? && Assign(g, r, k, v).Record?
    ensures var r' := Assign(g, r, k, v);
            || r' == r || r' == r.(own := Put(r.own, k, v)) || r' == r.(parent := Nothing) || r' == r.(parent := Is(v))
  {
  }

  lemma ArgBound(ai: nat, b: seq<byte>)
    requires ReadArg(ai, b).Ok?
    ensures ReadArg(ai, b).value < TWO_64
    ensures ai >= 24 ==> ReadArg(ai, b).value < Pow256(|b| - |ReadArg(ai, b).rest|)
  {
    if ai >= 24 {
      BeValueBigEndian(b[..ArgWidth(ai)]);
      Pow256Values();
    }
  }

  lemma HeadLength(major: nat, n: nat, major': nat, n': nat)
    requires major < 8 && major' < 8 && n <= n'
    ensures |Head(major, n)| <= |Head(major', n')|
  {
  }

  /** The head the writer chooses is no longer than any head the reader accepts for that argument. */
  lemma HeadShortest(major: nat, ai: nat, b: seq<byte>)
    requires major < 8 && ReadArg(ai, b).Ok?
    ensures |Head(major, ReadArg(ai, b).value)| <= 1 + |b| - |ReadArg(ai, b).rest|
  {
    ArgBound(ai, b);
    Pow256Values();
  }

  /** The number is written in at most a lead byte and `width` bytes. */
  predicate FitsWidth(bits: Bits64, width: nat) {
    |Encode(NumberOf(bits))| <= 1 + width
  }

  /** The widened half or single float, unless writing it again would take more bytes. */
  function Thrifty(widened: Option<Bits64>, width: nat): (r: Option<Bits64>) {
    if widened.Some? && FitsWidth(widened.value, width) then widened else None
  }

  /** The host of a reader that takes only text as keys, and no half or single float that would grow. */
  function Narrow(h: Host): (r: Host) {
    h.(widen := b => Thrifty(h.widen(b), |b|), keyText := _ => None)
  }

  ghost predicate IsNarrow(h: Host) {
    && (forall v :: h.keyText(v) == None)
    && (forall b {:trigger h.widen(b)} :: h.widen(b).Some? ==> FitsWidth(h.widen(b).value, |b|))
  }

  lemma HeadFits(major: nat, n: nat)
    requires major < 8
    ensures |Head(major, n)| <= 3 <==> n < 0x1_0000
    ensures |Head(major, n)| <= 5 <==> n < 0x1_0000_0000
  {
  }

  lemma IntFits(n: int)
    ensures |EncodeInt(n)| <= 3 <==> -0x1_0000 <= n < 0x1_0000
    ensures |EncodeInt(n)| <= 5 <==> -0x1_0000_0000 <= n < 0x1_0000_0000
  {
    HeadFits(0, if n >= 0 then n else 0);
    HeadFits(1, if n >= 0 then 0 else -1 - n);
  }

  lemma NumberBytes(bits: Bits64)
    ensures Encode(NumberOf(bits)) == EncodeNumber(bits) || (IsNaN(bits) && |Encode(NumberOf(bits))| == 9)
    ensures Integral(bits).None? ==> |Encode(NumberOf(bits))| == 9
  {
    CanonicalNaN();
    NaNIsNotIntegral(NAN);
  }

  /** A half or single float is not written longer exactly when it is an integer its width can hold. */
  lemma FitsWidthExactly(bits: Bits64)
    ensures FitsWidth(bits, 2) <==> Integral(bits).Some? && -0x1_0000 <= Integral(bits).value < 0x1_0000
    ensures FitsWidth(bits, 4) <==> Integral(bits).Some? && -0x1_0000_0000 <= Integral(bits).value < 0x1_0000_0000
  {
    NumberBytes(bits);
    if Integral(bits).Some? {
      if IsNaN(bits) {
        NaNIsNotIntegral(bits);
      } else {
        IntFits(Integral(bits).value);
      }
    }
  }

  ghost predicate Sized(h: Host, v: Value, consumed: int) {
    Nodes(v) <= consumed && (IsNarrow(h) ==> Size(v) <= consumed)
  }

  ghost predicate ItemsSized(h: Host, vs: seq<Value>, consumed: int) {
    ItemsNodes(vs) <= consumed && (IsNarrow(h) ==> ItemsSize(vs) <= consumed)
  }

  ghost predicate EntriesSized(h: Host, r: Record, acc: Record, n: nat, consumed: int)
    requires r.Record? && acc.Record?
  {
    && |r.own| <= |acc.own| + n
    && RecordNodes(r) <= RecordNodes(acc) + consumed
    && (IsNarrow(h) ==> EntriesSize(r.own) <= EntriesSize(acc.own) + consumed)
  }

  lemma NumberSize(bits: Bits64)
    ensures Nodes(NumberOf(bits)) == 1 && 1 <= Size(NumberOf(bits)) <= 9
  {
  }

  lemma SimpleSized(h: Host, ai: nat, b: seq<byte>)
    ensures ReadSimple(h, ai, b).Ok? ==> Sized(h, ReadSimple(h, ai, b).value, 1 + |b| - |ReadSimple(h, ai, b).rest|)
  {
    if 25 <= ai < 28 && Take(ArgWidth(ai), b).Ok? {
      var bytes := Take(ArgWidth(ai), b).value;
      var bits := if ai == 27 then Some(bytes) else h.widen(bytes);
      if bits.Some? {
        NumberSize(bits.value);
      }
    }
  }

  lemma RecordSized(h: Host, r: Record, n: nat, arg: nat, used: nat, consumed: nat)
    requires r.Record? && EntriesSized(h, r, EMPTY, n, consumed) && n <= arg && |Head(5, arg)| <= used
    ensures Sized(h, RecordValue(r), used + consumed)
  {
    HeadLength(5, |r.own|, 5, arg);
  }

  lemma BodySized(h: Host, major: nat, n: nat, b: seq<byte>, used: nat)
    requires major < 5 && RoundsLikeDoubles(h) && |b| < MAX_LEN
    requires |Head(major, n)| <= used
    requires ReadItems(h, h.round(n), b).Ok? ==>
               ItemsSized(h, ReadItems(h, h.round(n), b).value, |b| - |ReadItems(h, h.round(n), b).rest|)
    ensures ReadBody(h, major, n, b).Ok? ==>
              Sized(h, ReadBody(h, major, n, b).value, used + |b| - |ReadBody(h, major, n, b).rest|)
  {
    if ReadBody(h, major, n, b).Ok? {
      var v := ReadBody(h, major, n, b).value;
      HeadLength(0, n, major, n);
      HeadLength(1, n, major, n);
      if major == 3 {
        var t := b[..h.round(n)];
        assert n <= MAX_LEN;
        Utf8.DecodedTextIsNoLonger(t);
        HeadLength(3, |Utf8.EncodeText(v.s)|, 3, n);
      } else if major == 4 {
        HeadLength(4, |v.items|, 4, n);
      }
    }
  }

  lemma RecordBodySized(h: Host, n: nat, b: seq<byte>, used: nat)
    requires RoundsLikeDoubles(h) && |b| < MAX_LEN && |Head(5, n)| <= used
    requires var p := ReadEntries(h, h.round(n), b, EMPTY);
             p.Ok? && p.value.Record? ==> EntriesSized(h, p.value, EMPTY, h.round(n), |b| - |p.rest|)
    ensures ReadBody(h, 5, n, b).Ok? ==>
              Sized(h, ReadBody(h, 5, n, b).value, used + |b| - |ReadBody(h, 5, n, b).rest|)
  {
    var p := ReadEntries(h, h.round(n), b, EMPTY);
    if p.Ok? && p.value.Record? {
      assert n <= MAX_LEN;
      RecordSized(h, p.value, h.round(n), n, used, |b| - |p.rest|);
    }
  }

  /** Every item costs at least one byte; read narrowly, its shortest encoding costs at most the bytes it
      was read from. */
  lemma {:induction false} ItemSized(h: Host, b: seq<byte>)
    requires RoundsLikeDoubles(h) && |b| <= MAX_LEN
    ensures ReadItem(h, b).Ok? ==> Sized(h, ReadItem(h, b).value, |b| - |ReadItem(h, b).rest|)
    decreases |b|, 0
  {
    if b != [] && b[0] / 32 == 7 {
      SimpleSized(h, b[0] % 32, b[1..]);
    } else if b != [] && b[0] / 32 < 6 && ReadArg(b[0] % 32, b[1..]).Ok? {
      var major := b[0] / 32;
      var Ok(n, rest) := ReadArg(b[0] % 32, b[1..]);
      HeadShortest(major, b[0] % 32, b[1..]);
      ItemFromHead(h, b, major, n, rest);
      if major == 5 {
        EntriesAllSized(h, h.round(n), rest, EMPTY);
        RecordBodySized(h, n, rest, |b| - |rest|);
      } else {
        ItemsAllSized(h, h.round(n), rest);
        BodySized(h, major, n, rest, |b| - |rest|);
      }
    }
  }

  lemma {:induction false} ItemsAllSized(h: Host, n: nat, b: seq<byte>)
    requires RoundsLikeDoubles(h) && |b| <= MAX_LEN
    ensures ReadItems(h, n, b).Ok? ==> ItemsSized(h, ReadItems(h, n, b).value, |b| - |ReadItems(h, n, b).rest|)
    decreases |b|, 1
  {
    if n != 0 {
      ItemSized(h, b);
      match ReadItem(h, b)
      case Err(_) =>
      case Ok(v, rest) =>
        ItemsAllSized(h, n - 1, rest);
        match ReadItems(h, n - 1, rest)
        case Err(_) =>
        case Ok(vs, _) => assert ([v] + vs)[1..] == vs;
    }
  }

  lemma {:induction false} EntriesAllSized(h: Host, n: nat, b: seq<byte>, acc: Record)
    requires RoundsLikeDoubles(h) && |b| <= MAX_LEN && acc.Record?
    ensures var p := ReadEntries(h, n, b, acc);
            p.Ok? && p.value.Record? ==> EntriesSized(h, p.value, acc, n, |b| - |p.rest|)
    decreases |b|, 2
  {
    if n != 0 && ReadKey(h, b).Ok? {
      var Ok(k, rest) := ReadKey(h, b);
      ItemSized(h, b);
      KeySized(h, b);
      ItemSized(h, rest);
      match ReadItem(h, rest)
      case Err(_) =>
      case Ok(v, rest') =>
        var acc' := Assign(h.guards, acc, k, v);
        if acc'.Record? {
          EntriesAllSized(h, n - 1, rest', acc');
          var p := ReadEntries(h, n - 1, rest', acc');
          if p.Ok? && p.value.Record? {
            EntrySized(h, p.value, acc, k, v, n, |b| - |rest|, |rest| - |rest'|, |rest'| - |p.rest|);
          }
        }
    }
  }

  lemma KeySized(h: Host, b: seq<byte>)
    requires ReadKey(h, b).Ok? && Sized(h, ReadItem(h, b).value, |b| - |ReadItem(h, b).rest|)
    ensures var Ok(k, rest) := ReadKey(h, b);
            |rest| < |b| && (IsNarrow(h) ==> |EncodeText(k)| <= |b| - |rest|)
  {
  }

  lemma EntrySized(h: Host, r: Record, acc: Record, k: string, v: Value, n: nat, forKey: nat, forValue: nat, after: nat)
    requires acc.Record? && Assign(h.guards, acc, k, v).Record? && r.Record? && n > 0
    requires forKey > 0 && (IsNarrow(h) ==> |EncodeText(k)| <= forKey) && Sized(h, v, forValue)
    requires EntriesSized(h, r, Assign(h.guards, acc, k, v), n - 1, after)
    ensures EntriesSized(h, r, acc, n, forKey + forValue + after)
  {
    AssignCosts(h.guards, acc, k, v);
  }

  // ---- the narrow reader --------------------------------------------------------------------------

  /** Whatever the narrow reader accepts, the reader reads the same. */
  lemma {:induction false} NarrowAgrees(h: Host, b: seq<byte>)
    ensures ReadItem(Narrow(h), b).Ok? ==> ReadItem(h, b) == ReadItem(Narrow(h), b)
    decreases |b|, 0
  {
    if b != [] && b[0] / 32 < 6 && ReadArg(b[0] % 32, b[1..]).Ok? {
      var Ok(n, rest) := ReadArg(b[0] % 32, b[1..]);
      ItemFromHead(h, b, b[0] / 32, n, rest);
      ItemFromHead(Narrow(h), b, b[0] / 32, n, rest);
      NarrowItemsAgree(h, h.round(n), rest);
      NarrowEntriesAgree(h, h.round(n), rest, EMPTY);
    }
  }

  lemma {:induction false} NarrowItemsAgree(h: Host, n: nat, b: seq<byte>)
    ensures ReadItems(Narrow(h), n, b).Ok? ==> ReadItems(h, n, b) == ReadItems(Narrow(h), n, b)
    decreases |b|, 1
  {
    if n != 0 {
      NarrowAgrees(h, b);
      match ReadItem(Narrow(h), b)
      case Err(_) =>
      case Ok(_, rest) => NarrowItemsAgree(h, n - 1, rest);
    }
  }

  lemma NarrowKeyAgrees(h: Host, b: seq<byte>)
    requires ReadItem(Narrow(h), b).Ok? ==> ReadItem(h, b) == ReadItem(Narrow(h), b)
    ensures ReadKey(Narrow(h), b).Ok? ==> ReadKey(h, b) == ReadKey(Narrow(h), b)
  {
  }

  lemma {:induction false} NarrowEntriesAgree(h: Host, n: nat, b: seq<byte>, acc: Record)
    ensures ReadEntries(Narrow(h), n, b, acc).Ok? ==> ReadEntries(h, n, b, acc) == ReadEntries(Narrow(h), n, b, acc)
    decreases |b|, 2
  {
    if n != 0 {
      NarrowAgrees(h, b);
      NarrowKeyAgrees(h, b);
      match ReadKey(Narrow(h), b)
      case Err(_) =>
      case Ok(k, rest) =>
        NarrowAgrees(h, rest);
        match ReadItem(Narrow(h), rest)
        case Err(_) =>
        case Ok(v, rest') => NarrowEntriesAgree(h, n - 1, rest', Assign(h.guards, acc, k, v));
    }
  }

  // ---- the decoder's laws -------------------------------------------------------------------------

  /** Decoding is bounded by its input: the result has no more nodes than the input has bytes. */
  lemma DecodedNodes(h: Host, b: seq<byte>)
    requires RoundsLikeDoubles(h) && |b| <= MAX_LEN && Decode(h, b).Success?
    ensures Nodes(Decode(h, b).value) <= |b|
  {
    ItemSized(h, b);
  }

  /** Re-encoding a decoded value gives bytes that decode to the same value, and so are a fixed point,
      exactly when the value is in the round-trip domain. */
  lemma Reencode(h: Host, b: seq<byte>)
    requires RoundsLikeDoubles(h) && Decode(h, b).Success? && |Encode(Decode(h, b).value)| <= MAX_LEN
    ensures var v := Decode(h, b).value; Decode(h, Encode(v)) == Success(v) <==> InDomain(v)
  {
    var v := Decode(h, b).value;
    ItemSettled(h, b);
    SettledIsUnwrapped(v);
    RoundTrip(h, v);
  }

  /** Bytes whose map keys are text, and whose half and single floats are integers their width can hold,
      are never shorter than what their value is written as, byte arrays aside. */
  lemma NeverLonger(h: Host, b: seq<byte>)
    requires RoundsLikeDoubles(h) && |b| <= MAX_LEN && Decode(Narrow(h), b).Success?
    ensures Decode(h, b) == Decode(Narrow(h), b)
    ensures Plain(Decode(h, b).value) ==> |Encode(Decode(h, b).value)| <= |b|
  {
    NarrowAgrees(h, b);
    NarrowSize(h, b);
    if Plain(Decode(h, b).value) {
      PlainSize(Decode(h, b).value);
    }
  }

  lemma NarrowSize(h: Host, b: seq<byte>)
    requires RoundsLikeDoubles(h) && |b| <= MAX_LEN && Decode(Narrow(h), b).Success?
    ensures Size(Decode(Narrow(h), b).value) <= |b|
  {
    NarrowIsNarrow(h);
    ItemSized(Narrow(h), b);
  }

  lemma NarrowIsNarrow(h: Host)
    ensures IsNarrow(Narrow(h)) && (RoundsLikeDoubles(h) ==> RoundsLikeDoubles(Narrow(h)))
  {
    var g := Narrow(h);
    forall b ensures g.widen(b).Some? ==> FitsWidth(g.widen(b).value, |b|) {
      assert g.widen(b) == Thrifty(h.widen(b), |b|);
    }
  }

  // ---- values that change -------------------------------------------------------------------------

  lemma DecodesTo(h: Host, v: Value)
    requires RoundsLikeDoubles(h) && |Encode(v)| <= MAX_LEN
    ensures Decode(h, Encode(v)) == Success(ReadBack(v))
  {
    ItemReadBack(h, v, []);
    assert Encode(v) + [] == Encode(v);
  }

  /** A float of 2^64 is written again as an integer of 64 bits: zero. */
  lemma WideIntegerIsNotStable(h: Host)
    requires RoundsLikeDoubles(h)
    ensures Decode(h, [0xFB, 0x43, 0xF0, 0, 0, 0, 0, 0, 0]) == Success(Int(TWO_64))
    ensures Decode(h, Encode(Int(TWO_64))) == Success(Int(0))
  {
    var bits: Bits64 := [0x43, 0xF0, 0, 0, 0, 0, 0, 0];
    TwoTo64IsIntegral();
    assert Encode(Wrapped(bits)) == [0xFB, 0x43, 0xF0, 0, 0, 0, 0, 0, 0];
    DecodesTo(h, Wrapped(bits));
    DecodesTo(h, Int(TWO_64));
  }

  /** Any other half or single float grows: 2^40 as a single float is five bytes, and is written as nine. */
  lemma SingleFloatGrows(h: Host)
    requires h.widen([0x53, 0x80, 0, 0]) == Some([0x42, 0x70, 0, 0, 0, 0, 0, 0])
    ensures Decode(h, [0xFA, 0x53, 0x80, 0, 0]) == Success(Int(0x100_0000_0000))
    ensures |Encode(Int(0x100_0000_0000))| == 9
  {
    var b: seq<byte> := [0xFA, 0x53, 0x80, 0, 0];
    TwoTo40IsIntegral();
    assert b[1..] == [0x53, 0x80, 0, 0] && b[1..][..4] == [0x53, 0x80, 0, 0] && b[1..][4..] == [];
  }

  /** -0 is written again as zero. */
  lemma NegativeZeroIsNotStable(h: Host)
    requires RoundsLikeDoubles(h)
    ensures Decode(h, [0xFB] + NEGATIVE_ZERO) == Success(Float(NEGATIVE_ZERO))
    ensures Decode(h, Encode(Float(NEGATIVE_ZERO))) == Success(Int(0))
  {
    NegativeZeroIsIntegral();
    DecodesTo(h, Wrapped(NEGATIVE_ZERO));
    DecodesTo(h, Float(NEGATIVE_ZERO));
  }

  lemma ShortRecord(es: seq<Entry>)
    requires |EncodeEntries(es)| <= 9000
    ensures |Encode(Obj(es))| <= MAX_LEN && |Encode(Heir(es, None))| <= MAX_LEN
  {
  }

  lemma ProtoIsShort()
    ensures |EncodeText(PROTO)| <= 1000
  {
    Utf8Length(PROTO);
  }

  lemma TwoProtos(v: Value)
    requires |Encode(v)| <= 9
    ensures |EncodeEntries([Entry(PROTO, v)])| <= 4000
    ensures |EncodeEntries([Entry(PROTO, Null), Entry(PROTO, v)])| <= 9000
  {
    ProtoConsLength(v, []);
    ProtoConsLength(Null, [Entry(PROTO, v)]);
    assert [Entry(PROTO, v)] + [] == [Entry(PROTO, v)];
    assert [Entry(PROTO, Null)] + [Entry(PROTO, v)] == [Entry(PROTO, Null), Entry(PROTO, v)];
  }

  lemma ProtoConsLength(v: Value, tail: seq<Entry>)
    requires |Encode(v)| <= 9
    ensures |EncodeEntries([Entry(PROTO, v)] + tail)| <= 1009 + |EncodeEntries(tail)|
  {
    ProtoIsShort();
    EncodeCons(Entry(PROTO, v), tail);
  }

  /** A map that gives `__proto__` null and then a number has that number as an own property, which is
      lost when the record is written and read again. */
  lemma RepeatedProtoIsNotStable(h: Host)
    requires RoundsLikeDoubles(h)
    ensures var b := Head(5, 2) + EncodeEntries([Entry(PROTO, Null), Entry(PROTO, Int(5))]);
            Decode(h, b) == Success(Heir([Entry(PROTO, Int(5))], None))
    ensures Decode(h, Encode(Heir([Entry(PROTO, Int(5))], None))) == Success(Obj([]))
  {
    TwoProtos(Int(5));
    RebuiltProtos();
    ProtoReadBack(Int(5));
    RecordDecodes(h, [Entry(PROTO, Null), Entry(PROTO, Int(5))]);
    RecordDecodes(h, [Entry(PROTO, Int(5))]);
  }

  lemma RecordDecodes(h: Host, es: seq<Entry>)
    requires RoundsLikeDoubles(h) && |EncodeEntries(es)| <= 9000
    ensures Decode(h, Head(5, |es|) + EncodeEntries(es)) == Success(Rebuilt(ReadBackEntries(es)))
    ensures Decode(h, Encode(Heir(es, None))) == Success(Rebuilt(ReadBackEntries(es)))
  {
    ShortRecord(es);
    RecordBytes(es, None);
    RecordReadsBack(es);
    DecodesTo(h, Obj(es));
  }

  /** A record is written alike whatever its prototype. */
  lemma RecordBytes(es: seq<Entry>, parent: Option<Value>)
    ensures Encode(Heir(es, parent)) == Encode(Obj(es)) == Head(5, |es|) + EncodeEntries(es)
  {
  }

  lemma RecordReadsBack(es: seq<Entry>)
    ensures ReadBack(Obj(es)) == Rebuilt(ReadBackEntries(es))
  {
  }

  lemma ProtoReadBack(v: Value)
    ensures ReadBackEntries([Entry(PROTO, v)]) == [Entry(PROTO, ReadBack(v))]
    ensures ReadBackEntries([Entry(PROTO, Null), Entry(PROTO, v)]) == [Entry(PROTO, Null), Entry(PROTO, ReadBack(v))]
  {
    ReadBackCons(Entry(PROTO, v), []);
    ReadBackCons(Entry(PROTO, Null), [Entry(PROTO, v)]);
    assert [Entry(PROTO, v)] + [] == [Entry(PROTO, v)];
    assert [Entry(PROTO, Null)] + [Entry(PROTO, v)] == [Entry(PROTO, Null), Entry(PROTO, v)];
    assert Utf8.StripBom(PROTO) == PROTO;
  }

  lemma AssignCons(g: Guards, r: Record, e: Entry, es: seq<Entry>)
    ensures AssignAll(g, r, [e] + es) == AssignAll(g, Assign(g, r, e.key, e.value), es)
  {
    assert ([e] + es)[1..] == es;
  }

  lemma RebuiltProtos()
    ensures Rebuilt([Entry(PROTO, Int(5))]) == Obj([])
    ensures Rebuilt([Entry(PROTO, Null), Entry(PROTO, Int(5))]) == Heir([Entry(PROTO, Int(5))], None)
  {
    var zero, five := Entry(PROTO, Null), Entry(PROTO, Int(5));
    assert [five] + [] == [five] && [zero] + [five] == [zero, five];
    AssignCons(Unguarded, EMPTY, five, []);
    AssignCons(Unguarded, EMPTY, zero, [five]);
    AssignCons(Unguarded, Record([], Nothing), five, []);
    assert Assign(Unguarded, EMPTY, PROTO, Int(5)) == EMPTY;
    assert Assign(Unguarded, EMPTY, PROTO, Null) == Record([], Nothing);
    assert Assign(Unguarded, Record([], Nothing), PROTO, Int(5)) == Record([five], Nothing);
  }

  /** Text that begins with two byte order marks is not stable under decode and encode. */
  lemma DoubleBomIsNotStable(h: Host)
    requires RoundsLikeDoubles(h)
    ensures var b := EncodeText("\U{FEFF}\U{FEFF}x");
            && Decode(h, b) == Success(Text("\U{FEFF}x"))
            && Decode(h, Encode(Text("\U{FEFF}x"))) == Success(Text("x"))
  {
    var s, t := "\U{FEFF}\U{FEFF}x", "\U{FEFF}x";
    TextIsShort(s);
    TextIsShort(t);
    TextItemReadBack(h, s, []);
    TextItemReadBack(h, t, []);
    assert EncodeText(s) + [] == EncodeText(s) && EncodeText(t) + [] == EncodeText(t);
    assert Utf8.StripBom(s) == t && Utf8.StripBom(t) == "x";
  }

  lemma {:induction false} Utf8Length(s: string)
    ensures |Utf8.EncodeText(s)| <= 4 * |s|
  {
    if s != "" {
      Utf8Length(s[1..]);
    }
  }

  lemma TextIsShort(s: string)
    requires |s| <= 1000
    ensures |EncodeText(s)| <= MAX_LEN
  {
    Utf8Length(s);
  }

  // ---- rounding of declared lengths ---------------------------------------------------------------

  /** A count larger than the remaining bytes fails the same way whatever the count. */
  lemma {:induction false} ItemsRunOut(h: Host, n: nat, m: nat, b: seq<byte>)
    requires n > |b| && m > |b|
    ensures ReadItems(h, n, b) == ReadItems(h, m, b)
    decreases |b|
  {
    match ReadItem(h, b)
    case Err(_) =>
    case Ok(_, rest) => ItemsRunOut(h, n - 1, m - 1, rest);
  }

  lemma {:induction false} EntriesRunOut(h: Host, n: nat, m: nat, b: seq<byte>, acc: Record)
    requires n > |b| && m > |b|
    ensures ReadEntries(h, n, b, acc) == ReadEntries(h, m, b, acc)
    decreases |b|
  {
    match ReadKey(h, b)
    case Err(_) =>
    case Ok(k, rest) =>
      match ReadItem(h, rest)
      case Err(_) =>
      case Ok(v, rest') => EntriesRunOut(h, n - 1, m - 1, rest', Assign(h.guards, acc, k, v));
  }

  ghost predicate SameButRounding(h: Host, h': Host) {
    RoundsLikeDoubles(h) && RoundsLikeDoubles(h') && h' == h.(round := h'.round)
  }

  /** How the host rounds lengths above 2^53 never shows, in values or in errors. */
  lemma {:induction false} RoundingInvisible(h: Host, h': Host, b: seq<byte>)
    requires SameButRounding(h, h') && |b| <= MAX_LEN
    ensures ReadItem(h, b) == ReadItem(h', b)
    decreases |b|, 0
  {
    if b != [] && b[0] / 32 < 6 && ReadArg(b[0] % 32, b[1..]).Ok? {
      var Ok(n, rest) := ReadArg(b[0] % 32, b[1..]);
      BodyRounding(h, h', b[0] / 32, n, rest);
    }
  }

  lemma {:induction false} BodyRounding(h: Host, h': Host, major: nat, n: nat, b: seq<byte>)
    requires SameButRounding(h, h') && |b| < MAX_LEN && major < 6
    ensures ReadBody(h, major, n, b) == ReadBody(h', major, n, b)
    decreases |b|, 3
  {
    var r, r' := h.round(n), h'.round(n);
    ItemsRounding(h, h', r', b);
    EntriesRounding(h, h', r', b, EMPTY);
    if n > MAX_LEN {
      ItemsRunOut(h, r, r', b);
      EntriesRunOut(h, r, r', b, EMPTY);
    }
  }

  lemma {:induction false} ItemsRounding(h: Host, h': Host, n: nat, b: seq<byte>)
    requires SameButRounding(h, h') && |b| <= MAX_LEN
    ensures ReadItems(h, n, b) == ReadItems(h', n, b)
    decreases |b|, 1
  {
    if n != 0 {
      RoundingInvisible(h, h', b);
      match ReadItem(h, b)
      case Err(_) =>
      case Ok(_, rest) => ItemsRounding(h, h', n - 1, rest);
    }
  }

  lemma {:induction false} KeyRounding(h: Host, h': Host, b: seq<byte>)
    requires SameButRounding(h, h') && |b| <= MAX_LEN
    ensures ReadKey(h, b) == ReadKey(h', b)
    decreases |b|, 1
  {
    RoundingInvisible(h, h', b);
  }

  lemma {:induction false} EntriesRounding(h: Host, h': Host, n: nat, b: seq<byte>, acc: Record)
    requires SameButRounding(h, h') && |b| <= MAX_LEN
    ensures ReadEntries(h, n, b, acc) == ReadEntries(h', n, b, acc)
    decreases |b|, 2
  {
    if n != 0 {
      KeyRounding(h, h', b);
      match ReadKey(h, b)
      case Err(_) =>
      case Ok(k, rest) =>
        RoundingInvisible(h, h', rest);
        match ReadItem(h, rest)
        case Err(_) =>
        case Ok(v, rest') => EntriesRounding(h, h', n - 1, rest', Assign(h.guards, acc, k, v));
    }
  }

  // ---- locality -----------------------------------------------------------------------------------

  ghost predicate SuffixOf(s: seq<byte>, b: seq<byte>) {
    |s| <= |b| && s == b[|b| - |s|..]
  }

  lemma SuffixTransitive(a: seq<byte>, b: seq<byte>, c: seq<byte>)
    requires SuffixOf(a, b) && SuffixOf(b, c)
    ensures SuffixOf(a, c)
  {
  }

  lemma ArgSuffix(ai: nat, b: seq<byte>)
    ensures ReadArg(ai, b).Ok? ==> SuffixOf(ReadArg(ai, b).rest, b)
  {
  }

  /** What the reader leaves is the unread end of its input. */
  lemma {:induction false} ItemSuffix(h: Host, b: seq<byte>)
    ensures ReadItem(h, b).Ok? ==> SuffixOf(ReadItem(h, b).rest, b)
    decreases |b|, 0
  {
    if b != [] && b[0] / 32 < 6 && ReadArg(b[0] % 32, b[1..]).Ok? {
      ArgSuffix(b[0] % 32, b[1..]);
      var Ok(n, rest) := ReadArg(b[0] % 32, b[1..]);
      BodySuffix(h, b[0] / 32, n, rest);
      HeadedSuffix(h, b, n, rest);
    } else if b != [] && b[0] / 32 == 7 {
      SimpleSuffix(h, b[0] % 32, b[1..]);
    }
  }

  lemma SimpleSuffix(h: Host, ai: nat, b: seq<byte>)
    ensures ReadSimple(h, ai, b).Ok? ==> SuffixOf(ReadSimple(h, ai, b).rest, b)
  {
  }

  lemma HeadedSuffix(h: Host, b: seq<byte>, n: nat, body: seq<byte>)
    requires b != [] && b[0] / 32 < 6 && ReadArg(b[0] % 32, b[1..]) == Ok(n, body) && SuffixOf(body, b[1..])
    requires ReadBody(h, b[0] / 32, n, body).Ok? ==> SuffixOf(ReadBody(h, b[0] / 32, n, body).rest, body)
    ensures ReadItem(h, b).Ok? ==> SuffixOf(ReadItem(h, b).rest, b)
  {
    ItemFromHead(h, b, b[0] / 32, n, body);
    var p := ReadBody(h, b[0] / 32, n, body);
    if p.Ok? {
      SuffixTransitive(p.rest, body, b[1..]);
      SuffixTransitive(p.rest, b[1..], b);
    }
  }

  lemma {:induction false} BodySuffix(h: Host, major: nat, n: nat, b: seq<byte>)
    requires major < 6
    ensures ReadBody(h, major, n, b).Ok? ==> SuffixOf(ReadBody(h, major, n, b).rest, b)
    decreases |b|, 3
  {
    ItemsSuffix(h, h.round(n), b);
    EntriesSuffix(h, h.round(n), b, EMPTY);
  }

  lemma {:induction false} ItemsSuffix(h: Host, n: nat, b: seq<byte>)
    ensures ReadItems(h, n, b).Ok? ==> SuffixOf(ReadItems(h, n, b).rest, b)
    decreases |b|, 1
  {
    if n != 0 && ReadItem(h, b).Ok? {
      var rest := ReadItem(h, b).rest;
      ItemSuffix(h, b);
      ItemsSuffix(h, n - 1, rest);
      if ReadItems(h, n, b).Ok? {
        SuffixTransitive(ReadItems(h, n, b).rest, rest, b);
      }
    }
  }

  lemma {:induction false} EntriesSuffix(h: Host, n: nat, b: seq<byte>, acc: Record)
    ensures ReadEntries(h, n, b, acc).Ok? ==> SuffixOf(ReadEntries(h, n, b, acc).rest, b)
    decreases |b|, 2
  {
    if n != 0 && ReadKey(h, b).Ok? {
      var Ok(k, rest) := ReadKey(h, b);
      ItemSuffix(h, b);
      ItemSuffix(h, rest);
      if ReadItem(h, rest).Ok? {
        var Ok(v, rest') := ReadItem(h, rest);
        EntriesSuffix(h, n - 1, rest', Assign(h.guards, acc, k, v));
        EntrySuffix(b, rest, rest', ReadEntries(h, n - 1, rest', Assign(h.guards, acc, k, v)));
      }
    }
  }

  lemma EntrySuffix(b: seq<byte>, rest: seq<byte>, rest': seq<byte>, p: Parsed<Record>)
    requires SuffixOf(rest, b) && SuffixOf(rest', rest) && (p.Ok? ==> SuffixOf(p.rest, rest'))
    ensures p.Ok? ==> SuffixOf(p.rest, b)
  {
    SuffixTransitive(rest', rest, b);
    if p.Ok? {
      SuffixTransitive(p.rest, rest', b);
    }
  }
}
