/** What the decoder makes of an encoding, and exactly which values survive it. */
module CborRoundTrip {
  import opened Bytes
  import opened Doubles
  import opened Cbor
  import Utf8
  import Decimal

  /** The property list a byte array is written as. */
  function IndexEntries(bytes: seq<byte>, i: nat): (es: seq<Entry>)
    requires i <= |bytes|
    decreases |bytes| - i
  {
    if i == |bytes| then [] else [IndexEntry(i, bytes[i])] + IndexEntries(bytes, i + 1)
  }

  function IndexEntry(i: nat, x: byte): (e: Entry) {
    Entry(Decimal.Print(i), Int(x))
  }

  function ReadBackInt(i: int): (r: int) {
    if i >= 0 then i % TWO_64 else -1 - (-1 - i) % TWO_64
  }

  function ReadBackNumber(bits: Bits64): (r: Value) {
    match Integral(bits)
    case Some(n) => Int(ReadBackInt(n))
    case None => NumberOf(bits)
  }

  function Unguarded(n: nat, k: string): (r: Slot) { Free }

  lemma {:induction false} UnguardedHolds(r: Record, es: seq<Entry>)
    requires r.Record?
    ensures AssignAll(Unguarded, r, es).Record?
    decreases |es|
  {
    if es != [] {
      UnguardedAssigns(r, es[0].key, es[0].value);
      UnguardedHolds(Assign(Unguarded, r, es[0].key, es[0].value), es[1..]);
    }
  }

  lemma UnguardedAssigns(r: Record, k: string, v: Value)
    requires r.Record?
    ensures Assign(Unguarded, r, k, v).Record?
  {
    if r.parent.Is? {
      UnguardedSlot(r.parent.target, k);
    }
  }

  lemma {:induction false} UnguardedSlot(v: Value, k: string)
    ensures SlotUnder(Unguarded, v, k) in {Free, Accessor}
  {
    if v.Heir? && v.parent.Some? {
      UnguardedSlot(v.parent.value, k);
    }
  }

  /** The record that assigning decoded entries builds. */
  function Rebuilt(es: seq<Entry>): (v: Value) {
    UnguardedHolds(EMPTY, es);
    RecordValue(AssignAll(Unguarded, EMPTY, es))
  }

  /** The value that decoding the encoding of `v` gives. */
  function ReadBack(v: Value): (r: Value)
    decreases v, 1
  {
    match v
    case Int(i) => Int(ReadBackInt(i))
    case Float(bits) => ReadBackNumber(bits)
    case Wrapped(bits) => NumberOf(bits)
    case Text(s) => Text(Utf8.StripBom(s))
    case ByteString(bytes) => Rebuilt(IndexEntries(bytes, 0))
    case Arr(items) => Arr(ReadBackItems(items))
    case Obj(es) => Rebuilt(ReadBackEntries(es))
    case Heir(es, _) => Rebuilt(ReadBackEntries(es))
    case _ => v
  }

  function ReadBackItems(items: seq<Value>): (r: seq<Value>)
    ensures |r| == |items|
    decreases items, 0
  {
    if items == [] then [] else [ReadBack(items[0])] + ReadBackItems(items[1..])
  }

  function ReadBackEntries(es: seq<Entry>): (r: seq<Entry>)
    ensures |r| == |es|
    ensures forall i | 0 <= i < |es| :: r[i].key == Utf8.StripBom(es[i].key)
    decreases es, 0
  {
    if es == [] then []
    else [Entry(Utf8.StripBom(es[0].key), ReadBack(es[0].value))] + ReadBackEntries(es[1..])
  }

  // ---- decoding an encoding -----------------------------------------------------------------------

  lemma WideArgument(ai: nat, n: nat, rest: seq<byte>)
    requires 24 <= ai < 28
    ensures ReadArg(ai, BigEndian(n, ArgWidth(ai)) + rest) == Ok(n % Pow256(ArgWidth(ai)), rest)
  {
    var w := ArgWidth(ai);
    BigEndianValue(n, w);
    var b := BigEndian(n, w) + rest;
    assert b[..w] == BigEndian(n, w) && b[w..] == rest;
  }

  lemma HeadShape(major: nat, n: nat, ai: nat, rest: seq<byte>)
    requires major < 8 && 24 <= ai < 28
    requires Head(major, n) == [major * 32 + ai] + BigEndian(n, ArgWidth(ai))
    requires n % Pow256(ArgWidth(ai)) == n % TWO_64
    ensures var b := Head(major, n) + rest;
            b[0] / 32 == major && ReadArg(b[0] % 32, b[1..]) == Ok(n % TWO_64, rest)
  {
    var b := Head(major, n) + rest;
    assert b[1..] == BigEndian(n, ArgWidth(ai)) + rest;
    WideArgument(ai, n, rest);
  }

  /** A head is read back as its major type and the low 64 bits of its argument. */
  lemma HeadReadBack(major: nat, n: nat, rest: seq<byte>)
    requires major < 8
    ensures var b := Head(major, n) + rest;
            b[0] / 32 == major && ReadArg(b[0] % 32, b[1..]) == Ok(n % TWO_64, rest)
  {
    Pow256Values();
    if n < 24 {
      assert (Head(major, n) + rest)[1..] == rest;
    } else {
      HeadShape(major, n,
        if n < 0x100 then 24 else if n < 0x1_0000 then 25 else if n < 0x1_0000_0000 then 26 else 27, rest);
    }
  }

  lemma ItemFromHead(h: Host, b: seq<byte>, major: nat, n: nat, body: seq<byte>)
    requires b != [] && b[0] / 32 == major < 6 && ReadArg(b[0] % 32, b[1..]) == Ok(n, body)
    ensures ReadItem(h, b) == ReadBody(h, major, n, body)
  {
  }

  /** The item behind a head, `arg` being what 64 bits keep of its argument. */
  lemma HeadedItem(h: Host, major: nat, n: nat, arg: nat, body: seq<byte>)
    requires major < 6 && arg == n % TWO_64
    ensures ReadItem(h, Head(major, n) + body) == ReadBody(h, major, arg, body)
  {
    HeadReadBack(major, n, body);
    ItemFromHead(h, Head(major, n) + body, major, arg, body);
  }

  lemma Fits64Bits(n: nat)
    requires n < TWO_64
    ensures n % TWO_64 == n
  {
  }

  lemma SmallHeadedItem(h: Host, major: nat, n: nat, body: seq<byte>)
    requires major < 6 && n < TWO_64
    ensures ReadItem(h, Head(major, n) + body) == ReadBody(h, major, n, body)
  {
    Fits64Bits(n);
    HeadedItem(h, major, n, n, body);
  }

  lemma TextBody(s: string, rest: seq<byte>)
    ensures var u := Utf8.EncodeText(s); ReadBytes(3, |u|, u + rest) == Ok(Text(Utf8.StripBom(s)), rest)
  {
    var u := Utf8.EncodeText(s);
    assert (u + rest)[..|u|] == u && (u + rest)[|u|..] == rest;
    Utf8.TextReadBack(s);
  }

  lemma RoundExact(h: Host, n: nat)
    requires RoundsLikeDoubles(h) && n <= MAX_LEN
    ensures h.round(n) == n
  {
  }

  lemma TextAfterHead(h: Host, head: seq<byte>, s: string, rest: seq<byte>)
    requires RoundsLikeDoubles(h) && |head + Utf8.EncodeText(s)| <= MAX_LEN
    requires var u := Utf8.EncodeText(s); ReadItem(h, head + (u + rest)) == ReadBody(h, 3, |u|, u + rest)
    ensures ReadItem(h, (head + Utf8.EncodeText(s)) + rest) == Ok(Text(Utf8.StripBom(s)), rest)
  {
    var u := Utf8.EncodeText(s);
    Concat3(head, u, rest);
    RoundExact(h, |u|);
    TextBody(s, rest);
  }

  lemma TextItemReadBack(h: Host, s: string, rest: seq<byte>)
    requires RoundsLikeDoubles(h) && |EncodeText(s)| <= MAX_LEN
    ensures ReadItem(h, EncodeText(s) + rest) == Ok(Text(Utf8.StripBom(s)), rest)
  {
    var u := Utf8.EncodeText(s);
    SmallHeadedItem(h, 3, |u|, u + rest);
    TextAfterHead(h, Head(3, |u|), s, rest);
  }

  lemma TextKeyReadBack(h: Host, s: string, rest: seq<byte>)
    requires RoundsLikeDoubles(h) && |EncodeText(s)| <= MAX_LEN
    ensures ReadKey(h, EncodeText(s) + rest) == Ok(Utf8.StripBom(s), rest)
  {
    TextItemReadBack(h, s, rest);
  }

  lemma IntItemReadBack(h: Host, i: int, rest: seq<byte>)
    ensures ReadItem(h, EncodeInt(i) + rest) == Ok(Int(ReadBackInt(i)), rest)
  {
    if i >= 0 {
      HeadedItem(h, 0, i, i % TWO_64, rest);
    } else {
      HeadedItem(h, 1, -1 - i, (-1 - i) % TWO_64, rest);
    }
  }

  lemma Container(h: Host, major: nat, n: nat, head: seq<byte>, body: seq<byte>, rest: seq<byte>)
    requires RoundsLikeDoubles(h) && 4 <= major <= 5 && n <= MAX_LEN
    requires ReadItem(h, head + (body + rest)) == ReadBody(h, major, n, body + rest)
    ensures major == 4 && ReadItems(h, n, body + rest).Ok? ==>
              ReadItem(h, (head + body) + rest)
              == Ok(Arr(ReadItems(h, n, body + rest).value), ReadItems(h, n, body + rest).rest)
    ensures var p := ReadEntries(h, n, body + rest, EMPTY);
            major == 5 && p.Ok? && p.value.Record? ==>
              ReadItem(h, (head + body) + rest) == Ok(RecordValue(p.value), p.rest)
  {
    Concat3(head, body, rest);
    RoundExact(h, n);
  }

  lemma WideFloatReadBack(h: Host, bits: Bits64, rest: seq<byte>)
    ensures ReadItem(h, ([0xFB] + bits) + rest) == Ok(NumberOf(bits), rest)
  {
    var b := ([0xFB] + bits) + rest;
    assert b[1..] == bits + rest;
    assert (bits + rest)[..8] == bits && (bits + rest)[8..] == rest;
  }

  lemma ScalarReadBack(h: Host, v: Value, rest: seq<byte>)
    requires v.Null? || v.Bool? || v.Float? || v.Wrapped?
    ensures ReadItem(h, Encode(v) + rest) == Ok(ReadBack(v), rest)
  {
    match v
    case Float(bits) =>
      match Integral(bits) {
        case Some(n) => IntItemReadBack(h, n, rest);
        case None => WideFloatReadBack(h, bits, rest);
      }
    case Wrapped(bits) => WideFloatReadBack(h, bits, rest);
    case Null => assert ([0xF6] + rest)[1..] == rest;
    case Bool(b) => assert ([if b then 0xF5 else 0xF4] + rest)[1..] == rest;
    case _ =>
  }

  /** The law of the codec: for every value and every trailing bytes, reading the encoding gives the
      read-back value and stops exactly at the trailing bytes. */
  lemma {:induction false} ItemReadBack(h: Host, v: Value, rest: seq<byte>)
    requires RoundsLikeDoubles(h) && |Encode(v)| <= MAX_LEN
    ensures ReadItem(h, Encode(v) + rest) == Ok(ReadBack(v), rest)
    decreases |Encode(v)|, 0
  {
    match v
    case Int(i) =>
      IntItemReadBack(h, i, rest);
    case Text(s) =>
      TextItemReadBack(h, s, rest);
    case ByteString(bytes) =>
      var es := IndexEntries(bytes, 0);
      IndexedAsEntries(bytes, 0);
      IndicesFixed(bytes, 0);
      EntriesReadBack(h, es, EMPTY, rest);
      RecordReadBack(h, |es|, EncodeEntries(es), es, rest);
    case Arr(items) =>
      ItemsReadBack(h, items, rest);
      SmallHeadedItem(h, 4, |items|, EncodeItems(items) + rest);
      Container(h, 4, |items|, Head(4, |items|), EncodeItems(items), rest);
    case Obj(es) =>
      EntriesReadBack(h, es, EMPTY, rest);
      RecordReadBack(h, |es|, EncodeEntries(es), ReadBackEntries(es), rest);
    case Heir(es, _) =>
      EntriesReadBack(h, es, EMPTY, rest);
      RecordReadBack(h, |es|, EncodeEntries(es), ReadBackEntries(es), rest);
    case _ =>
      ScalarReadBack(h, v, rest);
  }

  lemma RecordReadBack(h: Host, n: nat, body: seq<byte>, back: seq<Entry>, rest: seq<byte>)
    requires RoundsLikeDoubles(h) && n <= MAX_LEN && ByteFree(back)
    requires ReadEntries(h, n, body + rest, EMPTY) == Ok(AssignAll(h.guards, EMPTY, back), rest)
    ensures ReadItem(h, (Head(5, n) + body) + rest) == Ok(Rebuilt(back), rest)
  {
    GuardsUnused(h.guards, EMPTY, back);
    UnguardedHolds(EMPTY, back);
    SmallHeadedItem(h, 5, n, body + rest);
    Container(h, 5, n, Head(5, n), body, rest);
  }

  lemma {:induction false} ItemsReadBack(h: Host, items: seq<Value>, rest: seq<byte>)
    requires RoundsLikeDoubles(h) && |EncodeItems(items)| <= MAX_LEN
    ensures ReadItems(h, |items|, EncodeItems(items) + rest) == Ok(ReadBackItems(items), rest)
    decreases |EncodeItems(items)|, |items|
  {
    if items == [] {
      assert [] + rest == rest;
    } else {
      var tail := EncodeItems(items[1..]);
      Concat3(Encode(items[0]), tail, rest);
      ItemReadBack(h, items[0], tail + rest);
      ItemsReadBack(h, items[1..], rest);
    }
  }

  lemma {:induction false} EntriesReadBack(h: Host, es: seq<Entry>, acc: Record, rest: seq<byte>)
    requires RoundsLikeDoubles(h) && |EncodeEntries(es)| <= MAX_LEN && ByteFreeRecord(acc)
    ensures ByteFree(ReadBackEntries(es))
    ensures ReadEntries(h, |es|, EncodeEntries(es) + rest, acc)
            == Ok(AssignAll(h.guards, acc, ReadBackEntries(es)), rest)
    decreases |EncodeEntries(es)|, |es|
  {
    EntriesByteFree(es);
    if es == [] {
      NoEntriesLeft(h, acc, rest);
    } else {
      var e, tail, back := es[0], EncodeEntries(es[1..]), ReadBackEntries(es);
      TextKeyReadBack(h, e.key, Encode(e.value) + (tail + rest));
      ItemReadBack(h, e.value, tail + rest);
      AssignByteFree(h.guards, acc, back[0].key, back[0].value);
      EntryStep(h, |es| - 1, back[0], EncodeText(e.key), Encode(e.value), tail, acc, rest);
      EntriesReadBack(h, es[1..], Assign(h.guards, acc, back[0].key, back[0].value), rest);
      assert back[1..] == ReadBackEntries(es[1..]);
    }
  }

  lemma NoEntriesLeft(h: Host, acc: Record, rest: seq<byte>)
    ensures ReadEntries(h, 0, [] + rest, acc) == Ok(acc, rest)
  {
    assert [] + rest == rest;
  }

  lemma EntryStep(h: Host, n: nat, e: Entry, key: seq<byte>, value: seq<byte>, tail: seq<byte>,
                  acc: Record, rest: seq<byte>)
    requires ReadKey(h, key + (value + (tail + rest))) == Ok(e.key, value + (tail + rest))
    requires ReadItem(h, value + (tail + rest)) == Ok(e.value, tail + rest)
    requires Assign(h.guards, acc, e.key, e.value).Record?
    ensures ReadEntries(h, n + 1, ((key + value) + tail) + rest, acc)
            == ReadEntries(h, n, tail + rest, Assign(h.guards, acc, e.key, e.value))
  {
    Concat4(key, value, tail, rest);
  }

  // ---- byte arrays, written as records ------------------------------------------------------------

  lemma EncodeCons(e: Entry, tail: seq<Entry>)
    ensures EncodeEntries([e] + tail) == EncodeText(e.key) + Encode(e.value) + EncodeEntries(tail)
  {
    assert ([e] + tail)[1..] == tail;
  }

  lemma IndexEntryBytes(i: nat, x: byte)
    ensures EncodeText(IndexEntry(i, x).key) == EncodeText(Decimal.Print(i))
    ensures Encode(IndexEntry(i, x).value) == EncodeInt(x)
  {
  }

  lemma {:induction false} IndexedAsEntries(bytes: seq<byte>, i: nat)
    requires i <= |bytes|
    ensures EncodeIndexed(bytes, i) == EncodeEntries(IndexEntries(bytes, i))
    ensures |IndexEntries(bytes, i)| == |bytes| - i
    decreases |bytes| - i
  {
    if i < |bytes| {
      IndexedAsEntries(bytes, i + 1);
      EncodeCons(IndexEntry(i, bytes[i]), IndexEntries(bytes, i + 1));
      IndexEntryBytes(i, bytes[i]);
    }
  }

  lemma IndexEntryFixed(i: nat, x: byte)
    ensures var e := IndexEntry(i, x); Entry(Utf8.StripBom(e.key), ReadBack(e.value)) == e
  {
    var k := Decimal.Print(i);
    assert Decimal.IsDigit(k[0]);
  }

  lemma ReadBackCons(e: Entry, es: seq<Entry>)
    ensures ReadBackEntries([e] + es) == [Entry(Utf8.StripBom(e.key), ReadBack(e.value))] + ReadBackEntries(es)
  {
    assert ([e] + es)[1..] == es;
  }

  lemma {:induction false} IndicesFixed(bytes: seq<byte>, i: nat)
    requires i <= |bytes|
    ensures ReadBackEntries(IndexEntries(bytes, i)) == IndexEntries(bytes, i)
    decreases |bytes| - i
  {
    if i < |bytes| {
      IndicesFixed(bytes, i + 1);
      IndexEntryFixed(i, bytes[i]);
      ReadBackCons(IndexEntry(i, bytes[i]), IndexEntries(bytes, i + 1));
    }
  }

  // ---- decoded encodings hold no byte arrays ------------------------------------------------------

  /** No byte array anywhere, prototypes included. */
  ghost predicate NoBytes(v: Value) {
    match v
    case ByteString(_) => false
    case Arr(items) => forall i | 0 <= i < |items| :: NoBytes(items[i])
    case Obj(es) => forall i | 0 <= i < |es| :: NoBytes(es[i].value)
    case Heir(es, parent) =>
      (forall i | 0 <= i < |es| :: NoBytes(es[i].value)) && (parent.Some? ==> NoBytes(parent.value))
    case _ => true
  }

  ghost predicate ByteFree(es: seq<Entry>) {
    forall i | 0 <= i < |es| :: NoBytes(es[i].value)
  }

  ghost predicate ByteFreeRecord(r: Record) {
    r.Record? && ByteFree(r.own) && (r.parent.Is? ==> NoBytes(r.parent.target))
  }

  lemma {:induction false} SlotByteFree(g: Guards, v: Value, k: string)
    requires NoBytes(v)
    ensures SlotUnder(g, v, k) == SlotUnder(Unguarded, v, k)
  {
    if v.Heir? && v.parent.Some? {
      SlotByteFree(g, v.parent.value, k);
    }
  }

  lemma {:induction false} PutByteFree(es: seq<Entry>, k: string, v: Value)
    requires ByteFree(es) && NoBytes(v)
    ensures ByteFree(Put(es, k, v))
  {
    if es != [] && es[0].key != k && !Before(k, es[0].key) {
      PutByteFree(es[1..], k, v);
    }
  }

  /** Without byte arrays no assignment throws, whatever they guard. */
  lemma AssignByteFree(g: Guards, r: Record, k: string, v: Value)
    requires ByteFreeRecord(r) && NoBytes(v)
    ensures ByteFreeRecord(Assign(g, r, k, v)) && Assign(g, r, k, v) == Assign(Unguarded, r, k, v)
  {
    PutByteFree(r.own, k, v);
    if r.parent.Is? {
      SlotByteFree(g, r.parent.target, k);
      UnguardedSlot(r.parent.target, k);
    }
  }

  lemma {:induction false} GuardsUnused(g: Guards, r: Record, es: seq<Entry>)
    requires ByteFreeRecord(r) && ByteFree(es)
    ensures ByteFreeRecord(AssignAll(g, r, es)) && AssignAll(g, r, es) == AssignAll(Unguarded, r, es)
    decreases |es|
  {
    if es != [] {
      AssignByteFree(g, r, es[0].key, es[0].value);
      GuardsUnused(g, Assign(g, r, es[0].key, es[0].value), es[1..]);
    }
  }

  lemma RebuiltByteFree(es: seq<Entry>)
    requires ByteFree(es)
    ensures NoBytes(Rebuilt(es))
  {
    GuardsUnused(Unguarded, EMPTY, es);
    UnguardedHolds(EMPTY, es);
  }

  lemma {:induction false} IndicesByteFree(bytes: seq<byte>, i: nat)
    requires i <= |bytes|
    ensures ByteFree(IndexEntries(bytes, i))
    decreases |bytes| - i
  {
    if i < |bytes| {
      IndicesByteFree(bytes, i + 1);
    }
  }

  lemma {:induction false} ReadBackByteFree(v: Value)
    ensures NoBytes(ReadBack(v))
    decreases v, 1
  {
    match v
    case ByteString(bytes) =>
      IndicesByteFree(bytes, 0);
      RebuiltByteFree(IndexEntries(bytes, 0));
    case Arr(items) => ItemsByteFree(items);
    case Obj(es) =>
      EntriesByteFree(es);
      RebuiltByteFree(ReadBackEntries(es));
    case Heir(es, _) =>
      EntriesByteFree(es);
      RebuiltByteFree(ReadBackEntries(es));
    case _ =>
  }

  lemma {:induction false} ItemsByteFree(items: seq<Value>)
    ensures forall i | 0 <= i < |items| :: NoBytes(ReadBackItems(items)[i])
    decreases items, 0
  {
    if items != [] {
      ReadBackByteFree(items[0]);
      ItemsByteFree(items[1..]);
    }
  }

  lemma {:induction false} EntriesByteFree(es: seq<Entry>)
    ensures ByteFree(ReadBackEntries(es))
    decreases es, 0
  {
    if es != [] {
      ReadBackByteFree(es[0].value);
      EntriesByteFree(es[1..]);
    }
  }

  // ---- property order -----------------------------------------------------------------------------

  lemma HasKeyTail(es: seq<Entry>, k: string)
    requires es != []
    ensures HasKey(es, k) <==> es[0].key == k || HasKey(es[1..], k)
  {
    if i :| 0 <= i < |es[1..]| && es[1..][i].key == k {
      assert es[i + 1].key == k;
    }
    if i :| 0 < i < |es| && es[i].key == k {
      assert es[1..][i - 1].key == k;
    }
  }

  lemma {:induction false} PutKeys(es: seq<Entry>, k: string, v: Value, k': string)
    ensures HasKey(Put(es, k, v), k') <==> k' == k || HasKey(es, k')
  {
    var r := Put(es, k, v);
    HasKeyTail(r, k');
    if es == [] {
    } else if es[0].key == k {
      HasKeyTail(es, k');
      assert r[1..] == es[1..];
    } else if Before(k, es[0].key) {
      assert r[1..] == es;
    } else {
      HasKeyTail(es, k');
      assert r[1..] == Put(es[1..], k, v);
      PutKeys(es[1..], k, v, k');
    }
  }

  /** Key `a` may stand before key `b`. */
  predicate MayPrecede(a: string, b: string) {
    a != b && !Before(b, a)
  }

  lemma OrderedCons(e: Entry, es: seq<Entry>)
    requires Ordered(es) && forall j | 0 <= j < |es| :: MayPrecede(e.key, es[j].key)
    ensures Ordered([e] + es)
  {
  }

  lemma OrderedHead(es: seq<Entry>, k: string)
    requires Ordered(es) && es != [] && HasKey(es[1..], k)
    ensures MayPrecede(es[0].key, k)
  {
    var m :| 0 <= m < |es[1..]| && es[1..][m].key == k;
    assert es[m + 1].key == k;
  }

  /** Assigning a property keeps keys distinct and in property order. */
  lemma {:induction false} PutOrdered(es: seq<Entry>, k: string, v: Value)
    requires Ordered(es)
    ensures Ordered(Put(es, k, v))
  {
    if es != [] && es[0].key != k && !Before(k, es[0].key) {
      var tail := Put(es[1..], k, v);
      PutOrdered(es[1..], k, v);
      forall j | 0 <= j < |tail| ensures MayPrecede(es[0].key, tail[j].key) {
        PutKeys(es[1..], k, v, tail[j].key);
        assert HasKey(tail, tail[j].key);
        if tail[j].key != k {
          OrderedHead(es, tail[j].key);
        }
      }
      OrderedCons(es[0], tail);
    }
  }

  lemma {:induction false} AssignAllOrdered(g: Guards, r: Record, es: seq<Entry>)
    requires r.Record? && Ordered(r.own)
    ensures AssignAll(g, r, es).Record? ==> Ordered(AssignAll(g, r, es).own)
    decreases |es|
  {
    if es != [] {
      var next := Assign(g, r, es[0].key, es[0].value);
      PutOrdered(r.own, es[0].key, es[0].value);
      if next.Record? {
        AssignAllOrdered(g, next, es[1..]);
      } else {
        StaysBroken(g, es[1..]);
      }
    }
  }

  lemma {:induction false} StaysBroken(g: Guards, es: seq<Entry>)
    ensures AssignAll(g, Broken, es) == Broken
    decreases |es|
  {
    if es != [] {
      StaysBroken(g, es[1..]);
    }
  }

  lemma {:induction false} PutAtEnd(es: seq<Entry>, e: Entry)
    requires Ordered(es + [e])
    ensures Put(es, e.key, e.value) == es + [e]
  {
    if es != [] {
      var all := es + [e];
      assert all[0].key != all[|es|].key && !Before(all[|es|].key, all[0].key);
      assert es[1..] + [e] == all[1..];
      PutAtEnd(es[1..], e);
    }
  }

  /** An ordinary name on a record with the standard prototype becomes a property. */
  lemma StandardAssign(g: Guards, own: seq<Entry>, k: string, v: Value)
    requires k != PROTO
    ensures Assign(g, Record(own, Standard), k, v) == Record(Put(own, k, v), Standard)
  {
  }

  /** Rebuilding a record in its own order gives the record. */
  lemma {:induction false} AssignAllRebuilds(g: Guards, acc: seq<Entry>, es: seq<Entry>)
    requires Ordered(acc + es) && !HasKey(es, PROTO)
    ensures AssignAll(g, Record(acc, Standard), es) == Record(acc + es, Standard)
    decreases |es|
  {
    if es == [] {
      assert acc + es == acc;
    } else {
      var all, acc' := acc + es, acc + [es[0]];
      assert acc' + es[1..] == all && acc' == all[..|acc| + 1];
      HasKeyTail(es, PROTO);
      PutAtEnd(acc, es[0]);
      StandardAssign(g, acc, es[0].key, es[0].value);
      AssignAllRebuilds(g, acc', es[1..]);
    }
  }

  lemma RebuiltInOrder(es: seq<Entry>)
    requires Ordered(es) && !HasKey(es, PROTO)
    ensures Rebuilt(es) == Obj(es)
  {
    assert [] + es == es;
    AssignAllRebuilds(Unguarded, [], es);
  }

  // ---- the values that survive --------------------------------------------------------------------

  predicate HasBom(s: string) {
    s != "" && s[0] == Utf8.BOM
  }

  /** The number is not an integer, or is one that 64 bits hold, -0 aside. */
  predicate NumberSurvives(bits: Bits64) {
    Integral(bits).Some? ==> bits != NEGATIVE_ZERO && -TWO_64 <= Integral(bits).value < TWO_64
  }

  /** The value without its float wrappers: every `CborFloat` is the number it holds. */
  function Unwrapped(v: Value): (r: Value)
    decreases v, 1
  {
    match v
    case Float(bits) => NumberOf(bits)
    case Wrapped(bits) => NumberOf(bits)
    case Arr(items) => Arr(UnwrappedItems(items))
    case Obj(es) => Obj(UnwrappedEntries(es))
    case Heir(es, parent) => Heir(UnwrappedEntries(es), parent)
    case _ => v
  }

  function UnwrappedItems(items: seq<Value>): (r: seq<Value>)
    ensures |r| == |items|
    decreases items, 0
  {
    if items == [] then [] else [Unwrapped(items[0])] + UnwrappedItems(items[1..])
  }

  function UnwrappedEntries(es: seq<Entry>): (r: seq<Entry>)
    ensures |r| == |es| && forall i | 0 <= i < |es| :: r[i].key == es[i].key
    decreases es, 0
  {
    if es == [] then [] else [Entry(es[0].key, Unwrapped(es[0].value))] + UnwrappedEntries(es[1..])
  }

  /** The round-trip domain: integers of 64 bits, no -0 outside a wrapper, no text or key with a leading
      byte order mark, no byte arrays, and records with the standard prototype and no `__proto__`. */
  ghost predicate InDomain(v: Value)
    decreases v, 1
  {
    match v
    case Int(i) => -TWO_64 <= i < TWO_64
    case Float(bits) => NumberSurvives(bits)
    case Text(s) => !HasBom(s)
    case ByteString(_) => false
    case Arr(items) => ItemsInDomain(items)
    case Obj(es) => Ordered(es) && EntriesInDomain(es)
    case Heir(_, _) => false
    case _ => true
  }

  ghost predicate ItemsInDomain(items: seq<Value>)
    decreases items, 0
  {
    items != [] ==> InDomain(items[0]) && ItemsInDomain(items[1..])
  }

  ghost predicate EntriesInDomain(es: seq<Entry>)
    decreases es, 0
  {
    es != [] ==>
      && es[0].key != PROTO && !HasBom(es[0].key)
      && InDomain(es[0].value) && EntriesInDomain(es[1..])
  }

  /** The length of all keys; it counts each key once, so reading back can only lower it. */
  ghost function KeyWeight(es: seq<Entry>): nat {
    if es == [] then 0 else 1 + |es[0].key| + KeyWeight(es[1..])
  }

  lemma {:induction false} PutKeyWeight(es: seq<Entry>, k: string, v: Value)
    ensures KeyWeight(Put(es, k, v)) <= KeyWeight(es) + 1 + |k|
  {
    if es != [] && es[0].key != k && !Before(k, es[0].key) {
      PutKeyWeight(es[1..], k, v);
    }
  }

  lemma {:induction false} AssignAllKeyWeight(g: Guards, r: Record, es: seq<Entry>)
    requires r.Record?
    ensures var r' := AssignAll(g, r, es); r'.Record? ==> KeyWeight(r'.own) <= KeyWeight(r.own) + KeyWeight(es)
    decreases |es|
  {
    if es != [] {
      var next := Assign(g, r, es[0].key, es[0].value);
      PutKeyWeight(r.own, es[0].key, es[0].value);
      if next.Record? {
        AssignAllKeyWeight(g, next, es[1..]);
      } else {
        StaysBroken(g, es[1..]);
      }
    }
  }

  /** A `__proto__` among the assignments costs a key; without one the prototype stays. */
  lemma {:induction false} ProtoIsLost(g: Guards, own: seq<Entry>, es: seq<Entry>)
    requires !HasKey(own, PROTO)
    ensures var r := AssignAll(g, Record(own, Standard), es);
            && (HasKey(es, PROTO) && r.Record? ==> KeyWeight(r.own) < KeyWeight(own) + KeyWeight(es))
            && (!HasKey(es, PROTO) ==> r.Record? && r.parent == Standard)
    decreases |es|
  {
    if es != [] {
      var e := es[0];
      HasKeyTail(es, PROTO);
      if e.key == PROTO {
        AssignAllKeyWeight(g, SetParent(Record(own, Standard), e.value), es[1..]);
      } else {
        StandardAssign(g, own, e.key, e.value);
        PutKeys(own, e.key, e.value, PROTO);
        PutKeyWeight(own, e.key, e.value);
        ProtoIsLost(g, Put(own, e.key, e.value), es[1..]);
      }
    }
  }

  lemma {:induction false} AssignAllConcat(g: Guards, r: Record, a: seq<Entry>, b: seq<Entry>)
    ensures AssignAll(g, r, a + b) == AssignAll(g, AssignAll(g, r, a), b)
    decreases |a|
  {
    if a == [] {
      assert a + b == b;
    } else {
      assert (a + b)[1..] == a[1..] + b && (a + b)[0] == a[0];
      AssignAllConcat(g, Assign(g, r, a[0].key, a[0].value), a[1..], b);
    }
  }

  lemma {:induction false} OrdinaryNames(g: Guards, own: seq<Entry>, es: seq<Entry>)
    requires !HasKey(own, PROTO) && !HasKey(es, PROTO)
    ensures var r := AssignAll(g, Record(own, Standard), es);
            r.Record? && r.parent == Standard && !HasKey(r.own, PROTO)
    decreases |es|
  {
    if es != [] {
      HasKeyTail(es, PROTO);
      StandardAssign(g, own, es[0].key, es[0].value);
      PutKeys(own, es[0].key, es[0].value, PROTO);
      OrdinaryNames(g, Put(own, es[0].key, es[0].value), es[1..]);
    }
  }

  lemma AssignOne(g: Guards, r: Record, e: Entry)
    ensures AssignAll(g, r, [e]) == Assign(g, r, e.key, e.value)
  {
    assert [e][1..] == [];
  }

  /** The first `__proto__` assigned to a record makes no property, and sets the prototype to an object or
      to nothing, or leaves it. */
  lemma FirstProtoIsNoProperty(g: Guards, own: seq<Entry>, es: seq<Entry>, v: Value)
    requires !HasKey(own, PROTO) && !HasKey(es, PROTO)
    ensures var before := AssignAll(g, Record(own, Standard), es);
            var r := AssignAll(g, Record(own, Standard), es + [Entry(PROTO, v)]);
            && before.Record? && r.Record? && r.own == before.own && !HasKey(r.own, PROTO)
            && r.parent == if v.Null? then Nothing else if IsObject(v) then Is(v) else Standard
  {
    OrdinaryNames(g, own, es);
    AssignAllConcat(g, Record(own, Standard), es, [Entry(PROTO, v)]);
    AssignOne(g, AssignAll(g, Record(own, Standard), es), Entry(PROTO, v));
  }

  lemma {:induction false} UnwrappedKeyWeight(es: seq<Entry>)
    ensures KeyWeight(UnwrappedEntries(es)) == KeyWeight(es)
    decreases |es|
  {
    if es != [] {
      UnwrappedKeyWeight(es[1..]);
    }
  }

  ghost predicate KeysClean(es: seq<Entry>) {
    forall i | 0 <= i < |es| :: !HasBom(es[i].key)
  }

  lemma {:induction false} ReadBackKeyWeight(es: seq<Entry>)
    ensures KeyWeight(ReadBackEntries(es)) <= KeyWeight(es)
    ensures !KeysClean(es) ==> KeyWeight(ReadBackEntries(es)) < KeyWeight(es)
    decreases |es|
  {
    if es != [] {
      ReadBackKeyWeight(es[1..]);
      if !KeysClean(es) && !HasBom(es[0].key) {
        var i :| 0 <= i < |es| && HasBom(es[i].key);
        assert es[1..][i - 1] == es[i];
      }
    }
  }

  lemma RebuiltWeight(es: seq<Entry>)
    ensures var v := Rebuilt(es);
            && (v.Obj? || v.Heir?) && Ordered(v.entries) && KeyWeight(v.entries) <= KeyWeight(es)
            && (HasKey(es, PROTO) || v.Heir? ==> KeyWeight(v.entries) < KeyWeight(es))
  {
    UnguardedHolds(EMPTY, es);
    AssignAllOrdered(Unguarded, EMPTY, es);
    AssignAllKeyWeight(Unguarded, EMPTY, es);
    ProtoIsLost(Unguarded, [], es);
  }

  lemma SameKeysOrdered(a: seq<Entry>, b: seq<Entry>)
    requires |a| == |b| && (forall i | 0 <= i < |a| :: a[i].key == b[i].key) && Ordered(a)
    ensures Ordered(b)
  {
  }

  lemma KeysSurvive(es: seq<Entry>, v: Value)
    requires v == Rebuilt(ReadBackEntries(es)) && v.entries == UnwrappedEntries(es)
    ensures Ordered(es) && KeysClean(es) && !HasKey(ReadBackEntries(es), PROTO) && v.Obj?
  {
    RebuiltWeight(ReadBackEntries(es));
    ReadBackKeyWeight(es);
    UnwrappedKeyWeight(es);
    SameKeysOrdered(UnwrappedEntries(es), es);
  }

  lemma CleanKeysReadBack(es: seq<Entry>)
    requires Ordered(es) && KeysClean(es) && !HasKey(ReadBackEntries(es), PROTO)
    ensures Rebuilt(ReadBackEntries(es)) == Obj(ReadBackEntries(es)) && !HasKey(es, PROTO)
  {
    var back := ReadBackEntries(es);
    forall i | 0 <= i < |es| ensures back[i].key == es[i].key {
      assert !HasBom(es[i].key);
    }
    SameKeysOrdered(es, back);
    RebuiltInOrder(back);
  }

  /** A record that reads back with all its keys has clean, distinct, ordered keys, and its entries are
      read back one by one. */
  lemma FixedRecord(es: seq<Entry>)
    requires Rebuilt(ReadBackEntries(es)) == Obj(UnwrappedEntries(es))
    ensures Ordered(es) && !HasKey(es, PROTO) && ReadBackEntries(es) == UnwrappedEntries(es)
  {
    KeysSurvive(es, Obj(UnwrappedEntries(es)));
    CleanKeysReadBack(es);
  }

  lemma ReadBackIntFixed(i: int)
    ensures ReadBackInt(i) == i <==> -TWO_64 <= i < TWO_64
  {
  }

  lemma NumberFixed(bits: Bits64)
    ensures ReadBackNumber(bits) == NumberOf(bits) <==> NumberSurvives(bits)
  {
    NegativeZeroIsIntegral();
    if Integral(bits).Some? {
      ReadBackIntFixed(Integral(bits).value);
    }
  }

  lemma DomainRecord(es: seq<Entry>)
    requires Ordered(es) && ReadBackEntries(es) == UnwrappedEntries(es) && !HasKey(es, PROTO)
    ensures Rebuilt(ReadBackEntries(es)) == Obj(UnwrappedEntries(es))
  {
    var back := ReadBackEntries(es);
    SameKeysOrdered(es, back);
    forall i | 0 <= i < |back| ensures back[i].key != PROTO {
      assert back[i].key == es[i].key;
    }
    RebuiltInOrder(back);
  }

  lemma RecordFixed(es: seq<Entry>)
    requires ReadBackEntries(es) == UnwrappedEntries(es) && !HasKey(es, PROTO) <==> EntriesInDomain(es)
    ensures Rebuilt(ReadBackEntries(es)) == Obj(UnwrappedEntries(es)) <==> Ordered(es) && EntriesInDomain(es)
  {
    if Rebuilt(ReadBackEntries(es)) == Obj(UnwrappedEntries(es)) {
      FixedRecord(es);
    } else if Ordered(es) && EntriesInDomain(es) {
      DomainRecord(es);
    }
  }

  lemma HeirIsLost(es: seq<Entry>, parent: Option<Value>)
    ensures ReadBack(Heir(es, parent)) != Heir(UnwrappedEntries(es), parent)
  {
    RebuiltWeight(ReadBackEntries(es));
    ReadBackKeyWeight(es);
    UnwrappedKeyWeight(es);
  }

  /** Reading back only unwraps exactly on the round-trip domain. */
  lemma {:induction false} ReadBackFixed(v: Value)
    ensures ReadBack(v) == Unwrapped(v) <==> InDomain(v)
    decreases v, 1
  {
    match v
    case Int(i) => ReadBackIntFixed(i);
    case Float(bits) => NumberFixed(bits);
    case ByteString(bytes) => RebuiltWeight(IndexEntries(bytes, 0));
    case Arr(items) => ReadBackItemsFixed(items);
    case Obj(es) =>
      ReadBackEntriesFixed(es);
      RecordFixed(es);
    case Heir(es, parent) => HeirIsLost(es, parent);
    case _ =>
  }

  lemma {:induction false} ReadBackItemsFixed(items: seq<Value>)
    ensures ReadBackItems(items) == UnwrappedItems(items) <==> ItemsInDomain(items)
    decreases items, 0
  {
    if items != [] {
      var back, plain := ReadBackItems(items), UnwrappedItems(items);
      ReadBackFixed(items[0]);
      ReadBackItemsFixed(items[1..]);
      assert back[1..] == ReadBackItems(items[1..]) && plain[1..] == UnwrappedItems(items[1..]);
      assert back == [back[0]] + back[1..] && plain == [plain[0]] + plain[1..];
    }
  }

  lemma {:induction false} ReadBackEntriesFixed(es: seq<Entry>)
    ensures ReadBackEntries(es) == UnwrappedEntries(es) && !HasKey(es, PROTO) <==> EntriesInDomain(es)
    decreases es, 0
  {
    if es != [] {
      var back, plain, tail := ReadBackEntries(es), UnwrappedEntries(es), es[1..];
      ReadBackFixed(es[0].value);
      ReadBackEntriesFixed(tail);
      assert back[1..] == ReadBackEntries(tail) && plain[1..] == UnwrappedEntries(tail);
      assert back == [back[0]] + back[1..] && plain == [plain[0]] + plain[1..];
      HasKeyTail(es, PROTO);
    }
  }

  // ---- the codec's laws ---------------------------------------------------------------------------

  /** `decode(encode(v))` is `v` unwrapped exactly on the round-trip domain, and is never an error. */
  lemma RoundTrip(h: Host, v: Value)
    requires RoundsLikeDoubles(h) && |Encode(v)| <= MAX_LEN
    ensures Decode(h, Encode(v)).Success?
    ensures Decode(h, Encode(v)) == Success(Unwrapped(v)) <==> InDomain(v)
  {
    ItemReadBack(h, v, []);
    assert Encode(v) + [] == Encode(v);
    ReadBackFixed(v);
  }

  /** No encoding is a proper prefix of another, and encodings are equal only for values that read
      back alike; on the domain, only for values that unwrap alike. */
  lemma PrefixFree(v: Value, w: Value, restV: seq<byte>, restW: seq<byte>)
    requires |Encode(v)| <= MAX_LEN && |Encode(w)| <= MAX_LEN
    requires Encode(v) + restV == Encode(w) + restW
    ensures restV == restW && Encode(v) == Encode(w) && ReadBack(v) == ReadBack(w)
    ensures InDomain(v) && InDomain(w) ==> Unwrapped(v) == Unwrapped(w)
  {
    var h := Host(n => n, _ => None, _ => None, Unguarded);
    ItemReadBack(h, v, restV);
    ItemReadBack(h, w, restW);
    assert (Encode(v) + restV)[..|Encode(v)|] == Encode(v);
    assert (Encode(w) + restW)[..|Encode(w)|] == Encode(w);
    ReadBackFixed(v);
    ReadBackFixed(w);
  }
}
