/**
 * The CBOR codec of the wire (RFC 8949 section 3, shortest heads as in section 4.1) on values and byte
 * strings. `CborCodec` holds the writer and reader that compute these functions in place.
 */
module Cbor {
  import opened Bytes
  import opened Doubles
  import Utf8
  import Decimal

  const TWO_64: int := 0x1_0000_0000_0000_0000
  /** The largest length a double counts exactly; no buffer is longer. */
  const MAX_LEN: nat := 0x20_0000_0000_0000

  /**
   * A JavaScript value. An integral number other than -0 is `Int` (as is a bigint), any other number is
   * `Float`, and `Wrapped` is a `CborFloat`. A record is its own enumerable properties in property order:
   * `Obj` with the standard prototype, `Heir` with another object or nothing as its prototype.
   */
  datatype Value =
    | Null
    | Bool(b: bool)
    | Int(i: int)
    | Float(bits: Bits64)
    | Wrapped(bits: Bits64)
    | Text(s: string)
    | ByteString(bytes: seq<byte>)
    | Arr(items: seq<Value>)
    | Obj(entries: seq<Entry>)
    | Heir(entries: seq<Entry>, parent: Option<Value>)

  datatype Entry = Entry(key: string, value: Value)

  /** The number with these bits. */
  function NumberOf(bits: Bits64): (v: Value) {
    if bits == NEGATIVE_ZERO then Float(bits)
    else if IsNaN(bits) then Float(NAN)
    else match Integral(bits)
      case Some(n) => Int(n)
      case None => Float(bits)
  }

  // ---- records ------------------------------------------------------------------------------------

  /** Array-index keys, which precede all other keys of a record. */
  predicate IsIndex(k: string) {
    k != "" && Decimal.AllDigits(k) && (|k| == 1 || k[0] != '0') && Decimal.Value(k) < 0xFFFF_FFFF
  }

  /** Whether property order puts key `a` before key `b` whatever the insertion order. */
  predicate Before(a: string, b: string) {
    IsIndex(a) && (!IsIndex(b) || Decimal.Value(a) < Decimal.Value(b))
  }

  /** Distinct keys in property order: what every record satisfies. */
  ghost predicate Ordered(es: seq<Entry>) {
    forall i, j | 0 <= i < j < |es| :: es[i].key != es[j].key && !Before(es[j].key, es[i].key)
  }

  function Put(es: seq<Entry>, k: string, v: Value): (r: seq<Entry>)
  {
    if es == [] then [Entry(k, v)]
    else if es[0].key == k then [Entry(k, v)] + es[1..]
    else if Before(k, es[0].key) then [Entry(k, v)] + es
    else [es[0]] + Put(es[1..], k, v)
  }

  predicate HasKey(es: seq<Entry>, k: string) {
    exists i :: 0 <= i < |es| && es[i].key == k
  }

  const PROTO := "__proto__"

  /** What an assignment to an inherited name meets: nothing in its way, the `__proto__` accessor, a name
      that silently takes no value, or one that throws. */
  datatype Slot = Free | Accessor | Ignored | Throws

  /** The names a byte array of a given length guards when it is a prototype. */
  type Guards = (nat, string) -> Slot

  function StandardSlot(k: string): (r: Slot) {
    if k == PROTO then Accessor else Free
  }

  /** What the name `k` meets above a record whose prototype is the object `v`. */
  function SlotUnder(g: Guards, v: Value, k: string): (r: Slot) {
    match v
    case Obj(es) => if HasKey(es, k) then Free else StandardSlot(k)
    case Heir(es, parent) =>
      if HasKey(es, k) then Free
      else (match parent
        case None => Free
        case Some(p) => SlotUnder(g, p, k))
    case ByteString(bytes) => if k == PROTO then Accessor else g(|bytes|, k)
    case _ => StandardSlot(k)
  }

  datatype Parent = Standard | Nothing | Is(target: Value)

  /** A record under construction; `Broken` once an assignment has thrown. */
  datatype Record = Record(own: seq<Entry>, parent: Parent) | Broken

  const EMPTY := Record([], Standard)

  function SlotOf(g: Guards, parent: Parent, k: string): (r: Slot) {
    match parent
    case Standard => StandardSlot(k)
    case Nothing => Free
    case Is(v) => SlotUnder(g, v, k)
  }

  predicate IsObject(v: Value) {
    v.ByteString? || v.Arr? || v.Obj? || v.Heir?
  }

  /** The `__proto__` accessor: it takes an object or null, and nothing else. */
  function SetParent(r: Record, v: Value): (r': Record)
    requires r.Record?
  {
    if v.Null? then r.(parent := Nothing) else if IsObject(v) then r.(parent := Is(v)) else r
  }

  /** `obj[k] = v`. */
  function Assign(g: Guards, r: Record, k: string, v: Value): (r': Record) {
    if r.Broken? then r
    else if HasKey(r.own, k) then r.(own := Put(r.own, k, v))
    else
      match SlotOf(g, r.parent, k)
      case Free => r.(own := Put(r.own, k, v))
      case Accessor => SetParent(r, v)
      case Ignored => r
      case Throws => Broken
  }

  function AssignAll(g: Guards, r: Record, es: seq<Entry>): (r': Record)
    decreases |es|
  {
    if es == [] then r else AssignAll(g, Assign(g, r, es[0].key, es[0].value), es[1..])
  }

  function RecordValue(r: Record): (v: Value)
    requires r.Record?
  {
    match r.parent
    case Standard => Obj(r.own)
    case Nothing => Heir(r.own, None)
    case Is(v) => Heir(r.own, Some(v))
  }

  // ---- encode -------------------------------------------------------------------------------------

  /** A major type and its argument in the shortest form; only 64 bits of the argument are kept. */
  function Head(major: nat, n: nat): (b: seq<byte>)
    requires major < 8
    ensures 1 <= |b| <= 9
  {
    var m := major * 32;
    if n < 24 then [m + n]
    else if n < 0x100 then [m + 24] + BigEndian(n, 1)
    else if n < 0x1_0000 then [m + 25] + BigEndian(n, 2)
    else if n < 0x1_0000_0000 then [m + 26] + BigEndian(n, 4)
    else [m + 27] + BigEndian(n, 8)
  }

  function EncodeInt(i: int): (b: seq<byte>)
    ensures 1 <= |b| <= 9
  {
    if i >= 0 then Head(0, i) else Head(1, -1 - i)
  }

  /** A number is written as an integer when it is one, -0 included. */
  function EncodeNumber(bits: Bits64): (b: seq<byte>)
    ensures 1 <= |b| <= 9
  {
    match Integral(bits)
    case Some(n) => EncodeInt(n)
    case None => [0xFB] + bits
  }

  function EncodeText(s: string): (b: seq<byte>)
    ensures |b| > |Utf8.EncodeText(s)|
  {
    Head(3, |Utf8.EncodeText(s)|) + Utf8.EncodeText(s)
  }

  function Encode(v: Value): (b: seq<byte>)
    ensures b != []
    ensures v.ByteString? ==> |b| > |EncodeIndexed(v.bytes, 0)|
    ensures v.Arr? ==> |b| > |EncodeItems(v.items)|
    ensures v.Obj? || v.Heir? ==> |b| > |EncodeEntries(v.entries)|
    decreases v, 1
  {
    match v
    case Null => [0xF6]
    case Bool(b) => if b then [0xF5] else [0xF4]
    case Int(i) => EncodeInt(i)
    case Float(bits) => EncodeNumber(bits)
    case Wrapped(bits) => [0xFB] + bits
    case Text(s) => EncodeText(s)
    case ByteString(bytes) => Head(5, |bytes|) + EncodeIndexed(bytes, 0)
    case Arr(items) => Head(4, |items|) + EncodeItems(items)
    case Obj(entries) => Head(5, |entries|) + EncodeEntries(entries)
    case Heir(entries, _) => Head(5, |entries|) + EncodeEntries(entries)
  }

  function EncodeItems(items: seq<Value>): (b: seq<byte>)
    ensures |items| <= |b|
    decreases items, 0
  {
    if items == [] then [] else Encode(items[0]) + EncodeItems(items[1..])
  }

  function EncodeEntries(es: seq<Entry>): (b: seq<byte>)
    ensures |es| <= |b|
    decreases es, 0
  {
    if es == [] then [] else EncodeText(es[0].key) + Encode(es[0].value) + EncodeEntries(es[1..])
  }

  /** A byte array takes the record path: its keys are the decimal indices. */
  function EncodeIndexed(bytes: seq<byte>, i: nat): (b: seq<byte>)
    requires i <= |bytes|
    ensures |bytes| - i <= |b|
    decreases |bytes| - i
  {
    if i == |bytes| then []
    else EncodeText(Decimal.Print(i)) + EncodeInt(bytes[i]) + EncodeIndexed(bytes, i + 1)
  }

  // ---- decode -------------------------------------------------------------------------------------

  datatype Error =
    | EndOfInput
    | UnsupportedInfo(ai: nat)
    | UnsupportedSimple(ai: nat)
    | UnsupportedMajor(major: nat)
    | BadUtf8
    | BadKey
    | BadAssignment
    | NarrowFloat
    | TrailingBytes

  datatype Parsed<+T> = Ok(value: T, rest: seq<byte>) | Err(error: Error)

  datatype Result<+T> = Success(value: T) | Failure(error: Error)

  /**
   * What the decoder takes from its host: `Number` of a 64-bit length, the exact widening of half and
   * single floats (`None` only to forbid them), `String` of a map key that is not text (`None` when it
   * throws), and the names a byte array guards as a prototype.
   */
  datatype Host = Host(
    round: nat -> nat,
    widen: seq<byte> -> Option<Bits64>,
    keyText: Value -> Option<string>,
    guards: Guards)

  /** Doubles count exactly up to 2^53, and never round a larger number below it. */
  ghost predicate RoundsLikeDoubles(h: Host) {
    forall n: nat {:trigger h.round(n)} ::
      (n <= MAX_LEN ==> h.round(n) == n) && (n > MAX_LEN ==> h.round(n) >= MAX_LEN)
  }

  function Take(n: nat, b: seq<byte>): (r: Parsed<seq<byte>>)
    ensures r.Ok? ==> |r.value| == n && b == r.value + r.rest
  {
    if n > |b| then Err(EndOfInput) else Ok(b[..n], b[n..])
  }

  function ArgWidth(ai: nat): (w: nat)
    requires 24 <= ai < 28
  {
    if ai == 24 then 1 else if ai == 25 then 2 else if ai == 26 then 4 else 8
  }

  function ReadArg(ai: nat, b: seq<byte>): (r: Parsed<nat>)
    ensures r.Ok? ==> |r.rest| <= |b|
  {
    if ai < 24 then Ok(ai, b)
    else if ai < 28 then
      match Take(ArgWidth(ai), b)
      case Ok(bytes, rest) => Ok(BeValue(bytes), rest)
      case Err(e) => Err(e)
    else Err(UnsupportedInfo(ai))
  }

  function ReadSimple(h: Host, ai: nat, b: seq<byte>): (r: Parsed<Value>)
    ensures r.Ok? ==> |r.rest| <= |b|
  {
    if ai == 20 then Ok(Bool(false), b)
    else if ai == 21 then Ok(Bool(true), b)
    else if ai == 22 || ai == 23 then Ok(Null, b)
    else if 25 <= ai < 28 then
      match Take(ArgWidth(ai), b)
      case Err(e) => Err(e)
      case Ok(bytes, rest) =>
        match if ai == 27 then Some(bytes) else h.widen(bytes)
        case Some(bits) => Ok(NumberOf(bits), rest)
        case None => Err(NarrowFloat)
    else Err(UnsupportedSimple(ai))
  }

  function ReadItem(h: Host, b: seq<byte>): (r: Parsed<Value>)
    ensures r.Ok? ==> |r.rest| < |b|
    decreases |b|, 0
  {
    if b == [] then Err(EndOfInput)
    else
      var major, ai := b[0] / 32, b[0] % 32;
      if major == 7 then ReadSimple(h, ai, b[1..])
      else if major == 6 then Err(UnsupportedMajor(major))
      else
        match ReadArg(ai, b[1..])
        case Err(e) => Err(e)
        case Ok(n, rest) => ReadBody(h, major, n, rest)
  }

  /** The item with major type `major` and argument `n`, from the bytes after its head. */
  function ReadBody(h: Host, major: nat, n: nat, b: seq<byte>): (r: Parsed<Value>)
    requires major < 6
    ensures r.Ok? ==> |r.rest| <= |b|
    decreases |b|, 3
  {
    if major == 0 then Ok(Int(n), b)
    else if major == 1 then Ok(Int(-1 - n), b)
    else if major <= 3 then ReadBytes(major, h.round(n), b)
    else if major == 4 then
      match ReadItems(h, h.round(n), b)
      case Ok(items, rest) => Ok(Arr(items), rest)
      case Err(e) => Err(e)
    else
      match ReadEntries(h, h.round(n), b, EMPTY)
      case Ok(r, rest) => if r.Record? then Ok(RecordValue(r), rest) else Err(BadAssignment)
      case Err(e) => Err(e)
  }

  function ReadBytes(major: nat, n: nat, b: seq<byte>): (r: Parsed<Value>)
    ensures r.Ok? ==> |r.rest| <= |b|
  {
    match Take(n, b)
    case Err(e) => Err(e)
    case Ok(bytes, rest) =>
      if major == 2 then Ok(ByteString(bytes), rest)
      else
        match Utf8.DecodeText(bytes)
        case Some(s) => Ok(Text(s), rest)
        case None => Err(BadUtf8)
  }

  function ReadItems(h: Host, n: nat, b: seq<byte>): (r: Parsed<seq<Value>>)
    ensures r.Ok? ==> |r.rest| + n <= |b| && |r.value| == n
    decreases |b|, 1
  {
    if n == 0 then Ok([], b)
    else
      match ReadItem(h, b)
      case Err(e) => Err(e)
      case Ok(v, rest) =>
        match ReadItems(h, n - 1, rest)
        case Ok(vs, rest') => Ok([v] + vs, rest')
        case Err(e) => Err(e)
  }

  /** A key item and its property name. */
  function ReadKey(h: Host, b: seq<byte>): (r: Parsed<string>)
    ensures r.Ok? ==> |r.rest| < |b|
    decreases |b|, 1
  {
    match ReadItem(h, b)
    case Err(e) => Err(e)
    case Ok(Text(s), rest) => Ok(s, rest)
    case Ok(k, rest) =>
      match h.keyText(k)
      case Some(s) => Ok(s, rest)
      case None => Err(BadKey)
  }

  /** Read entries and assign them in turn, stopping at an assignment that throws. */
  function ReadEntries(h: Host, n: nat, b: seq<byte>, acc: Record): (r: Parsed<Record>)
    ensures r.Ok? ==> |r.rest| + n <= |b|
    decreases |b|, 2
  {
    if n == 0 then Ok(acc, b)
    else
      match ReadKey(h, b)
      case Err(e) => Err(e)
      case Ok(k, rest) =>
        match ReadItem(h, rest)
        case Err(e) => Err(e)
        case Ok(v, rest') =>
          var acc' := Assign(h.guards, acc, k, v);
          if acc'.Broken? then Err(BadAssignment) else ReadEntries(h, n - 1, rest', acc')
  }

  function Decode(h: Host, b: seq<byte>): (r: Result<Value>)
  {
    match ReadItem(h, b)
    case Err(e) => Failure(e)
    case Ok(v, rest) => if rest == [] then Success(v) else Failure(TrailingBytes)
  }
}
