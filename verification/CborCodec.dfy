/** The writer and reader classes: the codec as it runs, on a growing byte list and a moving position. */
module CborCodec {
  import opened Bytes
  import opened Doubles
  import opened Cbor
  import Utf8
  import Decimal

  lemma ShiftStep(before: seq<byte>, value: nat, w: nat, i: nat)
    requires i < w
    ensures before + BigEndian(ShiftBytes(value, i), w - i)
            == before + BigEndian(ShiftBytes(value, i + 1), w - i - 1) + [ShiftBytes(value, i) % 256]
  {
    ShiftOneMore(value, i);
  }

  class Writer {
    var bytes: seq<byte>

    constructor ()
      ensures bytes == []
    {
      bytes := [];
    }

    method Push(x: nat)
      modifies this
      ensures bytes == old(bytes) + [x % 256]
    {
      bytes := bytes + [x % 256];
    }

    method PushAll(arr: seq<byte>)
      modifies this
      ensures bytes == old(bytes) + arr
    {
      for i := 0 to |arr|
        invariant bytes == old(bytes) + arr[..i]
      {
        bytes := bytes + [arr[i]];
        assert arr[..i + 1] == arr[..i] + [arr[i]];
      }
      assert arr[..|arr|] == arr;
    }

    /** The low `w` bytes of `value`, by shifts of eight bits from the top. */
    method PushShifted(value: nat, w: nat)
      modifies this
      ensures bytes == old(bytes) + BigEndian(value, w)
    {
      var i := w;
      while i > 0
        invariant 0 <= i <= w
        invariant bytes == old(bytes) + BigEndian(ShiftBytes(value, i), w - i)
      {
        i := i - 1;
        ShiftStep(old(bytes), value, w, i);
        Push(ShiftBytes(value, i));
      }
    }

    method PushWide(initial: byte, value: nat, w: nat)
      modifies this
      ensures bytes == old(bytes) + ([initial] + BigEndian(value, w))
    {
      Push(initial);
      PushShifted(value, w);
      Concat3(old(bytes), [initial], BigEndian(value, w));
    }

    method Head(major: nat, value: nat)
      requires major < 8
      modifies this
      ensures bytes == old(bytes) + Cbor.Head(major, value)
    {
      var m := major * 32;
      if value < 24 {
        Push(m + value);
      } else if value < 0x100 {
        PushWide(m + 24, value, 1);
      } else if value < 0x1_0000 {
        PushWide(m + 25, value, 2);
      } else if value < 0x1_0000_0000 {
        PushWide(m + 26, value, 4);
      } else {
        PushWide(m + 27, value, 8);
      }
    }

    method EncodeInt(value: int)
      modifies this
      ensures bytes == old(bytes) + Cbor.EncodeInt(value)
    {
      if value >= 0 {
        Head(0, value);
      } else {
        Head(1, -1 - value);
      }
    }

    method EncodeText(s: string)
      modifies this
      ensures bytes == old(bytes) + Cbor.EncodeText(s)
    {
      var u := Utf8.EncodeText(s);
      Head(3, |u|);
      PushAll(u);
      Concat3(old(bytes), Cbor.Head(3, |u|), u);
    }

    method Float64(bits: Bits64)
      modifies this
      ensures bytes == old(bytes) + ([0xFB] + bits)
    {
      Push(0xFB);
      PushAll(bits);
      Concat3(old(bytes), [0xFB], bits);
    }

    method EncodeInto(v: Value)
      modifies this
      ensures bytes == old(bytes) + Encode(v)
      decreases v, 1
    {
      match v
      case Null =>
        Push(0xF6);
      case Bool(b) =>
        Push(if b then 0xF5 else 0xF4);
      case Int(i) =>
        EncodeInt(i);
      case Float(bits) =>
        match Integral(bits) {
          case Some(n) => EncodeInt(n);
          case None => Float64(bits);
        }
      case Wrapped(bits) =>
        Float64(bits);
      case Text(s) =>
        EncodeText(s);
      case ByteString(b) =>
        Head(5, |b|);
        EncodeIndices(b);
        Concat3(old(bytes), Cbor.Head(5, |b|), EncodeIndexed(b, 0));
      case Arr(items) =>
        Head(4, |items|);
        EncodeAll(items);
        Concat3(old(bytes), Cbor.Head(4, |items|), EncodeItems(items));
      case Obj(entries) =>
        Head(5, |entries|);
        EncodeRecord(entries);
        Concat3(old(bytes), Cbor.Head(5, |entries|), EncodeEntries(entries));
      case Heir(entries, _) =>
        Head(5, |entries|);
        EncodeRecord(entries);
        Concat3(old(bytes), Cbor.Head(5, |entries|), EncodeEntries(entries));
    }

    method EncodeAll(items: seq<Value>)
      modifies this
      ensures bytes == old(bytes) + EncodeItems(items)
      decreases items, 0
    {
      var i := 0;
      while i < |items|
        invariant i <= |items|
        invariant bytes + EncodeItems(items[i..]) == old(bytes) + EncodeItems(items)
      {
        ghost var was, tail := bytes, EncodeItems(items[i + 1..]);
        assert items[i..][1..] == items[i + 1..];
        EncodeInto(items[i]);
        Concat3(was, Encode(items[i]), tail);
        i := i + 1;
      }
    }

    method EncodeRecord(entries: seq<Entry>)
      modifies this
      ensures bytes == old(bytes) + EncodeEntries(entries)
      decreases entries, 0
    {
      var i := 0;
      while i < |entries|
        invariant i <= |entries|
        invariant bytes + EncodeEntries(entries[i..]) == old(bytes) + EncodeEntries(entries)
      {
        ghost var was, tail, e := bytes, EncodeEntries(entries[i + 1..]), entries[i];
        assert entries[i..][1..] == entries[i + 1..];
        EncodeText(entries[i].key);
        EncodeInto(entries[i].value);
        Concat4(was, Cbor.EncodeText(e.key), Encode(e.value), tail);
        Concat3(Cbor.EncodeText(e.key), Encode(e.value), tail);
        i := i + 1;
      }
    }

    method EncodeIndices(b: seq<byte>)
      modifies this
      ensures bytes == old(bytes) + EncodeIndexed(b, 0)
    {
      var i := 0;
      while i < |b|
        invariant i <= |b|
        invariant bytes + EncodeIndexed(b, i) == old(bytes) + EncodeIndexed(b, 0)
      {
        ghost var was, key, tail := bytes, Cbor.EncodeText(Decimal.Print(i)), EncodeIndexed(b, i + 1);
        EncodeText(Decimal.Print(i));
        EncodeInt(b[i]);
        Concat4(was, key, Cbor.EncodeInt(b[i]), tail);
        Concat3(key, Cbor.EncodeInt(b[i]), tail);
        i := i + 1;
      }
    }
  }

  /** `encode`. */
  method EncodeValue(v: Value) returns (b: seq<byte>)
    ensures b == Encode(v)
  {
    var w := new Writer();
    w.EncodeInto(v);
    b := w.bytes;
  }

  class Reader {
    const host: Host
    const buf: seq<byte>
    var pos: nat

    ghost predicate Valid()
      reads this
    {
      pos <= |buf|
    }

    function Rest(): (r: seq<byte>)
      requires Valid()
      reads this
    {
      buf[pos..]
    }

    /** A method result agrees with a parse of the bytes that were left: same value or error, and on
        success the position is where the parse stopped. */
    ghost predicate Agrees<T>(r: Result<T>, p: Parsed<T>)
      reads this
    {
      && Valid()
      && match p {
         case Ok(v, rest) => r == Success(v) && Rest() == rest
         case Err(e) => r == Failure(e)
         }
    }

    constructor (h: Host, b: seq<byte>)
      ensures Valid() && host == h && buf == b && Rest() == b
    {
      host, buf, pos := h, b, 0;
    }

    method Byte() returns (r: Result<byte>)
      requires Valid()
      modifies this`pos
      ensures Valid()
      ensures old(pos) < |buf| ==> r == Success(buf[old(pos)]) && pos == old(pos) + 1
      ensures old(pos) == |buf| ==> r == Failure(EndOfInput)
    {
      if pos >= |buf| {
        return Failure(EndOfInput);
      }
      r := Success(buf[pos]);
      pos := pos + 1;
    }

    method TakeBytes(n: nat) returns (r: Result<seq<byte>>)
      requires Valid()
      modifies this`pos
      ensures Agrees(r, Take(n, old(Rest())))
    {
      if pos + n > |buf| {
        return Failure(EndOfInput);
      }
      r := Success(buf[pos..pos + n]);
      assert buf[pos..pos + n] == Rest()[..n];
      pos := pos + n;
    }

    method Arg(ai: nat) returns (r: Result<nat>)
      requires Valid()
      modifies this`pos
      ensures Agrees(r, ReadArg(ai, old(Rest())))
    {
      if ai < 24 {
        return Success(ai);
      }
      if ai >= 28 {
        return Failure(UnsupportedInfo(ai));
      }
      var v, w := 0, ArgWidth(ai);
      for i := 0 to w
        invariant Valid() && pos == old(pos) + i
        invariant v == BeValue(buf[old(pos)..pos])
      {
        var x := Byte();
        match x
        case Failure(e) =>
          return Failure(e);
        case Success(b) =>
          v := v * 256 + b;
          ghost var seen := buf[old(pos)..pos];
          assert seen[..|seen| - 1] == buf[old(pos)..pos - 1];
      }
      assert old(Rest())[..w] == buf[old(pos)..pos];
      r := Success(v);
    }

    method Simple(ai: nat) returns (r: Result<Value>)
      requires Valid()
      modifies this`pos
      ensures Agrees(r, ReadSimple(host, ai, old(Rest())))
    {
      if ai == 20 {
        r := Success(Bool(false));
      } else if ai == 21 {
        r := Success(Bool(true));
      } else if ai == 22 || ai == 23 {
        r := Success(Null);
      } else if 25 <= ai < 28 {
        var t := TakeBytes(ArgWidth(ai));
        match t
        case Failure(e) => r := Failure(e);
        case Success(bytes) =>
          var bits := if ai == 27 then Some(bytes) else host.widen(bytes);
          r := if bits.Some? then Success(NumberOf(bits.value)) else Failure(NarrowFloat);
      } else {
        r := Failure(UnsupportedSimple(ai));
      }
    }

    method Read() returns (r: Result<Value>)
      requires Valid()
      modifies this`pos
      ensures Agrees(r, ReadItem(host, old(Rest())))
      decreases |buf| - pos, 0
    {
      ghost var start := Rest();
      var x := Byte();
      if x.Failure? {
        return Failure(x.error);
      }
      assert Rest() == start[1..];
      var major, ai := x.value / 32, x.value % 32;
      if major == 7 {
        r := Simple(ai);
      } else if major == 6 {
        r := Failure(UnsupportedMajor(major));
      } else {
        var n := Arg(ai);
        match n
        case Failure(e) => r := Failure(e);
        case Success(n) => r := Body(major, n);
      }
    }

    method Body(major: nat, n: nat) returns (r: Result<Value>)
      requires Valid() && major < 6
      modifies this`pos
      ensures Agrees(r, ReadBody(host, major, n, old(Rest())))
      decreases |buf| - pos, 3
    {
      if major == 0 {
        r := Success(Int(n));
      } else if major == 1 {
        r := Success(Int(-1 - n));
      } else if major <= 3 {
        var t := TakeBytes(host.round(n));
        match t
        case Failure(e) => r := Failure(e);
        case Success(bytes) =>
          if major == 2 {
            r := Success(ByteString(bytes));
          } else {
            var s := Utf8.DecodeText(bytes);
            r := if s.Some? then Success(Text(s.value)) else Failure(BadUtf8);
          }
      } else if major == 4 {
        var items := Items(host.round(n));
        match items
        case Failure(e) => r := Failure(e);
        case Success(vs) => r := Success(Arr(vs));
      } else {
        var entries := Entries(host.round(n));
        match entries
        case Failure(e) => r := Failure(e);
        case Success(obj) => r := if obj.Record? then Success(RecordValue(obj)) else Failure(BadAssignment);
      }
    }

    method Items(n: nat) returns (r: Result<seq<Value>>)
      requires Valid()
      modifies this`pos
      ensures Agrees(r, ReadItems(host, n, old(Rest())))
      decreases |buf| - pos, 1
    {
      var arr: seq<Value> := [];
      var i := 0;
      PrependNothing(ReadItems(host, n, Rest()));
      while i < n
        invariant i <= n && Valid() && old(pos) + i <= pos
        invariant ReadItems(host, n, old(Rest())) == Prepend(arr, ReadItems(host, n - i, Rest()))
      {
        ghost var start := Rest();
        var x := Read();
        match x
        case Failure(e) =>
          PrependFails(host, n - i, start, arr);
          return Failure(e);
        case Success(v) =>
          PrependStep(host, n - i, start, arr);
          arr := arr + [v];
          i := i + 1;
      }
      assert arr + [] == arr;
      r := Success(arr);
    }

    method Entries(n: nat) returns (r: Result<Record>)
      requires Valid()
      modifies this`pos
      ensures Agrees(r, ReadEntries(host, n, old(Rest()), EMPTY))
      decreases |buf| - pos, 2
    {
      var obj := EMPTY;
      var i := 0;
      while i < n
        invariant i <= n && Valid() && old(pos) + i <= pos
        invariant ReadEntries(host, n, old(Rest()), EMPTY) == ReadEntries(host, n - i, Rest(), obj)
      {
        var k := Key();
        if k.Failure? {
          return Failure(k.error);
        }
        var x := Read();
        match x
        case Failure(e) =>
          return Failure(e);
        case Success(v) =>
          obj := Assign(host.guards, obj, k.value, v);
          if obj.Broken? {
            return Failure(BadAssignment);
          }
          i := i + 1;
      }
      r := Success(obj);
    }

    method AtEnd() returns (r: bool)
      requires Valid()
      ensures r <==> Rest() == []
    {
      r := pos >= |buf|;
    }

    method Key() returns (r: Result<string>)
      requires Valid()
      modifies this`pos
      ensures Agrees(r, ReadKey(host, old(Rest())))
      decreases |buf| - pos, 1
    {
      var x := Read();
      match x
      case Failure(e) => r := Failure(e);
      case Success(Text(s)) => r := Success(s);
      case Success(k) =>
        var s := host.keyText(k);
        r := if s.Some? then Success(s.value) else Failure(BadKey);
    }
  }

  ghost function Prepend(arr: seq<Value>, p: Parsed<seq<Value>>): (r: Parsed<seq<Value>>) {
    match p
    case Ok(vs, rest) => Ok(arr + vs, rest)
    case Err(e) => Err(e)
  }

  lemma PrependNothing(p: Parsed<seq<Value>>)
    ensures Prepend([], p) == p
  {
    match p
    case Ok(vs, _) => assert [] + vs == vs;
    case Err(_) =>
  }

  lemma PrependFails(h: Host, n: nat, b: seq<byte>, arr: seq<Value>)
    requires n > 0 && ReadItem(h, b).Err?
    ensures Prepend(arr, ReadItems(h, n, b)) == Err(ReadItem(h, b).error)
  {
  }

  lemma PrependStep(h: Host, n: nat, b: seq<byte>, arr: seq<Value>)
    requires n > 0 && ReadItem(h, b).Ok?
    ensures var Ok(v, rest) := ReadItem(h, b);
            Prepend(arr, ReadItems(h, n, b)) == Prepend(arr + [v], ReadItems(h, n - 1, rest))
  {
    var Ok(v, rest) := ReadItem(h, b);
    match ReadItems(h, n - 1, rest)
    case Ok(vs, _) => Concat3(arr, [v], vs);
    case Err(_) =>
  }

  /** `decode`. */
  method DecodeBytes(h: Host, b: seq<byte>) returns (r: Result<Value>)
    ensures r == Decode(h, b)
  {
    var reader := new Reader(h, b);
    r := reader.Read();
    var atEnd := reader.AtEnd();
    if r.Success? && !atEnd {
      r := Failure(TrailingBytes);
    }
  }
}
