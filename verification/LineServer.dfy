/**
 * The sidecar's newline-delimited servers: two readers that bound one request, over a byte stream that
 * arrives in arbitrary buffers, and the connection loops around them.
 */
module LineServer {
  import opened Bytes

  const NEWLINE: byte := 10

  /** `u8::is_ascii_whitespace`. */
  predicate IsSpace(x: byte) {
    x == 32 || x == 9 || x == 10 || x == 12 || x == 13
  }

  predicate Blank(line: seq<byte>) {
    forall i | 0 <= i < |line| :: IsSpace(line[i])
  }

  // ---- lines of a stream --------------------------------------------------------------------------

  ghost predicate NewlineFree(s: seq<byte>) {
    forall i | 0 <= i < |s| :: s[i] != NEWLINE
  }

  /** The position of the first newline, or the length when there is none. */
  function FirstNewline(s: seq<byte>): (p: nat)
    ensures p <= |s| && NewlineFree(s[..p]) && (p < |s| ==> s[p] == NEWLINE)
  {
    if s == [] || s[0] == NEWLINE then 0
    else
      var p := 1 + FirstNewline(s[1..]);
      assert s[..p] == [s[0]] + s[1..][..p - 1];
      p
  }

  function Join(lines: seq<seq<byte>>): (s: seq<byte>) {
    if lines == [] then [] else lines[0] + [NEWLINE] + Join(lines[1..])
  }

  ghost predicate Split(stream: seq<byte>, lines: seq<seq<byte>>, tail: seq<byte>) {
    && stream == Join(lines) + tail && NewlineFree(tail)
    && forall i | 0 <= i < |lines| :: NewlineFree(lines[i])
  }

  /** A newline-free start bounds the first newline from below, and a newline after it is the first. */
  lemma {:induction false} FirstNewlineIs(s: seq<byte>, k: nat)
    requires k <= |s| && NewlineFree(s[..k])
    ensures FirstNewline(s) >= k
    ensures k == |s| || s[k] == NEWLINE ==> FirstNewline(s) == k
  {
    if k > 0 {
      assert s[..k][0] == s[0];
      assert s[1..][..k - 1] == s[..k][1..];
      FirstNewlineIs(s[1..], k - 1);
    }
  }

  lemma FirstLine(line: seq<byte>, rest: seq<byte>)
    requires NewlineFree(line)
    ensures FirstNewline(line + [NEWLINE] + rest) == |line|
    ensures (line + [NEWLINE] + rest)[..|line|] == line && (line + [NEWLINE] + rest)[|line| + 1..] == rest
  {
    var s := line + [NEWLINE] + rest;
    assert s[..|line|] == line && s[|line|] == NEWLINE;
    FirstNewlineIs(s, |line|);
  }

  lemma NoLine(tail: seq<byte>)
    requires NewlineFree(tail)
    ensures FirstNewline(tail) == |tail|
  {
    assert tail[..|tail|] == tail;
    FirstNewlineIs(tail, |tail|);
  }

  /** Every stream is some newline-free lines, each ended by a newline, and a newline-free tail. */
  lemma {:induction false} SplitExists(stream: seq<byte>) returns (lines: seq<seq<byte>>, tail: seq<byte>)
    ensures Split(stream, lines, tail)
    decreases |stream|
  {
    var p := FirstNewline(stream);
    if p == |stream| {
      lines, tail := [], stream;
      assert stream[..p] == stream && Join([]) + stream == stream;
    } else {
      var others;
      others, tail := SplitExists(stream[p + 1..]);
      lines := [stream[..p]] + others;
      assert lines[1..] == others;
      assert stream == stream[..p] + [NEWLINE] + stream[p + 1..];
      Concat3(stream[..p] + [NEWLINE], Join(others), tail);
    }
  }

  // ---- buffers ------------------------------------------------------------------------------------

  function Flatten(chunks: seq<seq<byte>>): (s: seq<byte>) {
    if chunks == [] then [] else chunks[0] + Flatten(chunks[1..])
  }

  ghost predicate NonEmpty(chunks: seq<seq<byte>>) {
    forall i | 0 <= i < |chunks| :: chunks[i] != []
  }

  /** How one attempt to read a request ended. */
  datatype RequestRead = Line | Eof | Oversized

  /** A buffered reader: `chunks[0]` is the current buffer, the others are yet to arrive. */
  class BufferedReader {
    var chunks: seq<seq<byte>>
    /** The request being read. */
    var line: seq<byte>

    ghost predicate Valid()
      reads this
    {
      NonEmpty(chunks)
    }

    ghost function Unread(): seq<byte>
      reads this
    {
      Flatten(chunks)
    }

    constructor (stream: seq<seq<byte>>)
      requires NonEmpty(stream)
      ensures Valid() && chunks == stream && line == []
    {
      chunks, line := stream, [];
    }

    /** The buffered bytes; empty only at the end of the stream. */
    method FillBuf() returns (buf: seq<byte>)
      requires Valid()
      ensures chunks == [] ==> buf == []
      ensures chunks != [] ==> buf == chunks[0] != []
      ensures buf == [] <==> Unread() == []
    {
      buf := if chunks == [] then [] else chunks[0];
    }

    method Consume(n: nat)
      requires Valid() && chunks != [] && n <= |chunks[0]|
      modifies this`chunks
      ensures Valid() && old(Unread()) == old(chunks[0])[..n] + Unread()
      ensures |Unread()| == |old(Unread())| - n
      ensures n == |old(chunks[0])| ==> chunks == old(chunks)[1..]
    {
      var buf := chunks[0];
      assert buf == buf[..n] + buf[n..];
      if n == |buf| {
        chunks := chunks[1..];
        assert buf[..n] == buf;
      } else {
        chunks := [buf[n..]] + chunks[1..];
        assert chunks[1..] == old(chunks)[1..];
      }
      Concat3(buf[..n], buf[n..], Flatten(old(chunks)[1..]));
    }

    /** `read_request_line` with the per-request cap; `line` is empty on entry. */
    method ReadRequestLine(cap: nat) returns (r: RequestRead)
      requires Valid() && line == []
      modifies this
      ensures Valid() && |line| <= cap
      ensures Reads(r, old(Unread()), cap, line, Unread())
    {
      ghost var stream := Unread();
      var done: Option<RequestRead> := None;
      while done.None?
        invariant Valid() && |line| <= cap
        invariant done.None? ==> NewlineFree(line) && line + Unread() == stream
        invariant done.Some? ==> Reads(done.value, stream, cap, line, Unread())
        decreases done.None?, |chunks|
      {
        done := ReadBuffer(cap);
      }
      r := done.value;
    }

    /** One round of the loop: look at the current buffer, and finish the request or take it all. */
    method ReadBuffer(cap: nat) returns (done: Option<RequestRead>)
      requires Valid() && |line| <= cap && NewlineFree(line)
      modifies this
      ensures Valid() && |line| <= cap
      ensures done.None? ==>
                NewlineFree(line) && line + Unread() == old(line + Unread()) && |chunks| < |old(chunks)|
      ensures done.Some? ==> Reads(done.value, old(line + Unread()), cap, line, Unread())
    {
      var buf := FillBuf();
      ghost var was := line;
      if buf == [] {
        AtEnd(line, cap, line, Unread());
        assert line + [] == line;
        return Some(if line == [] then Eof else Oversized);
      }
      var pos := FirstNewline(buf);
      if |line| + pos > cap {
        Refused(line, buf, Flatten(chunks[1..]), cap, line, Unread());
        return Some(Oversized);
      }
      if pos < |buf| {
        line := line + buf[..pos];
        Consume(pos + 1);
        Accepted(was, buf, pos, Unread(), cap);
        return Some(Line);
      }
      line := line + buf;
      Consume(|buf|);
      assert buf[..|buf|] == buf;
      Concat3(was, buf, Unread());
      done := None;
    }

    /** `take(limit)` then `read_until(b'\n')`: up to a newline, the limit or the end of the stream. */
    method ReadUntilNewline(limit: nat)
      requires Valid() && line == []
      modifies this
      ensures Valid() && |line| <= limit
      ensures var stream := old(Unread());
              line == stream[..Taken(stream, limit)] && Unread() == stream[Taken(stream, limit)..]
    {
      ghost var stream := Unread();
      var done := false;
      while !done
        invariant Valid() && |line| <= limit && line + Unread() == stream
        invariant if done then |line| == Taken(stream, limit) else NewlineFree(line)
        decreases !done, limit - |line|
      {
        done := TakeBuffer(limit);
      }
    }

    /** One round of the limited read: what the current buffer adds, and whether that ends it. */
    method TakeBuffer(limit: nat) returns (done: bool)
      requires Valid() && |line| <= limit && NewlineFree(line)
      modifies this
      ensures Valid() && |line| <= limit && line + Unread() == old(line + Unread())
      ensures done ==> |line| == Taken(old(line + Unread()), limit)
      ensures !done ==> NewlineFree(line) && |line| > |old(line)|
    {
      var buf := FillBuf();
      if buf == [] || |line| == limit {
        TakenAll(line, Unread(), limit);
        return true;
      }
      var avail := if |buf| <= limit - |line| then buf else buf[..limit - |line|];
      var pos := FirstNewline(avail);
      var n := if pos < |avail| then pos + 1 else |avail|;
      ghost var was, stream := line, line + Unread();
      assert avail[..n] == buf[..n];
      line := line + avail[..n];
      Consume(n);
      Concat3(was, buf[..n], Unread());
      done := pos < |avail|;
      if done {
        TakenLine(was, avail, pos, stream, limit);
      } else {
        assert avail[..pos] == avail;
      }
    }
  }

  /** What reading one request from `stream` may return: a line of at most `cap` bytes with what follows
      its newline, the end of an empty stream, or a refusal when there is no newline within the cap. */
  ghost predicate Reads(r: RequestRead, stream: seq<byte>, cap: nat, line: seq<byte>, unread: seq<byte>) {
    var p := FirstNewline(stream);
    && (r == Line <==> p < |stream| && p <= cap)
    && (r == Eof <==> stream == [])
    && (r == Line ==> line == stream[..p] && unread == stream[p + 1..])
  }

  lemma AtEnd(line: seq<byte>, cap: nat, l: seq<byte>, u: seq<byte>)
    requires NewlineFree(line)
    ensures Reads(if line == [] then Eof else Oversized, line, cap, l, u)
  {
    NoLine(line);
  }

  lemma LineContinues(line: seq<byte>, buf: seq<byte>, more: seq<byte>)
    requires NewlineFree(line)
    ensures var p := FirstNewline(buf);
            && (p < |buf| ==> FirstNewline(line + (buf + more)) == |line| + p)
            && (p == |buf| ==> FirstNewline(line + (buf + more)) >= |line| + |buf|)
  {
    var p, s := FirstNewline(buf), line + (buf + more);
    assert s[..|line| + p] == line + buf[..p];
    FirstNewlineIs(s, |line| + p);
  }

  lemma Refused(line: seq<byte>, buf: seq<byte>, more: seq<byte>, cap: nat, l: seq<byte>, u: seq<byte>)
    requires NewlineFree(line) && buf != [] && |line| + FirstNewline(buf) > cap
    ensures Reads(Oversized, line + (buf + more), cap, l, u)
  {
    LineContinues(line, buf, more);
  }

  lemma Accepted(line: seq<byte>, buf: seq<byte>, pos: nat, unread: seq<byte>, cap: nat)
    requires NewlineFree(line) && pos == FirstNewline(buf) < |buf| && |line| + pos <= cap
    ensures Reads(Line, line + (buf[..pos + 1] + unread), cap, line + buf[..pos], unread)
  {
    CutAtNewline(line, buf, pos, unread);
    ReadsLine(line + buf[..pos], unread, cap);
  }

  lemma CutAtNewline(line: seq<byte>, buf: seq<byte>, pos: nat, unread: seq<byte>)
    requires pos < |buf|
    ensures line + (buf[..pos + 1] + unread) == line + buf[..pos] + [buf[pos]] + unread
  {
    assert buf[..pos + 1] == buf[..pos] + [buf[pos]];
  }

  lemma ReadsLine(text: seq<byte>, unread: seq<byte>, cap: nat)
    requires NewlineFree(text) && |text| <= cap
    ensures Reads(Line, text + [NEWLINE] + unread, cap, text, unread)
  {
    FirstLine(text, unread);
  }

  // ---- the take/read_until reader -----------------------------------------------------------------

  function Taken(stream: seq<byte>, limit: nat): (n: nat)
    ensures n <= |stream| && n <= limit
  {
    var p := FirstNewline(stream);
    if p < |stream| && p < limit then p + 1
    else if |stream| <= limit then |stream| else limit
  }

  lemma TakenAll(line: seq<byte>, unread: seq<byte>, limit: nat)
    requires NewlineFree(line) && |line| <= limit && (unread == [] || |line| == limit)
    ensures Taken(line + unread, limit) == |line|
  {
    assert (line + unread)[..|line|] == line;
    FirstNewlineIs(line + unread, |line|);
  }

  lemma TakenLine(line: seq<byte>, avail: seq<byte>, pos: nat, stream: seq<byte>, limit: nat)
    requires NewlineFree(line) && pos == FirstNewline(avail) < |avail| && |line| + |avail| <= limit
    requires line + avail <= stream
    ensures Taken(stream, limit) == |line| + pos + 1
  {
    var more := stream[|line + avail|..];
    assert stream == line + (avail + more);
    LineContinues(line, avail, more);
  }

  // ---- the connection loops -----------------------------------------------------------------------

  /** A line service: how it answers one request, and its refusal of an oversized one. */
  datatype Service<!S, !R> = Service(cap: nat, answer: (S, seq<byte>) -> (S, R), refusal: R)

  /** The responses to a list of complete lines and an unterminated tail: blank lines are skipped, lines
      are answered in order, and the first line over the cap, or a tail, is refused and ends it. */
  function Responses<S, R>(svc: Service<S, R>, s: S, lines: seq<seq<byte>>, tail: seq<byte>): (r: (S, seq<R>))
    decreases |lines|
  {
    if lines == [] then (s, if tail == [] then [] else [svc.refusal])
    else if |lines[0]| > svc.cap then (s, [svc.refusal])
    else if Blank(lines[0]) then Responses(svc, s, lines[1..], tail)
    else
      var (s', reply) := svc.answer(s, lines[0]);
      var (s'', replies) := Responses(svc, s', lines[1..], tail);
      (s'', [reply] + replies)
  }

  /** The same on the stream itself. */
  ghost function Served<S, R>(svc: Service<S, R>, s: S, stream: seq<byte>): (r: (S, seq<R>))
    decreases |stream|
  {
    var p := FirstNewline(stream);
    if stream == [] then (s, [])
    else if p == |stream| || p > svc.cap then (s, [svc.refusal])
    else if Blank(stream[..p]) then Served(svc, s, stream[p + 1..])
    else
      var (s', reply) := svc.answer(s, stream[..p]);
      var (s'', replies) := Served(svc, s', stream[p + 1..]);
      (s'', [reply] + replies)
  }

  lemma {:induction false} ServedIsResponses<S, R>(svc: Service<S, R>, s: S, lines: seq<seq<byte>>, tail: seq<byte>)
    requires NewlineFree(tail) && forall i | 0 <= i < |lines| :: NewlineFree(lines[i])
    ensures Served(svc, s, Join(lines) + tail) == Responses(svc, s, lines, tail)
    decreases |lines|
  {
    if lines == [] {
      assert Join(lines) + tail == tail;
      NoLine(tail);
    } else {
      var rest := Join(lines[1..]) + tail;
      Concat3(lines[0] + [NEWLINE], Join(lines[1..]), tail);
      FirstLine(lines[0], rest);
      if |lines[0]| <= svc.cap {
        if Blank(lines[0]) {
          ServedIsResponses(svc, s, lines[1..], tail);
        } else {
          ServedIsResponses(svc, svc.answer(s, lines[0]).0, lines[1..], tail);
        }
      }
    }
  }

  /** `serve_connection` of the sign and secret services: whatever the buffer boundaries, the responses
      are those of the lines of the stream. */
  method Serve<S, R>(svc: Service<S, R>, s0: S, chunks: seq<seq<byte>>,
                     ghost lines: seq<seq<byte>>, ghost tail: seq<byte>) returns (s: S, out: seq<R>)
    requires NonEmpty(chunks) && Split(Flatten(chunks), lines, tail)
    ensures (s, out) == Responses(svc, s0, lines, tail)
  {
    s, out := ServeStream(svc, s0, chunks);
    ServedIsResponses(svc, s0, lines, tail);
  }

  method ServeStream<S, R>(svc: Service<S, R>, s0: S, chunks: seq<seq<byte>>) returns (s: S, out: seq<R>)
    requires NonEmpty(chunks)
    ensures (s, out) == Served(svc, s0, Flatten(chunks))
  {
    var reader := new BufferedReader(chunks);
    s, out := s0, [];
    assert [] + Served(svc, s, reader.Unread()).1 == Served(svc, s, reader.Unread()).1;
    while true
      invariant reader.Valid()
      invariant Served(svc, s0, Flatten(chunks))
                == (Served(svc, s, reader.Unread()).0, out + Served(svc, s, reader.Unread()).1)
      decreases |reader.Unread()|
    {
      reader.line := [];
      ghost var stream := reader.Unread();
      var r := reader.ReadRequestLine(svc.cap);
      match r
      case Eof =>
        assert out + [] == out;
        return;
      case Oversized =>
        out := out + [svc.refusal];
        return;
      case Line =>
        if !Blank(reader.line) {
          var (s', reply) := svc.answer(s, reader.line);
          Concat3(out, [reply], Served(svc, s', reader.Unread()).1);
          s, out := s', out + [reply];
        }
    }
  }

  // ---- the two readers side by side ---------------------------------------------------------------

  /** What a connection does with each request, its newline aside. */
  datatype Event = Answered(line: seq<byte>) | Skipped(line: seq<byte>) | RefusedLine

  function Handled(line: seq<byte>): (e: Event) {
    if Blank(line) then Skipped(line) else Answered(line)
  }

  /** The `fill_buf` reader (sign and secret services). */
  function FillBufTrace(cap: nat, stream: seq<byte>): (t: seq<Event>)
    decreases |stream|
  {
    var p := FirstNewline(stream);
    if stream == [] then []
    else if p == |stream| || p > cap then [RefusedLine]
    else [Handled(stream[..p])] + FillBufTrace(cap, stream[p + 1..])
  }

  /** The `take` and `read_until` reader (session service): the line keeps its newline, a line without
      one is refused over the cap and otherwise handled as the last request. */
  function TakeTrace(cap: nat, stream: seq<byte>): (t: seq<Event>)
    decreases |stream|
  {
    var n := Taken(stream, cap + 1);
    var line := stream[..n];
    if n == 0 then []
    else if line[n - 1] == NEWLINE then [Handled(line[..n - 1])] + TakeTrace(cap, stream[n..])
    else if n > cap then [RefusedLine]
    else [Handled(line)]
  }

  /** `serve_connection` of the session service handles the requests of `TakeTrace`. */
  method TakeServe(cap: nat, chunks: seq<seq<byte>>) returns (events: seq<Event>)
    requires NonEmpty(chunks)
    ensures events == TakeTrace(cap, Flatten(chunks))
  {
    var reader := new BufferedReader(chunks);
    events := [];
    assert [] + TakeTrace(cap, Flatten(chunks)) == TakeTrace(cap, Flatten(chunks));
    while true
      invariant reader.Valid()
      invariant TakeTrace(cap, Flatten(chunks)) == events + TakeTrace(cap, reader.Unread())
      decreases |reader.Unread()|
    {
      reader.line := [];
      ghost var stream := reader.Unread();
      reader.ReadUntilNewline(cap + 1);
      var line := reader.line;
      if line == [] {
        assert events + [] == events;
        return;
      }
      var complete := line[|line| - 1] == NEWLINE;
      if !complete {
        TakeTraceStop(cap, stream);
        events := events + [if |line| > cap then RefusedLine else Handled(line)];
        return;
      }
      TakeTraceStep(cap, stream);
      Concat3(events, [Handled(line[..|line| - 1])], TakeTrace(cap, reader.Unread()));
      events := events + [Handled(line[..|line| - 1])];
    }
  }

  lemma TakeTraceStep(cap: nat, stream: seq<byte>)
    requires var n := Taken(stream, cap + 1); n > 0 && stream[n - 1] == NEWLINE
    ensures var n := Taken(stream, cap + 1);
            TakeTrace(cap, stream) == [Handled(stream[..n][..n - 1])] + TakeTrace(cap, stream[n..])
  {
  }

  lemma TakeTraceStop(cap: nat, stream: seq<byte>)
    requires var n := Taken(stream, cap + 1); n > 0 && stream[n - 1] != NEWLINE
    ensures var n := Taken(stream, cap + 1);
            TakeTrace(cap, stream) == [if n > cap then RefusedLine else Handled(stream[..n])]
  {
  }

  lemma TakenOfLine(cap: nat, line: seq<byte>, rest: seq<byte>)
    requires NewlineFree(line)
    ensures Taken(line + [NEWLINE] + rest, cap + 1) == if |line| <= cap then |line| + 1 else cap + 1
  {
    FirstLine(line, rest);
  }

  lemma TakeTraceLine(cap: nat, line: seq<byte>, rest: seq<byte>)
    requires NewlineFree(line)
    ensures TakeTrace(cap, line + [NEWLINE] + rest)
            == if |line| <= cap then [Handled(line)] + TakeTrace(cap, rest) else [RefusedLine]
  {
    var stream := line + [NEWLINE] + rest;
    TakenOfLine(cap, line, rest);
    if |line| <= cap {
      assert stream[..|line| + 1] == line + [NEWLINE] && stream[|line| + 1..] == rest;
      assert (line + [NEWLINE])[..|line|] == line;
    } else {
      assert stream[..cap + 1] == line[..cap + 1];
    }
  }

  /** The two bounds accept, skip and refuse the same requests of a stream exactly when it has no short
      unterminated tail, or is cut off by an oversized line before reaching it. */
  lemma {:induction false} ReadersAgree(cap: nat, lines: seq<seq<byte>>, tail: seq<byte>)
    requires NewlineFree(tail) && forall i | 0 <= i < |lines| :: NewlineFree(lines[i])
    ensures FillBufTrace(cap, Join(lines) + tail) == TakeTrace(cap, Join(lines) + tail)
            <==> (tail == [] || |tail| > cap || exists i :: 0 <= i < |lines| && |lines[i]| > cap)
    decreases |lines|
  {
    var stream := Join(lines) + tail;
    if lines == [] {
      assert stream == tail;
      NoLine(tail);
      assert tail[..|tail|] == tail;
    } else {
      var rest := Join(lines[1..]) + tail;
      Concat3(lines[0] + [NEWLINE], Join(lines[1..]), tail);
      FirstLine(lines[0], rest);
      TakeTraceLine(cap, lines[0], rest);
      if |lines[0]| <= cap {
        ReadersAgree(cap, lines[1..], tail);
        var a, b := FillBufTrace(cap, rest), TakeTrace(cap, rest);
        assert ([Handled(lines[0])] + a)[1..] == a && ([Handled(lines[0])] + b)[1..] == b;
        OversizedTail(cap, lines);
      }
    }
  }

  lemma OversizedTail(cap: nat, lines: seq<seq<byte>>)
    requires lines != [] && |lines[0]| <= cap
    ensures (exists i :: 0 <= i < |lines| && |lines[i]| > cap)
            <==> (exists i :: 0 <= i < |lines[1..]| && |lines[1..][i]| > cap)
  {
    if i :| 0 <= i < |lines| && |lines[i]| > cap {
      assert |lines[1..][i - 1]| > cap;
    }
    if i :| 0 <= i < |lines[1..]| && |lines[1..][i]| > cap {
      assert |lines[i + 1]| > cap;
    }
  }

  // ---- the traces line by line --------------------------------------------------------------------

  /** A line with a byte other than space, tab, newline, form feed and carriage return is answered, and any
      other skipped. */
  ghost predicate Does(e: Event, line: seq<byte>) {
    if exists i :: 0 <= i < |line| && line[i] != 32 && line[i] != 9 && line[i] != 10 && line[i] != 12 && line[i] != 13
    then e == Answered(line) else e == Skipped(line)
  }

  lemma HandledDoes(line: seq<byte>)
    ensures Does(Handled(line), line)
  {
    if !Blank(line) {
      var i :| 0 <= i < |line| && !IsSpace(line[i]);
    }
  }

  /** `k` is how many lines come before the first over the cap. */
  ghost predicate WithinCap(cap: nat, lines: seq<seq<byte>>, k: nat) {
    k <= |lines| && (forall i | 0 <= i < k :: |lines[i]| <= cap) && (k < |lines| ==> |lines[k]| > cap)
  }

  /** The lines within the cap are answered or skipped in order; then comes the refusal of the first line
      over it, or what becomes of the tail. */
  ghost predicate Traces(t: seq<Event>, cap: nat, lines: seq<seq<byte>>, k: nat, tail: seq<Event>)
    requires k <= |lines|
  {
    && |t| >= k && (forall i | 0 <= i < k :: Does(t[i], lines[i]))
    && t[k..] == if k < |lines| then [RefusedLine] else tail
  }

  lemma TracesCons(e: Event, t: seq<Event>, cap: nat, lines: seq<seq<byte>>, k: nat, tail: seq<Event>)
    requires 0 < k <= |lines| && Does(e, lines[0]) && Traces(t, cap, lines[1..], k - 1, tail)
    ensures Traces([e] + t, cap, lines, k, tail)
  {
    var all := [e] + t;
    forall i | 0 <= i < k ensures Does(all[i], lines[i]) {
      if i > 0 {
        assert all[i] == t[i - 1] && lines[i] == lines[1..][i - 1];
      }
    }
    assert all[k..] == t[k - 1..];
  }

  /** What the `fill_buf` reader makes of a tail: nothing if there is none, else one refusal. */
  function RefusedTail(tail: seq<byte>): (t: seq<Event>) {
    if tail == [] then [] else [RefusedLine]
  }

  /** What the `take` reader makes of a tail: a refusal over the cap, else a last request. */
  function LastRequest(cap: nat, tail: seq<byte>): (t: seq<Event>) {
    if tail == [] then [] else if |tail| > cap then [RefusedLine] else [Handled(tail)]
  }

  lemma OneLineFewer(cap: nat, lines: seq<seq<byte>>, k: nat)
    requires WithinCap(cap, lines, k) && lines != [] && k > 0
    ensures WithinCap(cap, lines[1..], k - 1)
  {
  }

  lemma FillBufTraceLine(cap: nat, line: seq<byte>, rest: seq<byte>)
    requires NewlineFree(line)
    ensures FillBufTrace(cap, line + [NEWLINE] + rest)
            == if |line| <= cap then [Handled(line)] + FillBufTrace(cap, rest) else [RefusedLine]
  {
    FirstLine(line, rest);
  }

  lemma NothingTraced(t: seq<Event>, cap: nat)
    ensures Traces(t, cap, [], 0, t)
  {
    assert t[0..] == t;
  }

  lemma RefusalTraced(cap: nat, lines: seq<seq<byte>>, tail: seq<Event>)
    requires lines != []
    ensures Traces([RefusedLine], cap, lines, 0, tail)
  {
  }

  lemma JoinFirst(lines: seq<seq<byte>>, tail: seq<byte>)
    requires lines != []
    ensures Join(lines) + tail == lines[0] + [NEWLINE] + (Join(lines[1..]) + tail)
  {
    Concat3(lines[0] + [NEWLINE], Join(lines[1..]), tail);
  }

  lemma FillBufTail(cap: nat, tail: seq<byte>)
    requires NewlineFree(tail)
    ensures FillBufTrace(cap, tail) == RefusedTail(tail)
  {
    NoLine(tail);
  }

  lemma TakeTail(cap: nat, tail: seq<byte>)
    requires NewlineFree(tail)
    ensures TakeTrace(cap, tail) == LastRequest(cap, tail)
  {
    NoLine(tail);
    assert tail[..|tail|] == tail;
  }

  lemma NoLines(tail: seq<byte>)
    ensures Join([]) + tail == tail
  {
  }

  /** The `fill_buf` reader's trace, line by line; a tail is refused. */
  lemma {:induction false} FillBufTraces(cap: nat, lines: seq<seq<byte>>, tail: seq<byte>, k: nat)
    requires NewlineFree(tail) && (forall i | 0 <= i < |lines| :: NewlineFree(lines[i])) && WithinCap(cap, lines, k)
    ensures Traces(FillBufTrace(cap, Join(lines) + tail), cap, lines, k, RefusedTail(tail))
    decreases |lines|
  {
    if lines == [] {
      NoLines(tail);
      FillBufTail(cap, tail);
      NothingTraced(RefusedTail(tail), cap);
    } else {
      JoinFirst(lines, tail);
      FillBufTraceLine(cap, lines[0], Join(lines[1..]) + tail);
      if k == 0 {
        RefusalTraced(cap, lines, RefusedTail(tail));
      } else {
        OneLineFewer(cap, lines, k);
        FillBufTraces(cap, lines[1..], tail, k - 1);
        HandledDoes(lines[0]);
        TracesCons(Handled(lines[0]), FillBufTrace(cap, Join(lines[1..]) + tail), cap, lines, k, RefusedTail(tail));
      }
    }
  }

  /** The `take` reader's trace, line by line; a tail within the cap is the last request. */
  lemma {:induction false} TakeTraces(cap: nat, lines: seq<seq<byte>>, tail: seq<byte>, k: nat)
    requires NewlineFree(tail) && (forall i | 0 <= i < |lines| :: NewlineFree(lines[i])) && WithinCap(cap, lines, k)
    ensures Traces(TakeTrace(cap, Join(lines) + tail), cap, lines, k, LastRequest(cap, tail))
    decreases |lines|
  {
    if lines == [] {
      NoLines(tail);
      TakeTail(cap, tail);
      NothingTraced(LastRequest(cap, tail), cap);
    } else {
      JoinFirst(lines, tail);
      TakeTraceLine(cap, lines[0], Join(lines[1..]) + tail);
      if k == 0 {
        RefusalTraced(cap, lines, LastRequest(cap, tail));
      } else {
        OneLineFewer(cap, lines, k);
        TakeTraces(cap, lines[1..], tail, k - 1);
        HandledDoes(lines[0]);
        TracesCons(Handled(lines[0]), TakeTrace(cap, Join(lines[1..]) + tail), cap, lines, k, LastRequest(cap, tail));
      }
    }
  }

  /** The last request is answered or skipped as a line is. */
  lemma LastRequestDoes(cap: nat, tail: seq<byte>)
    ensures tail == [] ==> LastRequest(cap, tail) == []
    ensures |tail| > cap ==> LastRequest(cap, tail) == [RefusedLine]
    ensures 0 < |tail| <= cap ==> |LastRequest(cap, tail)| == 1 && Does(LastRequest(cap, tail)[0], tail)
  {
    HandledDoes(tail);
  }

  /** The responses to a trace: one for each answered line, in order, and the refusal. */
  function Replies<S, R>(svc: Service<S, R>, s: S, events: seq<Event>): (r: (S, seq<R>))
    decreases |events|
  {
    if events == [] then (s, [])
    else
      match events[0]
      case Skipped(_) => Replies(svc, s, events[1..])
      case Answered(line) =>
        var (s', reply) := svc.answer(s, line);
        var (s'', replies) := Replies(svc, s', events[1..]);
        (s'', [reply] + replies)
      case RefusedLine =>
        var (s', replies) := Replies(svc, s, events[1..]);
        (s', [svc.refusal] + replies)
  }

  /** Serving a stream is replying to its trace. */
  lemma {:induction false} ServedByTrace<S, R>(svc: Service<S, R>, s: S, stream: seq<byte>)
    ensures Served(svc, s, stream) == Replies(svc, s, FillBufTrace(svc.cap, stream))
    decreases |stream|
  {
    var p, t := FirstNewline(stream), FillBufTrace(svc.cap, stream);
    if stream != [] {
      if p == |stream| || p > svc.cap {
        assert t == [RefusedLine] && t[1..] == [];
        assert [svc.refusal] + [] == [svc.refusal];
      } else {
        assert t[1..] == FillBufTrace(svc.cap, stream[p + 1..]);
        if Blank(stream[..p]) {
          ServedByTrace(svc, s, stream[p + 1..]);
        } else {
          ServedByTrace(svc, svc.answer(s, stream[..p]).0, stream[p + 1..]);
        }
      }
    }
  }
}
