/**
 * `StreamFrameTransport`: frames reassembled from arbitrary chunks and paired with waiting receivers.
 * The k-th call of `recv` is its ticket `k`, and `outcomes[k]` is what its promise has become.
 */
module Transport {
  import opened Bytes
  import opened Frame

  // ---- reassembly ---------------------------------------------------------------------------------

  /** What parsing a buffer gives: whole frames, the bytes left, and the header refusal that stopped it. */
  datatype Parsed = Parsed(frames: seq<WireFrame>, rest: seq<byte>, rejected: Option<FrameError>)

  function Parse(b: seq<byte>): (p: Parsed)
    decreases |b|
  {
    if |b| < HEADER_LEN then Parsed([], b, None)
    else
      match DecodeHeader(b, MAX_PAYLOAD)
      case Err(e) => Parsed([], b, Some(e))
      case Ok(h) =>
        var total := HEADER_LEN + h.payloadLen;
        if |b| < total then Parsed([], b, None)
        else Prepend([WireFrame(h, b[HEADER_LEN..total])], Parse(b[total..]))
  }

  function Prepend(frames: seq<WireFrame>, p: Parsed): (r: Parsed) {
    Parsed(frames + p.frames, p.rest, p.rejected)
  }

  function Concat(frames: seq<WireFrame>): (b: seq<byte>) {
    if frames == [] then [] else FrameBytes(frames[0]) + Concat(frames[1..])
  }

  /** Parsing is incremental: keeping only the leftover bytes between chunks loses nothing. */
  lemma {:induction false} ParseMore(b: seq<byte>, c: seq<byte>)
    ensures Parse(b + c) == Prepend(Parse(b).frames, Parse(Parse(b).rest + c))
    decreases |b|
  {
    var p := Parse(b);
    if p.frames == [] {
      assert p.rest == b;
      assert [] + Parse(b + c).frames == Parse(b + c).frames;
    } else {
      var h := DecodeHeader(b, MAX_PAYLOAD).header;
      var total := HEADER_LEN + h.payloadLen;
      DecodeReadsHeaderOnly(b, c, MAX_PAYLOAD);
      SliceOfPrefix(b, c, HEADER_LEN, total);
      ParseMore(b[total..], c);
      Concat3([p.frames[0]], Parse(b[total..]).frames, Parse(p.rest + c).frames);
    }
  }

  lemma ParseOneFrame(f: WireFrame, rest: seq<byte>)
    requires ValidFrame(f)
    ensures Parse(FrameBytes(f) + rest) == Prepend([f], Parse(rest))
  {
    var b, total := FrameBytes(f) + rest, HEADER_LEN + |f.payload|;
    Concat3(EncodeHeader(f.header), f.payload, rest);
    HeaderReadBack(f.header, f.payload + rest, MAX_PAYLOAD);
    assert b[HEADER_LEN..total] == f.payload;
    assert b[total..] == rest;
  }

  /** Every sequence of valid frames is recovered from its bytes, whatever follows. */
  lemma {:induction false} ParseFrames(frames: seq<WireFrame>, rest: seq<byte>)
    requires forall f | f in frames :: ValidFrame(f)
    ensures Parse(Concat(frames) + rest) == Prepend(frames, Parse(rest))
  {
    if frames == [] {
      assert [] + rest == rest;
      assert [] + Parse(rest).frames == Parse(rest).frames;
    } else {
      Concat3(FrameBytes(frames[0]), Concat(frames[1..]), rest);
      ParseOneFrame(frames[0], Concat(frames[1..]) + rest);
      ParseFrames(frames[1..], rest);
      Concat3([frames[0]], frames[1..], Parse(rest).frames);
      assert [frames[0]] + frames[1..] == frames;
    }
  }

  /** Nothing is invented: parsed frames are valid, and with the leftover they are exactly the bytes. */
  lemma {:induction false} ParsedBytes(b: seq<byte>)
    ensures b == Concat(Parse(b).frames) + Parse(b).rest
    ensures forall f | f in Parse(b).frames :: ValidFrame(f)
    decreases |b|
  {
    var p := Parse(b);
    if p.frames == [] {
      assert [] + b == b;
    } else {
      var f := p.frames[0];
      var total := HEADER_LEN + f.header.payloadLen;
      AcceptedHeader(b, MAX_PAYLOAD);
      ParsedBytes(b[total..]);
      assert p.frames[1..] == Parse(b[total..]).frames;
      assert FrameBytes(f) == b[..total] by {
        assert b[..16] + b[16..total] == b[..total];
      }
      Concat3(FrameBytes(f), Concat(p.frames[1..]), p.rest);
    }
  }

  /** Why parsing stops: fewer than sixteen bytes are left, the next header is refused, or the payload it
      declares is not all there. */
  ghost predicate Stops(rest: seq<byte>, rejected: Option<FrameError>) {
    if |rest| < 16 then rejected == None
    else match DecodeHeader(rest, 16 * 1024 * 1024)
      case Err(e) => rejected == Some(e)
      case Ok(h) => rejected == None && |rest| < 16 + h.payloadLen
  }

  lemma ParseStopsAtOnce(b: seq<byte>)
    requires Parse(b).frames == []
    ensures Stops(Parse(b).rest, Parse(b).rejected)
  {
  }

  lemma ParseFirst(b: seq<byte>, h: Header, total: nat)
    requires |b| >= HEADER_LEN && DecodeHeader(b, MAX_PAYLOAD) == Ok(h)
    requires total == HEADER_LEN + h.payloadLen <= |b|
    ensures Parse(b).rest == Parse(b[total..]).rest && Parse(b).rejected == Parse(b[total..]).rejected
  {
    var f := WireFrame(h, b[HEADER_LEN..total]);
    assert Parse(b) == Prepend([f], Parse(b[total..]));
  }

  lemma {:induction false} ParseStops(b: seq<byte>)
    ensures Stops(Parse(b).rest, Parse(b).rejected)
    decreases |b|
  {
    if Parse(b).frames == [] {
      ParseStopsAtOnce(b);
    } else {
      var h := DecodeHeader(b, MAX_PAYLOAD).header;
      var total := HEADER_LEN + h.payloadLen;
      ParseFirst(b, h, total);
      ParseStops(b[total..]);
    }
  }

  lemma StrictPrefixParsesToNothing(f: WireFrame, b: seq<byte>)
    requires ValidFrame(f) && b < FrameBytes(f)
    ensures Parse(b) == Parsed([], b, None)
  {
    if |b| >= HEADER_LEN {
      assert EncodeHeader(f.header) == b[..HEADER_LEN];
      assert b == EncodeHeader(f.header) + b[HEADER_LEN..];
      HeaderReadBack(f.header, b[HEADER_LEN..], MAX_PAYLOAD);
    }
  }

  lemma PrefixAfterFirst(first: seq<byte>, others: seq<byte>, b: seq<byte>)
    requires b <= first + others && |b| >= |first|
    ensures b == first + b[|first|..] && b[|first|..] <= others
  {
    var all := first + others;
    assert b[..|first|] == all[..|first|] == first;
    assert all[|first|..] == others;
  }

  /** Cutting a frame sequence anywhere yields its leading frames and a proper prefix of the next. */
  lemma {:induction false} ParsePrefix(frames: seq<WireFrame>, b: seq<byte>)
    requires (forall f | f in frames :: ValidFrame(f)) && b <= Concat(frames)
    ensures Leads(Parse(b), frames)
  {
    if frames == [] {
      assert Parse(b) == Parsed([], [], None);
    } else {
      var first := FrameBytes(frames[0]);
      if |b| < |first| {
        assert b < first;
        StrictPrefixParsesToNothing(frames[0], b);
      } else {
        PrefixAfterFirst(first, Concat(frames[1..]), b);
        var tail := b[|first|..];
        ParseOneFrame(frames[0], tail);
        ParsePrefix(frames[1..], tail);
        LeadsOneMore(Parse(tail), frames);
      }
    }
  }

  /** Some leading frames were parsed, without a refusal, and a proper prefix of the next is left. */
  ghost predicate Leads(p: Parsed, frames: seq<WireFrame>) {
    && p.rejected == None && p.frames <= frames
    && (if |p.frames| == |frames| then p.rest == [] else p.rest < FrameBytes(frames[|p.frames|]))
  }

  lemma LeadsOneMore(p: Parsed, frames: seq<WireFrame>)
    requires frames != [] && Leads(p, frames[1..])
    ensures Leads(Prepend([frames[0]], p), frames)
  {
    assert frames == [frames[0]] + frames[1..];
  }

  // ---- the transport ------------------------------------------------------------------------------

  datatype Cause = StreamError | Closed | Ended

  datatype Outcome = Pending | Got(frame: WireFrame) | Rejected(cause: Cause)

  datatype State = State(
    buffer: seq<byte>,
    ready: seq<WireFrame>,
    waiters: seq<nat>,
    failure: Option<Cause>,
    outcomes: seq<Outcome>)

  const INITIAL := State([], [], [], None, [])

  /** Waiters name calls of `recv`. */
  ghost predicate WaitersKnown(st: State) {
    forall k | 0 <= k < |st.waiters| :: st.waiters[k] < |st.outcomes|
  }

  function Deliver(st: State, f: WireFrame): (r: State)
    requires st.waiters != [] ==> st.waiters[0] < |st.outcomes|
  {
    if st.waiters != [] then
      st.(waiters := st.waiters[1..], outcomes := st.outcomes[st.waiters[0] := Got(f)])
    else
      st.(ready := st.ready + [f])
  }

  ghost function DeliverAll(st: State, frames: seq<WireFrame>): (r: State)
    requires WaitersKnown(st)
    ensures WaitersKnown(r)
    decreases |frames|
  {
    if frames == [] then st else DeliverAll(Deliver(st, frames[0]), frames[1..])
  }

  /** Parse the buffer as far as it goes and hand out the frames. */
  ghost function Drain(st: State): (r: State)
    requires WaitersKnown(st)
    ensures WaitersKnown(r)
  {
    DeliverAll(st, Parse(st.buffer).frames).(buffer := Parse(st.buffer).rest)
  }

  ghost function Append(st: State, chunk: seq<byte>): (r: State)
    requires WaitersKnown(st)
    ensures WaitersKnown(r)
  {
    Drain(st.(buffer := st.buffer + chunk))
  }

  ghost function RejectAll(outcomes: seq<Outcome>, waiters: seq<nat>, cause: Cause): (r: seq<Outcome>)
    requires forall k | 0 <= k < |waiters| :: waiters[k] < |outcomes|
    ensures |r| == |outcomes|
    ensures forall i | 0 <= i < |outcomes| :: r[i] == if i in waiters then Rejected(cause) else outcomes[i]
    decreases |waiters|
  {
    if waiters == [] then outcomes
    else RejectAll(outcomes[waiters[0] := Rejected(cause)], waiters[1..], cause)
  }

  ghost function Fail(st: State, cause: Cause): (r: State)
    requires WaitersKnown(st)
    ensures WaitersKnown(r)
  {
    if st.failure.Some? then st
    else st.(failure := Some(cause), waiters := [], outcomes := RejectAll(st.outcomes, st.waiters, cause))
  }

  function Recv(st: State): (r: State)
  {
    if st.ready != [] then st.(ready := st.ready[1..], outcomes := st.outcomes + [Got(st.ready[0])])
    else if st.failure.Some? then st.(outcomes := st.outcomes + [Rejected(st.failure.value)])
    else st.(waiters := st.waiters + [|st.outcomes|], outcomes := st.outcomes + [Pending])
  }

  /** The transport as it runs, with its event handlers. */
  class StreamFrameTransport {
    var buffer: seq<byte>
    var ready: seq<WireFrame>
    var waiters: seq<nat>
    var failure: Option<Cause>
    var outcomes: seq<Outcome>

    ghost function Now(): State
      reads this
    {
      State(buffer, ready, waiters, failure, outcomes)
    }

    constructor ()
      ensures Now() == INITIAL
    {
      buffer, ready, waiters, failure, outcomes := [], [], [], None, [];
    }

    /** `append` and `parse`; `thrown` is the header refusal that escapes the data handler. */
    method OnData(chunk: seq<byte>) returns (thrown: Option<FrameError>)
      requires WaitersKnown(Now())
      modifies this
      ensures Now() == Append(old(Now()), chunk)
      ensures thrown == Parse(old(buffer) + chunk).rejected
    {
      buffer := buffer + chunk;
      thrown := None;
      var done := false;
      while !done && |buffer| >= HEADER_LEN
        invariant WaitersKnown(Now())
        invariant Drain(Now()) == Append(old(Now()), chunk)
        invariant Parse(buffer).rejected == Parse(old(buffer) + chunk).rejected
        invariant done ==> Parse(buffer).frames == [] && thrown == Parse(buffer).rejected
        invariant !done ==> thrown == None
        decreases !done, |buffer|
      {
        done, thrown := ParseOne();
      }
      DrainStuck(Now());
    }

    /** One round of the parse loop: take a whole frame off the buffer, or stop. */
    method ParseOne() returns (done: bool, thrown: Option<FrameError>)
      requires WaitersKnown(Now()) && |buffer| >= HEADER_LEN
      modifies this
      ensures WaitersKnown(Now()) && Drain(Now()) == old(Drain(Now()))
      ensures Parse(buffer).rejected == old(Parse(buffer).rejected)
      ensures done ==> Parse(buffer).frames == [] && thrown == Parse(buffer).rejected
      ensures !done ==> |buffer| < |old(buffer)| && thrown == None
    {
      var header := DecodeHeader(buffer, MAX_PAYLOAD);
      if header.Err? {
        return true, Some(header.error);
      }
      var total := HEADER_LEN + header.header.payloadLen;
      if |buffer| < total {
        return true, None;
      }
      var frame := WireFrame(header.header, buffer[HEADER_LEN..total]);
      ghost var next := Deliver(Now(), frame).(buffer := buffer[total..]);
      DrainStep(Now(), header.header, next);
      buffer := buffer[total..];
      HandOver(frame);
      assert Now() == next;
      done, thrown := false, None;
    }

    method HandOver(frame: WireFrame)
      requires WaitersKnown(Now())
      modifies this
      ensures Now() == Deliver(old(Now()), frame)
    {
      if waiters != [] {
        outcomes := outcomes[waiters[0] := Got(frame)];
        waiters := waiters[1..];
      } else {
        ready := ready + [frame];
      }
    }

    method OnFailure(cause: Cause)
      requires WaitersKnown(Now())
      modifies this
      ensures Now() == Fail(old(Now()), cause)
    {
      if failure.Some? {
        return;
      }
      failure := Some(cause);
      while waiters != []
        invariant WaitersKnown(Now())
        invariant buffer == old(buffer) && ready == old(ready) && failure == Some(cause)
        invariant RejectAll(outcomes, waiters, cause) == old(RejectAll(outcomes, waiters, cause))
        decreases |waiters|
      {
        outcomes := outcomes[waiters[0] := Rejected(cause)];
        waiters := waiters[1..];
      }
    }

    method OnRecv()
      modifies this
      ensures Now() == Recv(old(Now()))
    {
      if ready != [] {
        outcomes := outcomes + [Got(ready[0])];
        ready := ready[1..];
      } else if failure.Some? {
        outcomes := outcomes + [Rejected(failure.value)];
      } else {
        waiters := waiters + [|outcomes|];
        outcomes := outcomes + [Pending];
      }
    }
  }

  lemma {:induction false} BufferIsIgnored(st: State, b: seq<byte>, frames: seq<WireFrame>)
    requires WaitersKnown(st)
    ensures DeliverAll(st.(buffer := b), frames) == DeliverAll(st, frames).(buffer := b)
    decreases |frames|
  {
    if frames != [] {
      BufferIsIgnored(Deliver(st, frames[0]), b, frames[1..]);
    }
  }

  lemma DrainStuck(st: State)
    requires WaitersKnown(st) && Parse(st.buffer).frames == []
    ensures Drain(st) == st
  {
  }

  lemma DrainStep(st: State, h: Header, next: State)
    requires WaitersKnown(st) && DecodeHeader(st.buffer, MAX_PAYLOAD) == Ok(h)
    requires HEADER_LEN + h.payloadLen <= |st.buffer|
    requires next == Deliver(st, WireFrame(h, st.buffer[HEADER_LEN..HEADER_LEN + h.payloadLen]))
                     .(buffer := st.buffer[HEADER_LEN + h.payloadLen..])
    ensures WaitersKnown(next) && Drain(st) == Drain(next)
    ensures Parse(st.buffer).rejected == Parse(next.buffer).rejected
  {
    var total := HEADER_LEN + h.payloadLen;
    var f := WireFrame(h, st.buffer[HEADER_LEN..total]);
    assert Parse(st.buffer) == Prepend([f], Parse(next.buffer));
    DeliverStep(st, f, next.buffer, Parse(next.buffer).frames);
  }

  lemma DeliverStep(st: State, f: WireFrame, b: seq<byte>, frames: seq<WireFrame>)
    requires WaitersKnown(st)
    ensures DeliverAll(Deliver(st, f).(buffer := b), frames) == DeliverAll(st, [f] + frames).(buffer := b)
  {
    assert ([f] + frames)[1..] == frames;
    BufferIsIgnored(Deliver(st, f), b, frames);
  }

  // ---- what every run keeps -----------------------------------------------------------------------

  /** The frames handed out, in call order. */
  ghost function Gots(outcomes: seq<Outcome>): seq<WireFrame> {
    if outcomes == [] then []
    else
      var last := outcomes[|outcomes| - 1];
      Gots(outcomes[..|outcomes| - 1]) + (if last.Got? then [last.frame] else [])
  }

  ghost predicate Ascending(s: seq<nat>) {
    forall i, j | 0 <= i < j < |s| :: s[i] < s[j]
  }

  ghost predicate NoOvertaking(outcomes: seq<Outcome>) {
    forall i, j | 0 <= i < j < |outcomes| :: outcomes[i].Pending? ==> !outcomes[j].Got?
  }

  /** Waiters are exactly the pending calls, in call order. */
  ghost predicate WaitersArePending(st: State) {
    && WaitersKnown(st) && Ascending(st.waiters)
    && forall i | 0 <= i < |st.outcomes| :: st.outcomes[i].Pending? <==> i in st.waiters
  }

  /** Frames and calls are paired first come, first served: the frames handed out followed by the queued
      ones are `frames`; a call waits only when nothing is queued and nothing failed; and no call
      overtook an earlier pending one. */
  ghost predicate Paired(st: State, frames: seq<WireFrame>) {
    && Gots(st.outcomes) + st.ready == frames
    && WaitersArePending(st)
    && (st.waiters != [] ==> st.ready == [] && st.failure == None)
    && NoOvertaking(st.outcomes)
  }

  /** What holds after `received` bytes in total. */
  ghost predicate Inv(st: State, received: seq<byte>) {
    st.buffer == Parse(received).rest && Paired(st, Parse(received).frames)
  }

  lemma {:induction false} GotsNone(outcomes: seq<Outcome>, k: nat)
    requires k <= |outcomes| && forall j | k <= j < |outcomes| :: !outcomes[j].Got?
    ensures Gots(outcomes) == Gots(outcomes[..k])
    decreases |outcomes|
  {
    if k == |outcomes| {
      assert outcomes[..k] == outcomes;
    } else {
      var front := outcomes[..|outcomes| - 1];
      GotsNone(front, k);
      assert front[..k] == outcomes[..k];
    }
  }

  /** Resolving the earliest pending call appends to the frames handed out. */
  lemma GotsResolve(outcomes: seq<Outcome>, w: nat, f: WireFrame)
    requires w < |outcomes| && forall j | w <= j < |outcomes| :: !outcomes[j].Got?
    ensures Gots(outcomes[w := Got(f)]) == Gots(outcomes) + [f]
  {
    var after := outcomes[w := Got(f)];
    GotsNone(outcomes, w);
    GotsNone(after, w + 1);
    assert after[..w + 1][..w] == outcomes[..w];
  }

  lemma {:induction false} GotsRejected(a: seq<Outcome>, b: seq<Outcome>)
    requires |a| == |b|
    requires forall i | 0 <= i < |a| :: a[i] == b[i] || (!a[i].Got? && !b[i].Got?)
    ensures Gots(a) == Gots(b)
  {
    if a != [] {
      GotsRejected(a[..|a| - 1], b[..|b| - 1]);
    }
  }

  lemma ResolveKeepsWaiters(st: State, f: WireFrame)
    requires WaitersArePending(st) && st.waiters != []
    ensures WaitersArePending(Deliver(st, f))
  {
    var r := Deliver(st, f);
    forall i | 0 <= i < |r.outcomes| ensures r.outcomes[i].Pending? <==> i in r.waiters {
      assert st.waiters == [st.waiters[0]] + r.waiters;
      assert i in st.waiters <==> i == st.waiters[0] || i in r.waiters;
    }
  }

  lemma DeliverKeeps(st: State, f: WireFrame, frames: seq<WireFrame>)
    requires Paired(st, frames)
    ensures Paired(Deliver(st, f), frames + [f])
  {
    var r := Deliver(st, f);
    if st.waiters == [] {
      Concat3(Gots(st.outcomes), st.ready, [f]);
    } else {
      var w := st.waiters[0];
      assert w in st.waiters && st.outcomes[w].Pending?;
      ResolveKeepsWaiters(st, f);
      GotsResolve(st.outcomes, w, f);
      forall i, j | 0 <= i < j < |r.outcomes| && r.outcomes[i].Pending? ensures !r.outcomes[j].Got? {
        assert st.outcomes[i].Pending? && i in st.waiters;
      }
    }
  }

  lemma {:induction false} DeliverAllKeeps(st: State, more: seq<WireFrame>, frames: seq<WireFrame>)
    requires Paired(st, frames)
    ensures Paired(DeliverAll(st, more), frames + more)
    decreases |more|
  {
    if more == [] {
      assert frames + more == frames;
    } else {
      DeliverKeeps(st, more[0], frames);
      DeliverAllKeeps(Deliver(st, more[0]), more[1..], frames + [more[0]]);
      assert frames + [more[0]] + more[1..] == frames + more;
    }
  }

  lemma AppendKeeps(st: State, chunk: seq<byte>, received: seq<byte>)
    requires Inv(st, received)
    ensures Inv(Append(st, chunk), received + chunk)
  {
    ParseMore(received, chunk);
    DeliverAllKeeps(st.(buffer := st.buffer + chunk), Parse(st.buffer + chunk).frames, Parse(received).frames);
  }

  lemma FailKeeps(st: State, cause: Cause, received: seq<byte>)
    requires Inv(st, received)
    ensures Inv(Fail(st, cause), received)
    ensures Fail(st, cause).failure.Some? && Fail(st, cause).waiters == []
  {
    GotsRejected(st.outcomes, Fail(st, cause).outcomes);
  }

  /** A failure takes no answer back. */
  lemma FailSettles(st: State, cause: Cause)
    requires WaitersArePending(st)
    ensures var r := Fail(st, cause);
            |r.outcomes| == |st.outcomes| && forall i | 0 <= i < |st.outcomes| && !st.outcomes[i].Pending? ::
              r.outcomes[i] == st.outcomes[i]
  {
  }

  /** Neither does a delivery, which also leaves the failure as it is. */
  lemma {:induction false} DeliverSettles(st: State, more: seq<WireFrame>, frames: seq<WireFrame>)
    requires Paired(st, frames)
    ensures var r := DeliverAll(st, more);
            && |r.outcomes| == |st.outcomes| && r.failure == st.failure
            && forall i | 0 <= i < |st.outcomes| && !st.outcomes[i].Pending? :: r.outcomes[i] == st.outcomes[i]
    decreases |more|
  {
    if more != [] {
      DeliverKeeps(st, more[0], frames);
      DeliverSettles(Deliver(st, more[0]), more[1..], frames + [more[0]]);
    }
  }

  lemma AppendSettles(st: State, chunk: seq<byte>, received: seq<byte>)
    requires Inv(st, received)
    ensures var r := Append(st, chunk);
            && |r.outcomes| == |st.outcomes| && r.failure == st.failure
            && forall i | 0 <= i < |st.outcomes| && !st.outcomes[i].Pending? :: r.outcomes[i] == st.outcomes[i]
  {
    DeliverSettles(st.(buffer := st.buffer + chunk), Parse(st.buffer + chunk).frames, Parse(received).frames);
  }

  lemma GotsAppend(outcomes: seq<Outcome>, o: Outcome)
    ensures Gots(outcomes + [o]) == Gots(outcomes) + (if o.Got? then [o.frame] else [])
  {
    assert (outcomes + [o])[..|outcomes|] == outcomes;
  }

  lemma RecvQueued(st: State, frames: seq<WireFrame>)
    requires Paired(st, frames) && st.ready != []
    ensures Paired(Recv(st), frames)
  {
    GotsAppend(st.outcomes, Got(st.ready[0]));
    assert st.ready == [st.ready[0]] + st.ready[1..];
    Concat3(Gots(st.outcomes), [st.ready[0]], st.ready[1..]);
  }

  lemma RecvWaits(st: State, frames: seq<WireFrame>)
    requires Paired(st, frames) && st.ready == [] && st.failure == None
    ensures Paired(Recv(st), frames)
  {
    GotsAppend(st.outcomes, Pending);
    WaiterAdded(st);
  }

  lemma WaiterAdded(st: State)
    requires WaitersArePending(st)
    ensures WaitersArePending(st.(waiters := st.waiters + [|st.outcomes|], outcomes := st.outcomes + [Pending]))
  {
    var n := |st.outcomes|;
    var outcomes, waiters := st.outcomes + [Pending], st.waiters + [n];
    forall i | 0 <= i < |outcomes| ensures outcomes[i].Pending? <==> i in waiters {
      if i < n {
        assert outcomes[i] == st.outcomes[i];
      } else {
        assert waiters[|st.waiters|] == i;
      }
    }
  }

  lemma RecvKeeps(st: State, frames: seq<WireFrame>)
    requires Paired(st, frames)
    ensures Paired(Recv(st), frames)
  {
    if st.ready != [] {
      RecvQueued(st, frames);
    } else if st.failure == None {
      RecvWaits(st, frames);
    } else {
      GotsAppend(st.outcomes, Rejected(st.failure.value));
    }
  }

  datatype Event = Data(chunk: seq<byte>) | Call | Failed(cause: Cause)

  ghost function Step(st: State, e: Event): (r: State)
    requires WaitersKnown(st)
    ensures WaitersKnown(r)
  {
    match e
    case Data(chunk) => Append(st, chunk)
    case Call => Recv(st)
    case Failed(cause) => Fail(st, cause)
  }

  ghost function Run(events: seq<Event>): (st: State)
    ensures WaitersKnown(st)
  {
    if events == [] then INITIAL else Step(Run(events[..|events| - 1]), events[|events| - 1])
  }

  ghost function Received(events: seq<Event>): seq<byte> {
    if events == [] then []
    else
      var last := events[|events| - 1];
      Received(events[..|events| - 1]) + (if last.Data? then last.chunk else [])
  }

  lemma StepKeeps(st: State, e: Event, received: seq<byte>)
    requires Inv(st, received)
    ensures Inv(Step(st, e), received + (if e.Data? then e.chunk else []))
  {
    if e.Data? {
      AppendKeeps(st, e.chunk, received);
    } else {
      NothingAfter(received);
      if e.Call? {
        CallKeeps(st, received);
      } else {
        FailKeeps(st, e.cause, received);
      }
    }
  }

  lemma CallKeeps(st: State, received: seq<byte>)
    requires Inv(st, received)
    ensures Inv(Recv(st), received)
  {
    RecvKeeps(st, Parse(received).frames);
    RecvKeepsBuffer(st);
  }

  lemma RecvKeepsBuffer(st: State)
    ensures Recv(st).buffer == st.buffer
  {
  }

  /** Over every interleaving of chunks, calls and failures the invariant holds, and once the stream has
      failed no call is left waiting. */
  lemma {:induction false} RunKeeps(events: seq<Event>)
    ensures Inv(Run(events), Received(events))
    ensures Run(events).failure.Some? ==>
              forall i | 0 <= i < |Run(events).outcomes| :: !Run(events).outcomes[i].Pending?
  {
    if events == [] {
      assert Parse([]) == Parsed([], [], None);
    } else {
      var before := events[..|events| - 1];
      RunKeeps(before);
      StepKeeps(Run(before), events[|events| - 1], Received(before));
    }
  }

  // ---- the k-th receive gets the k-th frame -------------------------------------------------------

  ghost predicate NoRejections(outcomes: seq<Outcome>) {
    forall i | 0 <= i < |outcomes| :: !outcomes[i].Rejected?
  }

  lemma {:induction false} GotsAreLeading(outcomes: seq<Outcome>)
    requires NoRejections(outcomes) && NoOvertaking(outcomes)
    ensures |Gots(outcomes)| <= |outcomes|
    ensures forall k | 0 <= k < |outcomes| ::
              outcomes[k] == if k < |Gots(outcomes)| then Got(Gots(outcomes)[k]) else Pending
  {
    if outcomes != [] {
      var front, n := outcomes[..|outcomes| - 1], |outcomes| - 1;
      GotsAreLeading(front);
      assert outcomes[n].Got? ==> forall k | 0 <= k < n :: front[k] == outcomes[k] && !front[k].Pending?;
    }
  }

  lemma AppendNoRejection(st: State, chunk: seq<byte>)
    requires WaitersKnown(st) && NoRejections(st.outcomes) && st.failure == None
    ensures NoRejections(Append(st, chunk).outcomes) && Append(st, chunk).failure == None
  {
    var b := st.buffer + chunk;
    DeliverAllNoRejection(st.(buffer := b), Parse(b).frames);
  }

  lemma RecvNoRejection(st: State)
    requires NoRejections(st.outcomes) && st.failure == None
    ensures NoRejections(Recv(st).outcomes) && Recv(st).failure == None
  {
  }

  lemma StepNoRejection(st: State, e: Event)
    requires WaitersKnown(st) && NoRejections(st.outcomes) && st.failure == None && !e.Failed?
    ensures NoRejections(Step(st, e).outcomes) && Step(st, e).failure == None
  {
    if e.Data? {
      AppendNoRejection(st, e.chunk);
    } else {
      RecvNoRejection(st);
    }
  }

  lemma {:induction false} NoFailureNoRejection(events: seq<Event>)
    requires forall e | e in events :: !e.Failed?
    ensures NoRejections(Run(events).outcomes) && Run(events).failure == None
  {
    if events != [] {
      NoFailureNoRejection(events[..|events| - 1]);
      StepNoRejection(Run(events[..|events| - 1]), events[|events| - 1]);
    }
  }

  lemma {:induction false} DeliverAllNoRejection(st: State, frames: seq<WireFrame>)
    requires WaitersKnown(st) && NoRejections(st.outcomes)
    ensures NoRejections(DeliverAll(st, frames).outcomes) && DeliverAll(st, frames).failure == st.failure
    decreases |frames|
  {
    if frames != [] {
      DeliverAllNoRejection(Deliver(st, frames[0]), frames[1..]);
    }
  }

  /** For every list of valid frames, every way of cutting a prefix of their bytes into chunks and every
      interleaving of calls with those chunks: the k-th call has exactly the k-th frame once that frame
      is complete and waits until then, and the buffer is a proper prefix of the next frame. */
  lemma KthReceive(frames: seq<WireFrame>, events: seq<Event>)
    requires forall f | f in frames :: ValidFrame(f)
    requires forall e | e in events :: !e.Failed?
    requires Received(events) <= Concat(frames)
    ensures var st, n := Run(events), |Parse(Received(events)).frames|;
            && n <= |frames|
            && (forall k | 0 <= k < |st.outcomes| :: st.outcomes[k] == if k < n then Got(frames[k]) else Pending)
            && (n == |frames| ==> st.buffer == []) && (n < |frames| ==> st.buffer < FrameBytes(frames[n]))
            && (n == |frames| <==> Received(events) == Concat(frames))
  {
    var st, p := Run(events), Parse(Received(events));
    RunKeeps(events);
    NoFailureNoRejection(events);
    ParsePrefix(frames, Received(events));
    LeadingOutcomes(st, p.frames);
    AllParsed(frames, Received(events));
  }

  lemma LeadingOutcomes(st: State, frames: seq<WireFrame>)
    requires Paired(st, frames) && NoRejections(st.outcomes)
    ensures forall k | 0 <= k < |st.outcomes| ::
              st.outcomes[k] == if k < |frames| then Got(frames[k]) else Pending
  {
    GotsAreLeading(st.outcomes);
    var g := Gots(st.outcomes);
    if |g| < |st.outcomes| {
      assert st.outcomes[|g|].Pending? && |g| in st.waiters;
      assert g == frames;
    }
  }

  lemma AllParsed(frames: seq<WireFrame>, b: seq<byte>)
    requires (forall f | f in frames :: ValidFrame(f)) && Parse(b).frames <= frames
    requires |Parse(b).frames| == |frames| ==> Parse(b).rest == []
    ensures |Parse(b).frames| == |frames| <==> b == Concat(frames)
  {
    var p := Parse(b);
    if |p.frames| == |frames| {
      assert p.frames == frames;
      ParsedBytes(b);
      NothingAfter(Concat(frames));
    }
    if b == Concat(frames) {
      NothingAfter(b);
      ParseFrames(frames, []);
      assert Parse([]).frames == [];
      NothingAfter(frames);
    }
  }

  // ---- receives on a stream that has failed -------------------------------------------------------

  /** The cause of the first failure. */
  ghost function FirstFailure(events: seq<Event>): (r: Option<Cause>) {
    if events == [] then None
    else
      var before, last := FirstFailure(events[..|events| - 1]), events[|events| - 1];
      if before.None? && last.Failed? then Some(last.cause) else before
  }

  /** Every rejection carries the cause the transport keeps. */
  ghost predicate OneCause(st: State) {
    forall i | 0 <= i < |st.outcomes| && st.outcomes[i].Rejected? :: st.failure == Some(st.outcomes[i].cause)
  }

  lemma {:induction false} DeliverAllOneCause(st: State, frames: seq<WireFrame>)
    requires WaitersKnown(st) && OneCause(st)
    ensures OneCause(DeliverAll(st, frames)) && DeliverAll(st, frames).failure == st.failure
    decreases |frames|
  {
    if frames != [] {
      DeliverAllOneCause(Deliver(st, frames[0]), frames[1..]);
    }
  }

  lemma StepOneCause(st: State, e: Event)
    requires WaitersKnown(st) && OneCause(st)
    ensures OneCause(Step(st, e))
    ensures Step(st, e).failure == if st.failure.None? && e.Failed? then Some(e.cause) else st.failure
  {
    if e.Data? {
      var b := st.buffer + e.chunk;
      DeliverAllOneCause(st.(buffer := b), Parse(b).frames);
    }
  }

  /** The transport keeps the first failure's cause, and rejects receives with nothing else. */
  lemma {:induction false} FirstCauseRejects(events: seq<Event>)
    ensures var st := Run(events);
            && st.failure == FirstFailure(events)
            && forall i | 0 <= i < |st.outcomes| && st.outcomes[i].Rejected? ::
                 FirstFailure(events) == Some(st.outcomes[i].cause)
  {
    if events != [] {
      var before := events[..|events| - 1];
      FirstCauseRejects(before);
      StepOneCause(Run(before), events[|events| - 1]);
    }
  }

  lemma RunSnoc(events: seq<Event>, e: Event)
    ensures Run(events + [e]) == Step(Run(events), e) && Received(events + [e])
              == Received(events) + (if e.Data? then e.chunk else [])
  {
    assert (events + [e])[..|events|] == events;
  }

  lemma NextQueued(st: State, frames: seq<WireFrame>)
    requires Paired(st, frames)
    ensures |Gots(st.outcomes)| <= |frames|
    ensures st.ready == frames[|Gots(st.outcomes)|..]
  {
    var g := Gots(st.outcomes);
    assert (g + st.ready)[|g|..] == st.ready;
  }

  /** What `recv` answers, in every run, failures included: the next frame if more have been parsed from
      the bytes received than were handed out, else the first failure, else nothing yet. */
  lemma CallOutcome(events: seq<Event>)
    ensures var st, r := Run(events), Run(events + [Call]);
            var n, frames := |Gots(st.outcomes)|, Parse(Received(events)).frames;
            && n <= |frames|
            && r.outcomes == st.outcomes + [
                 if n < |frames| then Got(frames[n])
                 else match FirstFailure(events)
                   case Some(cause) => Rejected(cause)
                   case None => Pending]
  {
    RunSnoc(events, Call);
    RunKeeps(events);
    FirstCauseRejects(events);
    NextQueued(Run(events), Parse(Received(events)).frames);
  }

  /** A failure rejects every waiting receive with its cause, and no other. */
  lemma FailureRejectsWaiters(events: seq<Event>, cause: Cause)
    requires FirstFailure(events) == None
    ensures var st, r := Run(events), Run(events + [Failed(cause)]);
            && |r.outcomes| == |st.outcomes|
            && forall i | 0 <= i < |st.outcomes| ::
                 r.outcomes[i] == if st.outcomes[i].Pending? then Rejected(cause) else st.outcomes[i]
  {
    RunSnoc(events, Failed(cause));
    RunKeeps(events);
    FirstCauseRejects(events);
  }

  /** `k` calls. */
  function Calls(k: nat): (events: seq<Event>) {
    seq(k, _ => Call)
  }

  lemma LastCall(events: seq<Event>, k: nat)
    ensures events + Calls(k) == if k == 0 then events else (events + Calls(k - 1)) + [Call]
  {
  }

  lemma NothingGotten(outcomes: seq<Outcome>, frames: seq<WireFrame>, n: nat)
    requires n <= |frames|
    ensures outcomes + Gotten(frames[n..n]) == outcomes
  {
  }

  ghost function Handed(events: seq<Event>): (n: nat) {
    |Gots(Run(events).outcomes)|
  }

  ghost function Complete(events: seq<Event>): (frames: seq<WireFrame>) {
    Parse(Received(events)).frames
  }

  lemma CallTakesNext(events: seq<Event>, n: nat)
    requires Handed(events) == n < |Complete(events)|
    ensures Run(events + [Call]).outcomes == Run(events).outcomes + [Got(Complete(events)[n])]
  {
    CallOutcome(events);
  }

  lemma DrainedSoFar(events: seq<Event>, before: seq<Event>, n: nat, k: nat)
    requires before == events + Calls(k) && n == Handed(events) && n + k <= |Complete(events)|
    requires Run(before).outcomes == Run(events).outcomes + Gotten(Complete(events)[n..n + k])
    ensures Handed(before) == n + k && Complete(before) == Complete(events)
  {
    GotsGotten(Run(events).outcomes, Complete(events)[n..n + k]);
    CallsReceiveNothing(events, k);
  }

  /** Calls take the complete frames that were not handed out yet, in order. */
  lemma {:induction false} CallsDrain(events: seq<Event>, n: nat, k: nat)
    requires n == Handed(events) && n + k <= |Complete(events)|
    ensures Run(events + Calls(k)).outcomes == Run(events).outcomes + Gotten(Complete(events)[n..n + k])
    decreases k
  {
    var outcomes, frames := Run(events).outcomes, Complete(events);
    LastCall(events, k);
    if k == 0 {
      NothingGotten(outcomes, frames, n);
    } else {
      var before := events + Calls(k - 1);
      CallsDrain(events, n, k - 1);
      DrainedSoFar(events, before, n, k - 1);
      CallTakesNext(before, n + k - 1);
      OneMoreGotten(outcomes, frames, n, k);
    }
  }

  /** A failure hands out nothing and receives nothing. */
  lemma FailureKeepsFrames(events: seq<Event>, cause: Cause)
    ensures Handed(events + [Failed(cause)]) == Handed(events) && Complete(events + [Failed(cause)]) == Complete(events)
  {
    RunSnoc(events, Failed(cause));
    NothingAfter(Received(events));
    RunKeeps(events);
    GotsRejected(Run(events).outcomes, Run(events + [Failed(cause)]).outcomes);
  }

  /** No frame is lost to a failure: whatever was complete when the stream failed is handed to the next
      calls, in order, before any of them is rejected. */
  lemma NoFrameIsLost(events: seq<Event>, cause: Cause, n: nat, k: nat)
    requires n == Handed(events) && n + k <= |Complete(events)|
    ensures Run(events + [Failed(cause)] + Calls(k)).outcomes
            == Run(events + [Failed(cause)]).outcomes + Gotten(Complete(events)[n..n + k])
  {
    FailureKeepsFrames(events, cause);
    CallsDrain(events + [Failed(cause)], n, k);
  }

  function Gotten(frames: seq<WireFrame>): (r: seq<Outcome>) {
    seq(|frames|, i requires 0 <= i < |frames| => Got(frames[i]))
  }

  lemma OneMoreGotten(outcomes: seq<Outcome>, frames: seq<WireFrame>, n: nat, k: nat)
    requires 0 < k && n + k <= |frames|
    ensures (outcomes + Gotten(frames[n..n + k - 1])) + [Got(frames[n + k - 1])] == outcomes + Gotten(frames[n..n + k])
  {
    assert frames[n..n + k] == frames[n..n + k - 1] + [frames[n + k - 1]];
  }

  lemma GottenSnoc(outcomes: seq<Outcome>, frames: seq<WireFrame>)
    requires frames != []
    ensures var front, last := frames[..|frames| - 1], frames[|frames| - 1];
            && frames == front + [last]
            && outcomes + Gotten(frames) == (outcomes + Gotten(front)) + [Got(last)]
  {
  }

  lemma {:induction false} GotsGotten(outcomes: seq<Outcome>, frames: seq<WireFrame>)
    ensures Gots(outcomes + Gotten(frames)) == Gots(outcomes) + frames
    decreases |frames|
  {
    if frames == [] {
      assert Gotten(frames) == [];
      NothingAfter(outcomes);
      NothingAfter(Gots(outcomes));
    } else {
      var front, last := frames[..|frames| - 1], frames[|frames| - 1];
      GotsGotten(outcomes, front);
      GottenSnoc(outcomes, frames);
      GotsAppend(outcomes + Gotten(front), Got(last));
      Concat3(Gots(outcomes), front, [last]);
    }
  }

  /** Failures and calls receive nothing. */
  lemma {:induction false} CallsReceiveNothing(events: seq<Event>, k: nat)
    ensures Received(events + Calls(k)) == Received(events)
    decreases k
  {
    LastCall(events, k);
    if k > 0 {
      CallsReceiveNothing(events, k - 1);
      RunSnoc(events + Calls(k - 1), Call);
      NothingAfter(Received(events));
    }
  }

  /** What a receive has become it stays, in every continuation. */
  lemma {:induction false} SettledStays(events: seq<Event>, more: seq<Event>, i: nat)
    requires i < |Run(events).outcomes| && !Run(events).outcomes[i].Pending?
    ensures i < |Run(events + more).outcomes| && Run(events + more).outcomes[i] == Run(events).outcomes[i]
    decreases |more|
  {
    if more == [] {
      NothingAfter(events);
    } else {
      var front, last := more[..|more| - 1], more[|more| - 1];
      SettledStays(events, front, i);
      LastApart(events, more);
      RunSnoc(events + front, last);
      RunKeeps(events + front);
      StepSettles(Run(events + front), last, Received(events + front), i);
    }
  }

  lemma LastApart(events: seq<Event>, more: seq<Event>)
    requires more != []
    ensures events + more == (events + more[..|more| - 1]) + [more[|more| - 1]]
  {
  }

  lemma StepSettles(st: State, e: Event, received: seq<byte>, i: nat)
    requires Inv(st, received) && i < |st.outcomes| && !st.outcomes[i].Pending?
    ensures i < |Step(st, e).outcomes| && Step(st, e).outcomes[i] == st.outcomes[i]
  {
    match e
    case Data(chunk) => AppendSettles(st, chunk, received);
    case Failed(cause) => FailSettles(st, cause);
    case Call => RecvSettles(st, i);
  }

  lemma RecvSettles(st: State, i: nat)
    requires i < |st.outcomes|
    ensures i < |Recv(st).outcomes| && Recv(st).outcomes[i] == st.outcomes[i]
  {
  }

  lemma NothingAfter<T>(s: seq<T>)
    ensures s + [] == s
  {
  }
}
