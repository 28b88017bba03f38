/**
 * A client connection end to end: handshake, then serialized `dispatch` and `heartbeat` calls, over two
 * byte pipes that deliver in order in arbitrary pieces, against an engine that answers each frame with
 * one frame in order. Every `await` is a point where pipes and engine may move.
 */
module Protocol {
  import opened Bytes
  import opened Frame
  import Link = Transport

  const HELLO: nat := 0x0001
  const NEGOTIATE: nat := 0x0002
  const AUTHENTICATE: nat := 0x0003
  const READY: nat := 0x0004
  const PING: nat := 0x0005
  const PONG: nat := 0x0006
  const PROTOCOL_V1_0: nat := 0x0100
  const END_STREAM: nat := 1

  /** One request and the reply it awaits. */
  datatype Leg = Hello | Authenticate | Dispatch | Heartbeat

  /** Where the client is: before the handshake, between `send` and `recv`, awaiting, between calls,
      stopped by a thrown protocol error, or rejected because the stream failed. */
  datatype Pc = Begin | Sent(leg: Leg) | Waiting(leg: Leg) | Idle | Threw | Lost(cause: Link.Cause)

  datatype Exchange = Exchange(leg: Leg, request: WireFrame, reply: WireFrame)

  /** `engine(reqs)` is the engine's reply to the last of the requests `reqs` it has received;
      `profile` is the version a NEGOTIATE payload decodes to (`None` when decoding throws). */
  datatype Config = Config(
    agentPlane: bool,
    major: nat,
    maxMinor: nat,
    hello: seq<byte>,
    profile: seq<byte> -> Option<(nat, nat)>,
    engine: seq<WireFrame> -> WireFrame)

  ghost predicate ValidConfig(c: Config) {
    |c.hello| <= MAX_PAYLOAD && forall reqs: seq<WireFrame> :: ValidFrame(c.engine(reqs))
  }

  datatype System = System(
    pc: Pc,
    sent: seq<WireFrame>,
    upstream: seq<byte>,
    engineGot: seq<byte>,
    answered: nat,
    downstream: seq<byte>,
    clientGot: seq<byte>,
    transport: Link.State,
    completed: seq<Exchange>)

  const START := System(Begin, [], [], [], 0, [], [], Link.INITIAL, [])

  datatype Action =
    | BeginHandshake
    | CallDispatch(frameType: nat, payload: seq<byte>)
    | CallHeartbeat
    | CallRecv
    | Resume
    | MoveUp(n: nat)
    | EngineAnswers
    | MoveDown(n: nat)
    | StreamFails(cause: Link.Cause)
    | SendRejects

  // ---- the client ---------------------------------------------------------------------------------

  function PackVersion(major: nat, minor: nat): (v: nat)
    ensures v < 0x1_0000
  {
    major % 256 * 256 + minor % 256
  }

  function Request(version: nat, frameType: nat, payload: seq<byte>): (f: WireFrame) {
    WireFrame(Header(version, frameType, 0, END_STREAM, |payload|), payload)
  }

  function HelloFrame(c: Config): (f: WireFrame) {
    Request(PackVersion(c.major, c.maxMinor), HELLO, c.hello)
  }

  function AuthenticateFrame(version: (nat, nat)): (f: WireFrame) {
    Request(PackVersion(version.0, version.1), AUTHENTICATE, [])
  }

  /** The reply type a leg insists on; a dispatch takes any reply. */
  predicate Expected(c: Config, leg: Leg, reply: WireFrame) {
    match leg
    case Hello => reply.header.frameType == if c.agentPlane then NEGOTIATE else READY
    case Authenticate => reply.header.frameType == READY
    case Dispatch => true
    case Heartbeat => reply.header.frameType == PONG
  }

  function Send(s: System, leg: Leg, f: WireFrame): (r: System) {
    s.(pc := Sent(leg), sent := s.sent + [f], upstream := s.upstream + FrameBytes(f))
  }

  /** `send`, which rejects at once on a failed stream. */
  function TrySend(s: System, leg: Leg, f: WireFrame): (r: System) {
    if s.transport.failure.Some? then s.(pc := Lost(s.transport.failure.value)) else Send(s, leg, f)
  }

  /** The continuation of an `await recv()` that resolved to `reply`. */
  function AfterReply(c: Config, s: System, leg: Leg, reply: WireFrame): (r: System)
    requires s.sent != []
  {
    var s' := s.(completed := s.completed + [Exchange(leg, s.sent[|s.sent| - 1], reply)]);
    if !Expected(c, leg, reply) then s'.(pc := Threw)
    else if leg == Hello && c.agentPlane then
      match c.profile(reply.payload)
      case None => s'.(pc := Threw)
      case Some(version) => TrySend(s', Authenticate, AuthenticateFrame(version))
    else s'.(pc := Idle)
  }

  // ---- steps --------------------------------------------------------------------------------------

  function Min(a: nat, b: nat): nat {
    if a < b then a else b
  }

  ghost function ShiftUp(s: System, k: nat): (r: System)
    requires k <= |s.upstream|
  {
    s.(upstream := s.upstream[k..], engineGot := s.engineGot + s.upstream[..k])
  }

  ghost function Answer(c: Config, s: System): (r: System) {
    var reqs := Link.Parse(s.engineGot).frames;
    if s.answered < |reqs| then
      s.(answered := s.answered + 1, downstream := s.downstream + FrameBytes(c.engine(reqs[..s.answered + 1])))
    else s
  }

  ghost function ShiftDown(s: System, k: nat): (r: System)
    requires Link.WaitersKnown(s.transport) && k <= |s.downstream|
    ensures Link.WaitersKnown(r.transport)
  {
    s.(downstream := s.downstream[k..], clientGot := s.clientGot + s.downstream[..k],
       transport := Link.Append(s.transport, s.downstream[..k]))
  }

  ghost function Step(c: Config, s: System, a: Action): (r: System)
    requires Link.WaitersKnown(s.transport)
    ensures Link.WaitersKnown(r.transport)
  {
    match a
    case BeginHandshake => if s.pc == Begin then TrySend(s, Hello, HelloFrame(c)) else s
    case CallDispatch(t, payload) =>
      if s.pc == Idle && ValidFrame(Request(PROTOCOL_V1_0, t, payload))
      then TrySend(s, Dispatch, Request(PROTOCOL_V1_0, t, payload)) else s
    case CallHeartbeat => if s.pc == Idle then TrySend(s, Heartbeat, Request(PROTOCOL_V1_0, PING, [])) else s
    case CallRecv => if s.pc.Sent? then Received(s) else s
    case Resume =>
      var k := |s.completed|;
      if !s.pc.Waiting? || s.sent == [] || k >= |s.transport.outcomes| then s
      else (match s.transport.outcomes[k]
        case Got(frame) => AfterReply(c, s, s.pc.leg, frame)
        case Rejected(cause) => s.(pc := Lost(cause))
        case Pending => s)
    case MoveUp(n) => ShiftUp(s, Min(n, |s.upstream|))
    case EngineAnswers => Answer(c, s)
    case MoveDown(n) => ShiftDown(s, Min(n, |s.downstream|))
    case StreamFails(cause) => s.(transport := Link.Fail(s.transport, cause))
    case SendRejects =>
      if s.pc.Sent? && s.transport.failure.Some? then s.(pc := Lost(s.transport.failure.value)) else s
  }

  ghost function Run(c: Config, actions: seq<Action>): (s: System)
    ensures Link.WaitersKnown(s.transport)
  {
    if actions == [] then START else Step(c, Run(c, actions[..|actions| - 1]), actions[|actions| - 1])
  }

  // ---- what every run keeps -----------------------------------------------------------------------

  ghost function Replies(c: Config, reqs: seq<WireFrame>): (r: seq<WireFrame>)
    ensures |r| == |reqs|
  {
    if reqs == [] then [] else Replies(c, reqs[..|reqs| - 1]) + [c.engine(reqs)]
  }

  lemma {:induction false} RepliesAt(c: Config, reqs: seq<WireFrame>, i: nat)
    requires i < |reqs|
    ensures Replies(c, reqs)[i] == c.engine(reqs[..i + 1])
    decreases |reqs|
  {
    if i + 1 == |reqs| {
      assert reqs[..i + 1] == reqs;
    } else {
      RepliesAt(c, reqs[..|reqs| - 1], i);
      assert reqs[..|reqs| - 1][..i + 1] == reqs[..i + 1];
    }
  }

  lemma {:induction false} RepliesValid(c: Config, reqs: seq<WireFrame>)
    requires ValidConfig(c)
    ensures forall f | f in Replies(c, reqs) :: ValidFrame(f)
  {
    if reqs != [] {
      RepliesValid(c, reqs[..|reqs| - 1]);
    }
  }

  lemma {:induction false} ConcatAppend(frames: seq<WireFrame>, f: WireFrame)
    ensures Link.Concat(frames + [f]) == Link.Concat(frames) + FrameBytes(f)
  {
    if frames == [] {
      assert [f][1..] == [] && [] + [f] == [f];
      assert Link.Concat([f]) == FrameBytes(f) + [];
    } else {
      assert (frames + [f])[1..] == frames[1..] + [f];
      ConcatAppend(frames[1..], f);
      Concat3(FrameBytes(frames[0]), Link.Concat(frames[1..]), FrameBytes(f));
    }
  }

  /** Bytes are conserved on the pipe to the engine: what was sent is what arrived plus what is in flight. */
  ghost predicate Up(sent: seq<WireFrame>, got: seq<byte>, inFlight: seq<byte>) {
    && (forall f | f in sent :: ValidFrame(f))
    && Link.Concat(sent) == got + inFlight
    && |Link.Parse(got).frames| <= |sent|
  }

  /** Likewise on the pipe to the client, for the replies to the first `answered` requests. */
  ghost predicate Down(c: Config, sent: seq<WireFrame>, answered: nat, got: seq<byte>, inFlight: seq<byte>) {
    answered <= |sent| && Link.Concat(Replies(c, sent[..answered])) == got + inFlight
  }

  ghost predicate Pipes(c: Config, s: System) {
    && Up(s.sent, s.engineGot, s.upstream) && Down(c, s.sent, s.answered, s.clientGot, s.downstream)
    && s.answered <= |Link.Parse(s.engineGot).frames|
  }

  /** The transport keeps its invariant, the first `done` receives have their frames, and receives are
      rejected only on a failed stream. */
  ghost predicate Serves(t: Link.State, got: seq<byte>, done: nat) {
    Link.Inv(t, got) && Steady(t, done)
  }

  ghost predicate Steady(t: Link.State, done: nat) {
    && done <= |t.outcomes| && (forall i | 0 <= i < done :: t.outcomes[i].Got?)
    && (t.failure == None ==> Link.NoRejections(t.outcomes))
  }

  /** What a failure or a delivery leaves of the outcomes. */
  ghost predicate KeepsGot(t: Link.State, r: Link.State) {
    && |r.outcomes| == |t.outcomes|
    && forall i | 0 <= i < |t.outcomes| && t.outcomes[i].Got? :: r.outcomes[i] == t.outcomes[i]
  }

  lemma SteadyKept(t: Link.State, r: Link.State, done: nat)
    requires Steady(t, done) && KeepsGot(t, r) && (r.failure == None ==> Link.NoRejections(r.outcomes))
    ensures Steady(r, done)
  {
  }

  /** One `recv` per request, and at most one request without its reply. */
  ghost predicate Counts(pc: Pc, sent: nat, called: nat, done: nat, arrived: nat) {
    && done <= sent <= done + 1 && done <= called <= done + 1 && done <= arrived
    && (!pc.Lost? ==> sent == done + (if pc.Sent? || pc.Waiting? then 1 else 0))
    && (!pc.Lost? ==> called == done + (if pc.Waiting? then 1 else 0))
  }

  ghost predicate Calls(s: System) {
    && Serves(s.transport, s.clientGot, |s.completed|) && (s.pc.Lost? ==> s.transport.failure.Some?)
    && Counts(s.pc, |s.sent|, |s.transport.outcomes|, |s.completed|, |Link.Parse(s.clientGot).frames|)
  }

  /** Each finished exchange pairs a request with the engine's answer to that request. */
  ghost predicate Matched(c: Config, sent: seq<WireFrame>, done: seq<Exchange>) {
    && |done| <= |sent|
    && forall i | 0 <= i < |done| :: done[i].request == sent[i] && done[i].reply == c.engine(sent[..i + 1])
  }

  /** The exchanges a finished handshake consists of. */
  ghost predicate Handshaken(c: Config, done: seq<Exchange>) {
    && |done| >= 1 && done[0].leg == Hello && done[0].request == HelloFrame(c) && Expected(c, Hello, done[0].reply)
    && (c.agentPlane ==>
          && |done| >= 2 && done[1].leg == Authenticate && Expected(c, Authenticate, done[1].reply)
          && c.profile(done[0].reply.payload).Some?
          && done[1].request == AuthenticateFrame(c.profile(done[0].reply.payload).value))
  }

  ghost predicate HelloDone(c: Config, sent: seq<WireFrame>, done: seq<Exchange>) {
    && c.agentPlane && |done| == 1 && done[0].leg == Hello
    && done[0].request == HelloFrame(c) && Expected(c, Hello, done[0].reply)
    && c.profile(done[0].reply.payload).Some?
    && |sent| == 2 && sent[1] == AuthenticateFrame(c.profile(done[0].reply.payload).value)
  }

  /** The handshake order: nothing but its own legs precede it, and the client is between calls, or
      inside one, only after it is complete; every reply the client went past was the expected one. */
  ghost predicate Order(c: Config, pc: Pc, sent: seq<WireFrame>, done: seq<Exchange>) {
    && (forall i | 0 <= i < |done| - (if pc == Threw then 1 else 0) :: Expected(c, done[i].leg, done[i].reply))
    && match pc {
       case Begin => done == []
       case Threw => true
       case Lost(_) => true
       case Idle => Handshaken(c, done)
       case Sent(leg) => LegOrder(c, leg, sent, done)
       case Waiting(leg) => LegOrder(c, leg, sent, done)
       }
  }

  ghost predicate LegOrder(c: Config, leg: Leg, sent: seq<WireFrame>, done: seq<Exchange>) {
    match leg
    case Hello => done == [] && sent == [HelloFrame(c)]
    case Authenticate => HelloDone(c, sent, done)
    case _ => Handshaken(c, done)
  }

  ghost predicate Inv(c: Config, s: System) {
    Pipes(c, s) && Calls(s) && Matched(c, s.sent, s.completed) && Order(c, s.pc, s.sent, s.completed)
  }

  // ---- consequences of the invariant --------------------------------------------------------------

  /** The engine has seen a prefix of the requests, the client a prefix of the engine's replies. */
  lemma Prefixes(c: Config, s: System)
    requires ValidConfig(c) && Pipes(c, s)
    ensures Link.Parse(s.engineGot).frames <= s.sent
    ensures Link.Parse(s.clientGot).frames <= Replies(c, s.sent[..s.answered])
    ensures |Link.Parse(s.clientGot).frames| == s.answered ==> s.downstream == [] && Link.Parse(s.clientGot).rest == []
    ensures |Link.Parse(s.engineGot).frames| == |s.sent| ==> s.upstream == []
  {
    var replies := Replies(c, s.sent[..s.answered]);
    RepliesValid(c, s.sent[..s.answered]);
    Link.ParsePrefix(s.sent, s.engineGot);
    Link.ParsePrefix(replies, s.clientGot);
    Link.AllParsed(s.sent, s.engineGot);
    Link.AllParsed(replies, s.clientGot);
  }

  lemma ArrivedReply(t: Link.State, got: seq<byte>, k: nat)
    requires Serves(t, got, k) && |t.outcomes| == k + 1 && t.outcomes[k].Got?
    ensures k < |Link.Parse(got).frames| && t.outcomes[k].frame == Link.Parse(got).frames[k]
  {
    AllGot(t.outcomes);
    assert Link.Gots(t.outcomes)[k] == (Link.Gots(t.outcomes) + t.ready)[k];
  }

  lemma ReplyAt(c: Config, s: System, k: nat)
    requires ValidConfig(c) && Pipes(c, s) && k < |Link.Parse(s.clientGot).frames| && |s.sent| == k + 1
    ensures Link.Parse(s.clientGot).frames[k] == c.engine(s.sent)
  {
    Prefixes(c, s);
    RepliesAt(c, s.sent[..s.answered], k);
    assert s.sent[..s.answered][..k + 1] == s.sent;
  }

  /** The awaited reply, once there, is the engine's answer to the awaited request. */
  lemma ReplyIsOwn(c: Config, s: System)
    requires ValidConfig(c) && Pipes(c, s) && Calls(s) && s.pc.Waiting?
    ensures var k := |s.completed|;
            && k < |s.transport.outcomes|
            && (s.transport.outcomes[k].Got? ==>
                  k < |Link.Parse(s.clientGot).frames| && s.transport.outcomes[k].frame == c.engine(s.sent))
  {
    var k := |s.completed|;
    if s.transport.outcomes[k].Got? {
      ArrivedReply(s.transport, s.clientGot, k);
      ReplyAt(c, s, k);
    }
  }

  /** Between calls nothing is outstanding or queued anywhere: both pipes, the reassembly buffer and the
      ready queue are empty. */
  lemma QuietBetweenCalls(c: Config, s: System)
    requires ValidConfig(c) && Inv(c, s) && !s.pc.Sent? && !s.pc.Waiting? && !s.pc.Lost?
    ensures |s.sent| == |s.completed| == s.answered
    ensures s.upstream == [] && s.downstream == []
    ensures s.transport.buffer == [] && s.transport.ready == []
  {
    Prefixes(c, s);
    AllGot(s.transport.outcomes);
  }

  lemma {:induction false} AllGot(outcomes: seq<Link.Outcome>)
    requires forall i | 0 <= i < |outcomes| :: outcomes[i].Got?
    ensures |Link.Gots(outcomes)| == |outcomes|
    ensures forall i | 0 <= i < |outcomes| :: outcomes[i].frame == Link.Gots(outcomes)[i]
  {
    if outcomes != [] {
      AllGot(outcomes[..|outcomes| - 1]);
    }
  }

  // ---- preservation -------------------------------------------------------------------------------

  lemma SendKeepsPipes(c: Config, s: System, leg: Leg, f: WireFrame)
    requires Pipes(c, s) && ValidFrame(f)
    ensures Pipes(c, Send(s, leg, f))
  {
    ConcatAppend(s.sent, f);
    Concat3(s.engineGot, s.upstream, FrameBytes(f));
    assert (s.sent + [f])[..s.answered] == s.sent[..s.answered];
  }

  lemma SendKeepsMatched(c: Config, sent: seq<WireFrame>, done: seq<Exchange>, f: WireFrame)
    requires Matched(c, sent, done)
    ensures Matched(c, sent + [f], done)
  {
    forall i | 0 <= i < |done|
      ensures done[i].request == (sent + [f])[i] && done[i].reply == c.engine((sent + [f])[..i + 1])
    {
      assert (sent + [f])[..i + 1] == sent[..i + 1];
    }
  }

  lemma SendKeeps(c: Config, s: System, leg: Leg, f: WireFrame)
    requires ValidConfig(c) && Inv(c, s) && ValidFrame(f)
    requires (s.pc == Begin && leg == Hello && f == HelloFrame(c)) || (s.pc == Idle && leg in {Dispatch, Heartbeat})
    ensures Inv(c, Send(s, leg, f))
  {
    SendKeepsPipes(c, s, leg, f);
    SendKeepsMatched(c, s.sent, s.completed, f);
    assert s.pc == Begin ==> s.sent + [f] == [f];
  }

  lemma SteadyCalled(t: Link.State, done: nat)
    requires Steady(t, done)
    ensures Steady(Link.Recv(t), done) && |Link.Recv(t).outcomes| == |t.outcomes| + 1
    ensures Link.Recv(t).failure == t.failure
  {
    if t.failure == None {
      Link.RecvNoRejection(t);
    }
  }

  lemma TransportCalled(t: Link.State, got: seq<byte>, done: nat)
    requires Serves(t, got, done)
    ensures Serves(Link.Recv(t), got, done) && |Link.Recv(t).outcomes| == |t.outcomes| + 1
    ensures Link.Recv(t).failure == t.failure
  {
    Link.CallKeeps(t, got);
    SteadyCalled(t, done);
  }

  lemma CallRecvKeeps(c: Config, s: System)
    requires Inv(c, s) && s.pc.Sent?
    ensures Inv(c, Received(s))
  {
    ReceivedCalls(s);
    ReceivedOrder(c, s.pc.leg, s.sent, s.completed);
  }

  /** The state after `recv` was called. */
  ghost function Received(s: System): (r: System)
    requires s.pc.Sent? && Link.WaitersKnown(s.transport)
  {
    s.(pc := Waiting(s.pc.leg), transport := Link.Recv(s.transport))
  }

  lemma ReceivedCalls(s: System)
    requires Calls(s) && s.pc.Sent?
    ensures Calls(Received(s))
  {
    TransportCalled(s.transport, s.clientGot, |s.completed|);
  }

  lemma ReceivedOrder(c: Config, leg: Leg, sent: seq<WireFrame>, done: seq<Exchange>)
    requires Order(c, Sent(leg), sent, done)
    ensures Order(c, Waiting(leg), sent, done)
  {
  }

  lemma SteadyFails(t: Link.State, done: nat, cause: Link.Cause)
    requires Steady(t, done) && Link.WaitersArePending(t)
    ensures Steady(Link.Fail(t, cause), done) && |Link.Fail(t, cause).outcomes| == |t.outcomes|
    ensures Link.Fail(t, cause).failure.Some?
  {
    Link.FailSettles(t, cause);
    SteadyKept(t, Link.Fail(t, cause), done);
  }

  lemma TransportFails(t: Link.State, got: seq<byte>, done: nat, cause: Link.Cause)
    requires Serves(t, got, done)
    ensures Serves(Link.Fail(t, cause), got, done) && |Link.Fail(t, cause).outcomes| == |t.outcomes|
    ensures Link.Fail(t, cause).failure.Some?
  {
    Link.FailKeeps(t, cause, got);
    SteadyFails(t, done, cause);
  }

  lemma StreamFailsKeeps(c: Config, s: System, cause: Link.Cause)
    requires Inv(c, s)
    ensures Inv(c, s.(transport := Link.Fail(s.transport, cause)))
  {
    TransportFails(s.transport, s.clientGot, |s.completed|, cause);
  }

  /** A rejected call leaves the rest of the state as it was. */
  lemma LostKeeps(c: Config, s: System, cause: Link.Cause)
    requires Inv(c, s) && s.transport.failure.Some? && s.pc != Threw
    ensures Inv(c, s.(pc := Lost(cause)))
  {
  }

  /** The state with one more finished exchange, before the client decides how to go on. */
  ghost function Finished(s: System, reply: WireFrame): (r: System)
    requires s.pc.Waiting? && s.sent != []
  {
    s.(pc := Threw, completed := s.completed + [Exchange(s.pc.leg, s.sent[|s.sent| - 1], reply)])
  }

  lemma FinishedMatches(c: Config, sent: seq<WireFrame>, done: seq<Exchange>, e: Exchange)
    requires Matched(c, sent, done) && |sent| == |done| + 1 && e.request == sent[|done|] && e.reply == c.engine(sent)
    ensures Matched(c, sent, done + [e])
  {
    var all := done + [e];
    forall i | 0 <= i < |all| ensures all[i].request == sent[i] && all[i].reply == c.engine(sent[..i + 1]) {
      if i == |done| {
        assert sent[..i + 1] == sent;
      }
    }
  }

  lemma FinishedCalls(s: System, reply: WireFrame)
    requires Calls(s) && s.pc.Waiting? && s.sent != [] && s.transport.outcomes[|s.completed|] == Link.Got(reply)
    ensures Calls(Finished(s, reply))
  {
    ArrivedReply(s.transport, s.clientGot, |s.completed|);
    ServesOneMore(s.transport, s.clientGot, |s.completed|);
    CountsOneMore(s.pc, |s.sent|, |s.transport.outcomes|, |s.completed|, |Link.Parse(s.clientGot).frames|);
  }

  lemma ServesOneMore(t: Link.State, got: seq<byte>, k: nat)
    requires Serves(t, got, k) && k < |t.outcomes| && t.outcomes[k].Got?
    ensures Serves(t, got, k + 1)
  {
  }

  lemma CountsOneMore(pc: Pc, sent: nat, called: nat, done: nat, arrived: nat)
    requires Counts(pc, sent, called, done, arrived) && pc.Waiting? && done < arrived
    ensures Counts(Threw, sent, called, done + 1, arrived)
  {
  }

  lemma FinishedOrder(c: Config, s: System, reply: WireFrame)
    requires Order(c, s.pc, s.sent, s.completed) && s.pc.Waiting? && s.sent != []
    ensures Order(c, Threw, s.sent, Finished(s, reply).completed)
  {
  }

  lemma FinishedKeeps(c: Config, s: System, reply: WireFrame)
    requires ValidConfig(c) && Inv(c, s) && s.pc.Waiting? && s.transport.outcomes[|s.completed|] == Link.Got(reply)
    ensures |s.sent| == |s.completed| + 1 && Inv(c, Finished(s, reply))
  {
    ReplyIsOwn(c, s);
    FinishedMatches(c, s.sent, s.completed, Exchange(s.pc.leg, s.sent[|s.sent| - 1], reply));
    FinishedCalls(s, reply);
    FinishedOrder(c, s, reply);
  }

  lemma GoesOnIdle(c: Config, s: System, reply: WireFrame)
    requires Inv(c, s) && s.pc.Waiting? && |s.sent| == |s.completed| + 1 && Inv(c, Finished(s, reply))
    requires Expected(c, s.pc.leg, reply) && !(s.pc.leg == Hello && c.agentPlane)
    ensures Inv(c, Finished(s, reply).(pc := Idle))
  {
    var r := Finished(s, reply);
    assert r.completed[..|s.completed|] == s.completed;
    if s.pc.leg == Hello {
      assert r.completed[0].request == HelloFrame(c);
    }
  }

  lemma AuthenticateOrder(c: Config, s: System, reply: WireFrame, version: (nat, nat))
    requires Order(c, s.pc, s.sent, s.completed) && s.pc == Waiting(Hello) && s.sent != []
    requires Expected(c, Hello, reply) && c.agentPlane && c.profile(reply.payload) == Some(version)
    ensures var r := Finished(s, reply);
            && Order(c, Sent(Authenticate), r.sent + [AuthenticateFrame(version)], r.completed)
            && forall cause :: Order(c, Lost(cause), r.sent, r.completed)
  {
  }

  lemma AuthenticateCalls(s: System, f: WireFrame)
    requires Calls(s) && s.pc == Threw
    ensures Calls(Send(s, Authenticate, f))
  {
  }

  lemma GoesOnToAuthenticate(c: Config, s: System, reply: WireFrame, version: (nat, nat))
    requires Inv(c, s) && s.pc.Waiting? && |s.sent| == |s.completed| + 1 && Inv(c, Finished(s, reply))
    requires Expected(c, Hello, reply) && s.pc.leg == Hello && c.agentPlane && c.profile(reply.payload) == Some(version)
    ensures Inv(c, TrySend(Finished(s, reply), Authenticate, AuthenticateFrame(version)))
  {
    var r, f := Finished(s, reply), AuthenticateFrame(version);
    AuthenticateOrder(c, s, reply, version);
    if r.transport.failure == None {
      SendKeepsPipes(c, r, Authenticate, f);
      SendKeepsMatched(c, r.sent, r.completed, f);
      AuthenticateCalls(r, f);
    }
  }

  lemma ResumeKeeps(c: Config, s: System)
    requires ValidConfig(c) && Inv(c, s) && s.pc.Waiting? && s.transport.outcomes[|s.completed|].Got?
    ensures s.sent != [] && Inv(c, AfterReply(c, s, s.pc.leg, s.transport.outcomes[|s.completed|].frame))
  {
    var reply := s.transport.outcomes[|s.completed|].frame;
    FinishedKeeps(c, s, reply);
    if Expected(c, s.pc.leg, reply) {
      if s.pc.leg == Hello && c.agentPlane {
        match c.profile(reply.payload) {
          case None =>
          case Some(version) => GoesOnToAuthenticate(c, s, reply, version);
        }
      } else {
        GoesOnIdle(c, s, reply);
      }
    }
  }

  lemma UpShifts(sent: seq<WireFrame>, got: seq<byte>, inFlight: seq<byte>, k: nat)
    requires Up(sent, got, inFlight) && k <= |inFlight|
    ensures Up(sent, got + inFlight[..k], inFlight[k..])
    ensures |Link.Parse(got).frames| <= |Link.Parse(got + inFlight[..k]).frames|
  {
    assert inFlight == inFlight[..k] + inFlight[k..];
    Concat3(got, inFlight[..k], inFlight[k..]);
    Link.ParseMore(got, inFlight[..k]);
    Link.ParsePrefix(sent, got + inFlight[..k]);
  }

  lemma MoveUpKeeps(c: Config, s: System, k: nat)
    requires Inv(c, s) && k <= |s.upstream|
    ensures Inv(c, ShiftUp(s, k))
  {
    UpShifts(s.sent, s.engineGot, s.upstream, k);
  }

  lemma DownGrows(c: Config, sent: seq<WireFrame>, answered: nat, got: seq<byte>, inFlight: seq<byte>)
    requires Down(c, sent, answered, got, inFlight) && answered < |sent|
    ensures Down(c, sent, answered + 1, got, inFlight + FrameBytes(c.engine(sent[..answered + 1])))
  {
    var next := sent[..answered + 1];
    assert next[..answered] == sent[..answered];
    ConcatAppend(Replies(c, sent[..answered]), c.engine(next));
    Concat3(got, inFlight, FrameBytes(c.engine(next)));
  }

  lemma AnswerKeepsPipes(c: Config, s: System)
    requires Pipes(c, s) && Link.Parse(s.engineGot).frames <= s.sent
    ensures Pipes(c, Answer(c, s))
  {
    var reqs := Link.Parse(s.engineGot).frames;
    if s.answered < |reqs| {
      assert reqs[..s.answered + 1] == s.sent[..s.answered + 1];
      DownGrows(c, s.sent, s.answered, s.clientGot, s.downstream);
    }
  }

  lemma AnswerKeeps(c: Config, s: System)
    requires ValidConfig(c) && Inv(c, s)
    ensures Inv(c, Answer(c, s))
  {
    Prefixes(c, s);
    AnswerKeepsPipes(c, s);
  }

  lemma DownShifts(c: Config, sent: seq<WireFrame>, answered: nat, got: seq<byte>, inFlight: seq<byte>, k: nat)
    requires Down(c, sent, answered, got, inFlight) && k <= |inFlight|
    ensures Down(c, sent, answered, got + inFlight[..k], inFlight[k..])
  {
    assert inFlight == inFlight[..k] + inFlight[k..];
    Concat3(got, inFlight[..k], inFlight[k..]);
  }

  lemma SteadyReceives(t: Link.State, got: seq<byte>, chunk: seq<byte>, done: nat)
    requires Steady(t, done) && Link.Inv(t, got)
    ensures var r := Link.Append(t, chunk);
            Steady(r, done) && |r.outcomes| == |t.outcomes| && r.failure == t.failure
  {
    Link.AppendSettles(t, chunk, got);
    if t.failure == None {
      Link.AppendNoRejection(t, chunk);
    }
    SteadyKept(t, Link.Append(t, chunk), done);
  }

  lemma TransportReceives(t: Link.State, got: seq<byte>, chunk: seq<byte>, done: nat)
    requires Serves(t, got, done)
    ensures var r := Link.Append(t, chunk);
            Serves(r, got + chunk, done) && |r.outcomes| == |t.outcomes| && r.failure == t.failure
    ensures |Link.Parse(got).frames| <= |Link.Parse(got + chunk).frames|
  {
    Link.ParseMore(got, chunk);
    Link.AppendKeeps(t, chunk, got);
    SteadyReceives(t, got, chunk, done);
  }

  lemma MoveDownKeeps(c: Config, s: System, k: nat)
    requires Inv(c, s) && k <= |s.downstream|
    ensures Inv(c, ShiftDown(s, k))
  {
    DownShifts(c, s.sent, s.answered, s.clientGot, s.downstream, k);
    TransportReceives(s.transport, s.clientGot, s.downstream[..k], |s.completed|);
  }

  lemma TrySendKeeps(c: Config, s: System, leg: Leg, f: WireFrame)
    requires ValidConfig(c) && Inv(c, s) && ValidFrame(f)
    requires (s.pc == Begin && leg == Hello && f == HelloFrame(c)) || (s.pc == Idle && leg in {Dispatch, Heartbeat})
    ensures Inv(c, TrySend(s, leg, f))
  {
    if s.transport.failure.Some? {
      LostKeeps(c, s, s.transport.failure.value);
    } else {
      SendKeeps(c, s, leg, f);
    }
  }

  lemma CallKeeps(c: Config, s: System, a: Action)
    requires ValidConfig(c) && Inv(c, s) && (a.BeginHandshake? || a.CallDispatch? || a.CallHeartbeat?)
    ensures Inv(c, Step(c, s, a))
  {
    match a
    case BeginHandshake =>
      if s.pc == Begin { TrySendKeeps(c, s, Hello, HelloFrame(c)); }
    case CallDispatch(t, payload) =>
      var f := Request(PROTOCOL_V1_0, t, payload);
      if s.pc == Idle && ValidFrame(f) { TrySendKeeps(c, s, Dispatch, f); }
    case CallHeartbeat =>
      if s.pc == Idle { TrySendKeeps(c, s, Heartbeat, Request(PROTOCOL_V1_0, PING, [])); }
  }

  lemma RejectionIsFailure(s: System)
    requires Calls(s) && s.pc.Waiting? && s.transport.outcomes[|s.completed|].Rejected?
    ensures s.transport.failure.Some?
  {
  }

  lemma ResumeStepKeeps(c: Config, s: System)
    requires ValidConfig(c) && Inv(c, s)
    ensures Inv(c, Step(c, s, Resume))
  {
    var k := |s.completed|;
    if s.pc.Waiting? {
      match s.transport.outcomes[k]
      case Got(_) => ResumeKeeps(c, s);
      case Rejected(cause) =>
        RejectionIsFailure(s);
        LostKeeps(c, s, cause);
      case Pending =>
    }
  }

  lemma PipeKeeps(c: Config, s: System, a: Action)
    requires ValidConfig(c) && Inv(c, s) && (a.MoveUp? || a.EngineAnswers? || a.MoveDown?)
    ensures Inv(c, Step(c, s, a))
  {
    match a
    case MoveUp(n) => MoveUpKeeps(c, s, Min(n, |s.upstream|));
    case EngineAnswers => AnswerKeeps(c, s);
    case MoveDown(n) => MoveDownKeeps(c, s, Min(n, |s.downstream|));
  }

  lemma FailureKeeps(c: Config, s: System, a: Action)
    requires Inv(c, s) && (a.StreamFails? || a.SendRejects?)
    ensures Inv(c, Step(c, s, a))
  {
    match a
    case StreamFails(cause) => StreamFailsKeeps(c, s, cause);
    case SendRejects =>
      if s.pc.Sent? && s.transport.failure.Some? { LostKeeps(c, s, s.transport.failure.value); }
  }

  lemma RecvStepKeeps(c: Config, s: System)
    requires Inv(c, s)
    ensures Inv(c, Step(c, s, CallRecv))
  {
    if s.pc.Sent? {
      CallRecvKeeps(c, s);
    }
  }

  lemma StepKeeps(c: Config, s: System, a: Action)
    requires ValidConfig(c) && Inv(c, s)
    ensures Inv(c, Step(c, s, a))
  {
    if a.CallRecv? {
      RecvStepKeeps(c, s);
    } else if a.Resume? {
      ResumeStepKeeps(c, s);
    } else if a.StreamFails? || a.SendRejects? {
      FailureKeeps(c, s, a);
    } else if a.MoveUp? || a.EngineAnswers? || a.MoveDown? {
      PipeKeeps(c, s, a);
    } else {
      CallKeeps(c, s, a);
    }
  }

  lemma {:induction false} RunKeeps(c: Config, actions: seq<Action>)
    requires ValidConfig(c)
    ensures Inv(c, Run(c, actions))
  {
    if actions == [] {
      assert Link.Parse([]) == Link.Parsed([], [], None);
      assert START.sent[..0] == [];
    } else {
      RunKeeps(c, actions[..|actions| - 1]);
      StepKeeps(c, Run(c, actions[..|actions| - 1]), actions[|actions| - 1]);
    }
  }

  ghost predicate NonePending(outcomes: seq<Link.Outcome>) {
    forall i | 0 <= i < |outcomes| :: !outcomes[i].Pending?
  }

  lemma FailureEndsWaits(s: System)
    requires Calls(s) && s.transport.failure.Some?
    ensures NonePending(s.transport.outcomes)
  {
  }

  lemma ResumeCompletes(c: Config, s: System)
    requires Link.WaitersKnown(s.transport) && s.pc.Waiting? && s.sent != []
    requires |s.completed| < |s.transport.outcomes|
    ensures var o, r := s.transport.outcomes[|s.completed|], Step(c, s, Resume);
            && (o.Got? ==> r.completed == s.completed + [Exchange(s.pc.leg, s.sent[|s.sent| - 1], o.frame)])
            && (o.Rejected? ==> r == s.(pc := Lost(o.cause)))
  {
  }

  /** On a failed stream the awaiting call ends at its next step: rejected, or with its own reply. */
  lemma FailedCallEnds(c: Config, actions: seq<Action>)
    requires ValidConfig(c) && Run(c, actions).pc.Waiting? && Run(c, actions).transport.failure.Some?
    ensures var s, r := Run(c, actions), Run(c, actions + [Resume]);
            || (r.pc.Lost? && r.completed == s.completed)
            || (|r.completed| == |s.completed| + 1 && r.completed[|s.completed|].reply == c.engine(s.sent))
  {
    RunSnoc(c, actions, Resume);
    RunKeeps(c, actions);
    FailedWaitEnds(c, Run(c, actions));
  }

  lemma FailedWaitEnds(c: Config, s: System)
    requires ValidConfig(c) && Inv(c, s) && s.pc.Waiting? && s.transport.failure.Some?
    ensures var r := Step(c, s, Resume);
            || (r.pc.Lost? && r.completed == s.completed)
            || (|r.completed| == |s.completed| + 1 && r.completed[|s.completed|].reply == c.engine(s.sent))
  {
    FailureEndsWaits(s);
    ReplyIsOwn(c, s);
    ResumeCompletes(c, s);
  }

  /** Between calls, or inside a dispatch or heartbeat. */
  predicate PastHandshake(pc: Pc) {
    pc == Idle || ((pc.Sent? || pc.Waiting?) && (pc.leg == Dispatch || pc.leg == Heartbeat))
  }

  lemma HandshakeFirst(c: Config, pc: Pc, sent: seq<WireFrame>, done: seq<Exchange>)
    requires Order(c, pc, sent, done) && PastHandshake(pc)
    ensures Handshaken(c, done)
  {
  }

  /** The exchanges of a finished handshake, frame by frame: HELLO answered by READY, or by NEGOTIATE and
      then an empty AUTHENTICATE at the negotiated version answered by READY. */
  ghost predicate Greeted(c: Config, done: seq<Exchange>) {
    && |done| >= 1 && done[0].leg == Hello
    && done[0].request == WireFrame(Header(c.major % 256 * 256 + c.maxMinor % 256, 0x0001, 0, 1, |c.hello|), c.hello)
    && done[0].reply.header.frameType == (if c.agentPlane then 0x0002 else 0x0004)
    && (c.agentPlane ==>
          && |done| >= 2 && done[1].leg == Authenticate && done[1].reply.header.frameType == 0x0004
          && match c.profile(done[0].reply.payload) {
             case None => false
             case Some((major, minor)) =>
               done[1].request == WireFrame(Header(major % 256 * 256 + minor % 256, 0x0003, 0, 1, 0), [])
             })
  }

  lemma HandshakenIsGreeted(c: Config, done: seq<Exchange>)
    requires Handshaken(c, done)
    ensures Greeted(c, done)
  {
  }

  /** Every heartbeat the client went past was answered by PONG. */
  ghost predicate Ponged(pc: Pc, done: seq<Exchange>) {
    forall i | 0 <= i < |done| - (if pc == Threw then 1 else 0) && done[i].leg == Heartbeat ::
      done[i].reply.header.frameType == 0x0006
  }

  lemma ExpectedPongs(c: Config, pc: Pc, sent: seq<WireFrame>, done: seq<Exchange>)
    requires Order(c, pc, sent, done)
    ensures Ponged(pc, done)
  {
  }

  /** What every state of every run satisfies: each finished call got the engine's reply to its own request,
      at most one frame is outstanding, between calls nothing is left anywhere, a client that got past the
      handshake saw exactly the expected frames in the expected order, and a call is rejected only on a
      failed stream, where none is left pending. */
  ghost predicate Safe(c: Config, s: System) {
    && Matched(c, s.sent, s.completed)
    && |s.completed| <= |s.sent| <= |s.completed| + 1
    && (!s.pc.Sent? && !s.pc.Waiting? && !s.pc.Lost? ==>
          s.upstream == [] && s.downstream == [] && s.transport.buffer == [] && s.transport.ready == [])
    && (PastHandshake(s.pc) ==> Greeted(c, s.completed)) && Ponged(s.pc, s.completed)
    && (s.pc.Lost? ==> s.transport.failure.Some?)
    && (s.transport.failure.Some? ==> NonePending(s.transport.outcomes))
  }

  lemma SafeCounts(s: System)
    requires Calls(s)
    ensures |s.completed| <= |s.sent| <= |s.completed| + 1 && (s.pc.Lost? ==> s.transport.failure.Some?)
    ensures s.transport.failure.Some? ==> NonePending(s.transport.outcomes)
  {
    if s.transport.failure.Some? {
      FailureEndsWaits(s);
    }
  }

  lemma SafeOrder(c: Config, pc: Pc, sent: seq<WireFrame>, done: seq<Exchange>)
    requires Order(c, pc, sent, done)
    ensures (PastHandshake(pc) ==> Greeted(c, done)) && Ponged(pc, done)
  {
    ExpectedPongs(c, pc, sent, done);
    if PastHandshake(pc) {
      HandshakeFirst(c, pc, sent, done);
      HandshakenIsGreeted(c, done);
    }
  }

  lemma InvIsSafe(c: Config, s: System)
    requires ValidConfig(c) && Inv(c, s)
    ensures Safe(c, s)
  {
    SafeCounts(s);
    SafeOrder(c, s.pc, s.sent, s.completed);
    if !s.pc.Sent? && !s.pc.Waiting? && !s.pc.Lost? {
      QuietBetweenCalls(c, s);
    }
  }

  /** Every run is safe, stream failures included. */
  lemma EveryRun(c: Config, actions: seq<Action>)
    requires ValidConfig(c)
    ensures Safe(c, Run(c, actions))
  {
    RunKeeps(c, actions);
    InvIsSafe(c, Run(c, actions));
  }

  // ---- no call is stuck ---------------------------------------------------------------------------

  lemma {:induction false} AllFramesParse(frames: seq<WireFrame>, b: seq<byte>)
    requires (forall f | f in frames :: ValidFrame(f)) && b == Link.Concat(frames)
    ensures Link.Parse(b).frames == frames
  {
    Link.ParseFrames(frames, []);
    Link.NothingAfter(b);
    Link.NothingAfter(frames);
    assert Link.Parse([]) == Link.Parsed([], [], None);
  }

  /** Once everything sent has moved up, the engine has the requests. */
  lemma UpDelivers(c: Config, s: System)
    requires Pipes(c, s)
    ensures Link.Parse(ShiftUp(s, |s.upstream|).engineGot).frames == s.sent
  {
    assert s.upstream[..|s.upstream|] == s.upstream;
    AllFramesParse(s.sent, s.engineGot + s.upstream);
  }

  /** Once the engine has them all and at most one is unanswered, one answer suffices. */
  lemma AnswerCatchesUp(c: Config, s: System)
    requires Link.Parse(s.engineGot).frames == s.sent && s.answered <= |s.sent| <= s.answered + 1
    ensures Answer(c, s).answered == |s.sent|
  {
  }

  /** Once everything answered has moved down, the client has the replies. */
  lemma DownDelivers(c: Config, s: System)
    requires ValidConfig(c) && Pipes(c, s) && s.answered == |s.sent| && Link.WaitersKnown(s.transport)
    ensures |Link.Parse(ShiftDown(s, |s.downstream|).clientGot).frames| == |s.sent|
  {
    var replies := Replies(c, s.sent[..s.answered]);
    assert s.downstream[..|s.downstream|] == s.downstream;
    RepliesValid(c, s.sent[..s.answered]);
    AllFramesParse(replies, s.clientGot + s.downstream);
  }

  lemma AnsweredEnough(c: Config, s: System)
    requires ValidConfig(c) && Pipes(c, s) && Calls(s) && s.pc.Waiting?
    ensures s.answered <= |s.sent| <= s.answered + 1
  {
    Prefixes(c, s);
  }

  /** The reply has arrived, so the awaiting call resumes. */
  lemma ReplyResumes(c: Config, s: System)
    requires Calls(s) && s.pc.Waiting? && s.transport.failure == None
    requires |Link.Parse(s.clientGot).frames| == |s.sent|
    ensures |Step(c, s, Resume).completed| == |s.completed| + 1
  {
    Link.LeadingOutcomes(s.transport, Link.Parse(s.clientGot).frames);
    ResumeCompletes(c, s);
  }

  /** Still inside the same call. */
  ghost predicate SameCall(s: System, r: System) {
    r.pc == s.pc && r.sent == s.sent && r.completed == s.completed && r.transport.failure == s.transport.failure
  }

  lemma UpStep(c: Config, s: System)
    requires ValidConfig(c) && Inv(c, s)
    ensures var r := ShiftUp(s, |s.upstream|);
            Inv(c, r) && SameCall(s, r) && Link.Parse(r.engineGot).frames == r.sent
  {
    UpDelivers(c, s);
    MoveUpKeeps(c, s, |s.upstream|);
  }

  lemma AnswerStep(c: Config, s: System)
    requires ValidConfig(c) && Inv(c, s) && s.pc.Waiting? && Link.Parse(s.engineGot).frames == s.sent
    ensures var r := Answer(c, s); Inv(c, r) && SameCall(s, r) && r.answered == |r.sent|
  {
    AnsweredEnough(c, s);
    AnswerCatchesUp(c, s);
    AnswerKeeps(c, s);
  }

  lemma DownStep(c: Config, s: System)
    requires ValidConfig(c) && Inv(c, s) && s.answered == |s.sent|
    ensures var r := ShiftDown(s, |s.downstream|);
            Inv(c, r) && SameCall(s, r) && |Link.Parse(r.clientGot).frames| == |r.sent|
  {
    DownDelivers(c, s);
    MoveDownKeeps(c, s, |s.downstream|);
    TransportReceives(s.transport, s.clientGot, s.downstream[..|s.downstream|], |s.completed|);
  }

  lemma WaitingFinishes(c: Config, s: System)
    requires ValidConfig(c) && Inv(c, s) && s.pc.Waiting? && s.transport.failure == None
    ensures var s1 := ShiftUp(s, |s.upstream|);
            var s2 := Answer(c, s1);
            && Link.WaitersKnown(s2.transport)
            && |Step(c, ShiftDown(s2, |s2.downstream|), Resume).completed| == |s.completed| + 1
  {
    var s1 := ShiftUp(s, |s.upstream|);
    UpStep(c, s);
    AnswerStep(c, s1);
    var s2 := Answer(c, s1);
    DownStep(c, s2);
    ReplyResumes(c, ShiftDown(s2, |s2.downstream|));
  }

  lemma RunSnoc(c: Config, actions: seq<Action>, a: Action)
    ensures Run(c, actions + [a]) == Step(c, Run(c, actions), a)
  {
    assert (actions + [a])[..|actions|] == actions;
  }

  lemma RunUp(c: Config, actions: seq<Action>)
    ensures var s := Run(c, actions); Run(c, actions + [MoveUp(|s.upstream|)]) == ShiftUp(s, |s.upstream|)
  {
    RunSnoc(c, actions, MoveUp(|Run(c, actions).upstream|));
  }

  lemma RunDown(c: Config, actions: seq<Action>)
    ensures var s := Run(c, actions); Run(c, actions + [MoveDown(|s.downstream|)]) == ShiftDown(s, |s.downstream|)
  {
    RunSnoc(c, actions, MoveDown(|Run(c, actions).downstream|));
  }

  lemma RunAnswer(c: Config, actions: seq<Action>)
    ensures Run(c, actions + [EngineAnswers]) == Answer(c, Run(c, actions))
  {
    RunSnoc(c, actions, EngineAnswers);
  }

  /** No call is ever stuck: from every state of every run in which one awaits its reply on a stream that
      has not failed, the pipes and the engine can move so that it finishes. */
  lemma EveryCallCanFinish(c: Config, actions: seq<Action>) returns (more: seq<Action>)
    requires ValidConfig(c) && Run(c, actions).pc.Waiting? && Run(c, actions).transport.failure == None
    ensures |Run(c, actions + more).completed| == |Run(c, actions).completed| + 1
  {
    RunKeeps(c, actions);
    WaitingFinishes(c, Run(c, actions));
    more := Round(c, actions);
  }

  lemma Round(c: Config, actions: seq<Action>) returns (more: seq<Action>)
    ensures var s2 := Answer(c, ShiftUp(Run(c, actions), |Run(c, actions).upstream|));
            Link.WaitersKnown(s2.transport) &&
            Run(c, actions + more) == Step(c, ShiftDown(s2, |s2.downstream|), Resume)
  {
    var up := MoveUp(|Run(c, actions).upstream|);
    RunUpAnswer(c, actions, up);
    var answered := actions + [up] + [EngineAnswers];
    var down := MoveDown(|Run(c, answered).downstream|);
    RunDown(c, answered);
    RunSnoc(c, answered + [down], Resume);
    more := [up, EngineAnswers, down, Resume];
    FourActions(actions, up, EngineAnswers, down, Resume);
  }

  lemma RunUpAnswer(c: Config, actions: seq<Action>, up: Action)
    requires up == MoveUp(|Run(c, actions).upstream|)
    ensures Run(c, actions + [up] + [EngineAnswers])
            == Answer(c, ShiftUp(Run(c, actions), |Run(c, actions).upstream|))
  {
    RunUp(c, actions);
    RunAnswer(c, actions + [up]);
  }

  lemma FourActions(actions: seq<Action>, a: Action, b: Action, d: Action, e: Action)
    ensures actions + [a, b, d, e] == actions + [a] + [b] + [d] + [e]
  {
  }
}
