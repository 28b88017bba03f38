/**
 * What a client says over a connection, in the words of its callers: the frames sent are the handshake's
 * and then those of the accepted calls, in call order; and a connection opens exactly when the engine
 * answers the handshake as expected.
 */
module Dialogue {
  import opened Bytes
  import opened Frame
  import opened Protocol
  import Link = Transport

  // ---- calls --------------------------------------------------------------------------------------

  /** A call and the frame it asks to send. */
  datatype Ask = Ask(leg: Leg, frame: WireFrame)

  /** The call an action makes: only between calls, on a stream that has not failed, and with a frame the
      header can carry. A dispatch sends its type and payload on stream 0 with END_STREAM at version 1.0, a
      heartbeat an empty PING. */
  ghost function AskedBy(s: System, a: Action): (asks: seq<Ask>) {
    if s.pc != Idle || s.transport.failure.Some? then []
    else
      match a
      case CallDispatch(t, payload) =>
        if t < 0x1_0000 && |payload| <= 16 * 1024 * 1024
        then [Ask(Dispatch, WireFrame(Header(0x0100, t, 0, 1, |payload|), payload))] else []
      case CallHeartbeat => [Ask(Heartbeat, WireFrame(Header(0x0100, 0x0005, 0, 1, 0), []))]
      case _ => []
  }

  /** The accepted calls of a run, in order. */
  ghost function Asked(c: Config, actions: seq<Action>): (asks: seq<Ask>) {
    if actions == [] then []
    else
      var before, a := actions[..|actions| - 1], actions[|actions| - 1];
      Asked(c, before) + AskedBy(Run(c, before), a)
  }

  /** How many frames the handshake takes. */
  function Greetings(c: Config): (k: nat) {
    if c.agentPlane then 2 else 1
  }

  predicate InCall(pc: Pc) {
    pc.Sent? || pc.Waiting?
  }

  /** After `k` handshake frames the frames sent are those asked for, and each finished exchange, and the
      call in progress, is of the kind asked for. */
  ghost predicate Tracks(k: nat, pc: Pc, sent: seq<WireFrame>, done: seq<Exchange>, asked: seq<Ask>) {
    && (|sent| == k + |asked| || (asked == [] && |sent| < k))
    && (forall i | 0 <= i < |asked| :: sent[k + i] == asked[i].frame)
    && (forall i | 0 <= i < |asked| && k + i < |done| :: done[k + i].leg == asked[i].leg)
    && (InCall(pc) && asked != [] ==> pc.leg == asked[|asked| - 1].leg)
  }

  lemma TracksAsk(k: nat, sent: seq<WireFrame>, done: seq<Exchange>, asked: seq<Ask>, ask: Ask)
    requires Tracks(k, Idle, sent, done, asked) && k <= |sent| == |done|
    ensures Tracks(k, Sent(ask.leg), sent + [ask.frame], done, asked + [ask])
  {
  }

  lemma TracksGreeting(k: nat, pc: Pc, sent: seq<WireFrame>, done: seq<Exchange>, asked: seq<Ask>, leg: Leg,
                       f: WireFrame)
    requires Tracks(k, pc, sent, done, asked) && |sent| < k
    ensures asked == [] && Tracks(k, Sent(leg), sent + [f], done, asked)
  {
  }

  lemma TracksReply(k: nat, pc: Pc, sent: seq<WireFrame>, done: seq<Exchange>, asked: seq<Ask>, e: Exchange, pc': Pc)
    requires Tracks(k, pc, sent, done, asked) && pc.Waiting? && |sent| == |done| + 1 && e.leg == pc.leg && !InCall(pc')
    ensures Tracks(k, pc', sent, done + [e], asked)
  {
  }

  // ---- every step keeps track ---------------------------------------------------------------------

  ghost predicate TracksCalls(c: Config, s: System, asked: seq<Ask>) {
    Tracks(Greetings(c), s.pc, s.sent, s.completed, asked)
  }

  /** What the invariant says about how many frames were sent. */
  ghost predicate Counted(c: Config, s: System) {
    && (s.pc == Begin ==> s.sent == []) && (s.pc == Waiting(Hello) ==> |s.sent| == 1)
    && (s.pc == Idle ==> Greetings(c) <= |s.sent| == |s.completed|)
    && (s.pc.Waiting? ==> |s.sent| == |s.completed| + 1)
  }

  lemma InvCounts(c: Config, s: System)
    requires Inv(c, s)
    ensures Counted(c, s) && Link.WaitersKnown(s.transport)
  {
  }

  /** A call that is not accepted sends nothing, and at most finds the stream failed. */
  lemma RefusedCall(c: Config, s: System, a: Action)
    requires Link.WaitersKnown(s.transport) && (a.CallDispatch? || a.CallHeartbeat?) && AskedBy(s, a) == []
    ensures var r := Step(c, s, a);
            r.sent == s.sent && r.completed == s.completed && (r.pc == s.pc || r.pc.Lost?)
  {
  }

  /** A call between calls on an unfailed stream puts exactly its frame on the pipe. */
  lemma CallSends(c: Config, s: System, a: Action)
    requires Link.WaitersKnown(s.transport) && AskedBy(s, a) != []
    ensures var r, ask := Step(c, s, a), AskedBy(s, a)[0];
            && AskedBy(s, a) == [ask] && s.pc == Idle && r.pc == Sent(ask.leg) && r.completed == s.completed
            && r.sent == s.sent + [ask.frame] && r.upstream == s.upstream + FrameBytes(ask.frame)
  {
  }

  lemma AskTracks(c: Config, s: System, a: Action, asked: seq<Ask>)
    requires Counted(c, s) && Link.WaitersKnown(s.transport) && TracksCalls(c, s, asked)
    requires a.CallDispatch? || a.CallHeartbeat?
    ensures TracksCalls(c, Step(c, s, a), asked + AskedBy(s, a))
  {
    if AskedBy(s, a) == [] {
      Link.NothingAfter(asked);
      RefusedCall(c, s, a);
    } else {
      CallSends(c, s, a);
      TracksAsk(Greetings(c), s.sent, s.completed, asked, AskedBy(s, a)[0]);
    }
  }

  lemma BeginTracks(c: Config, s: System, asked: seq<Ask>)
    requires Counted(c, s) && Link.WaitersKnown(s.transport) && TracksCalls(c, s, asked)
    ensures TracksCalls(c, Step(c, s, BeginHandshake), asked)
  {
    if s.pc == Begin && s.transport.failure.None? {
      TracksGreeting(Greetings(c), s.pc, s.sent, s.completed, asked, Hello, HelloFrame(c));
    }
  }

  lemma ReplyTracks(c: Config, s: System, reply: WireFrame, asked: seq<Ask>)
    requires Counted(c, s) && Link.WaitersKnown(s.transport) && TracksCalls(c, s, asked) && s.pc.Waiting?
    ensures s.sent != [] && TracksCalls(c, AfterReply(c, s, s.pc.leg, reply), asked)
  {
    var k, e := Greetings(c), Exchange(s.pc.leg, s.sent[|s.sent| - 1], reply);
    var r := AfterReply(c, s, s.pc.leg, reply);
    if InCall(r.pc) {
      TracksReply(k, s.pc, s.sent, s.completed, asked, e, Threw);
      TracksGreeting(k, Threw, s.sent, s.completed + [e], asked, Authenticate, r.sent[1]);
    } else {
      TracksReply(k, s.pc, s.sent, s.completed, asked, e, r.pc);
    }
  }

  lemma NoReply(c: Config, s: System)
    requires Link.WaitersKnown(s.transport)
    requires !(s.pc.Waiting? && |s.completed| < |s.transport.outcomes| && s.transport.outcomes[|s.completed|].Got?)
    ensures var r := Step(c, s, Resume);
            r.sent == s.sent && r.completed == s.completed && (r.pc == s.pc || r.pc.Lost?)
  {
  }

  lemma ResumeTracks(c: Config, s: System, asked: seq<Ask>)
    requires Counted(c, s) && Link.WaitersKnown(s.transport) && TracksCalls(c, s, asked)
    ensures TracksCalls(c, Step(c, s, Resume), asked)
  {
    if s.pc.Waiting? && |s.completed| < |s.transport.outcomes| && s.transport.outcomes[|s.completed|].Got? {
      ReplyTracks(c, s, s.transport.outcomes[|s.completed|].frame, asked);
    } else {
      NoReply(c, s);
    }
  }

  lemma OtherTracks(c: Config, s: System, a: Action, asked: seq<Ask>)
    requires Link.WaitersKnown(s.transport) && TracksCalls(c, s, asked)
    requires !a.CallDispatch? && !a.CallHeartbeat? && !a.BeginHandshake? && !a.Resume?
    ensures TracksCalls(c, Step(c, s, a), asked)
  {
  }

  lemma StepTracks(c: Config, s: System, a: Action, asked: seq<Ask>)
    requires Counted(c, s) && Link.WaitersKnown(s.transport) && TracksCalls(c, s, asked)
    ensures TracksCalls(c, Step(c, s, a), asked + AskedBy(s, a))
  {
    if a.CallDispatch? || a.CallHeartbeat? {
      AskTracks(c, s, a, asked);
    } else {
      Link.NothingAfter(asked);
      if a.BeginHandshake? {
        BeginTracks(c, s, asked);
      } else if a.Resume? {
        ResumeTracks(c, s, asked);
      } else {
        OtherTracks(c, s, a, asked);
      }
    }
  }

  /** After the handshake's frames, those of the calls asked for are sent, in order, and exchanged under
      their own kind of call. */
  ghost predicate Speaks(c: Config, s: System, asked: seq<Ask>) {
    var k := if c.agentPlane then 2 else 1;
    && (|s.sent| == k + |asked| || (asked == [] && |s.sent| < k))
    && (forall i | 0 <= i < |asked| :: s.sent[k + i] == asked[i].frame)
    && (forall i | 0 <= i < |asked| && k + i < |s.completed| ::
          s.completed[k + i].leg == asked[i].leg && s.completed[k + i].request == asked[i].frame)
  }

  /** In every run the frames sent after the handshake are exactly those of the accepted calls, in call
      order, and the exchanges finish in that order, each under its own kind of call. */
  lemma RequestsAreCalls(c: Config, actions: seq<Action>)
    requires ValidConfig(c)
    ensures Speaks(c, Run(c, actions), Asked(c, actions))
  {
    AllTracked(c, actions);
    RunMatched(c, actions);
    TracksSpeak(c, Run(c, actions), Asked(c, actions));
  }

  lemma RunMatched(c: Config, actions: seq<Action>)
    requires ValidConfig(c)
    ensures Matched(c, Run(c, actions).sent, Run(c, actions).completed)
  {
    RunKeeps(c, actions);
  }

  lemma TracksSpeak(c: Config, s: System, asked: seq<Ask>)
    requires TracksCalls(c, s, asked) && Matched(c, s.sent, s.completed)
    ensures Speaks(c, s, asked)
  {
  }

  lemma {:induction false} AllTracked(c: Config, actions: seq<Action>)
    requires ValidConfig(c)
    ensures TracksCalls(c, Run(c, actions), Asked(c, actions))
  {
    if actions != [] {
      var before := actions[..|actions| - 1];
      AllTracked(c, before);
      RunKeeps(c, before);
      InvCounts(c, Run(c, before));
      StepTracks(c, Run(c, before), actions[|actions| - 1], Asked(c, before));
    }
  }

  // ---- how a call goes on -------------------------------------------------------------------------

  /** Where the client is after a reply: a dispatch takes any, a heartbeat needs PONG, the handshake READY,
      and on the agent plane NEGOTIATE first, with a profile that decodes. */
  ghost predicate GoesOn(c: Config, leg: Leg, reply: WireFrame, pc: Pc) {
    var t := reply.header.frameType;
    match leg
    case Dispatch => pc == Idle
    case Heartbeat => pc == if t == 0x0006 then Idle else Threw
    case Authenticate => pc == if t == 0x0004 then Idle else Threw
    case Hello =>
      pc == if !c.agentPlane then (if t == 0x0004 then Idle else Threw)
            else if t == 0x0002 && c.profile(reply.payload).Some? then Sent(Authenticate) else Threw
  }

  lemma ReplyGoesOn(c: Config, s: System, reply: WireFrame)
    requires s.sent != [] && s.pc.Waiting? && s.transport.failure == None
    ensures GoesOn(c, s.pc.leg, reply, AfterReply(c, s, s.pc.leg, reply).pc)
    ensures AfterReply(c, s, s.pc.leg, reply).transport == s.transport
  {
  }

  lemma ResumeGoesOn(c: Config, s: System)
    requires ValidConfig(c) && Inv(c, s) && s.pc.Waiting? && s.transport.failure == None
    requires |Step(c, s, Resume).completed| == |s.completed| + 1
    ensures var r := Step(c, s, Resume);
            && r.completed == s.completed + [Exchange(s.pc.leg, s.sent[|s.sent| - 1], c.engine(s.sent))]
            && GoesOn(c, s.pc.leg, c.engine(s.sent), r.pc) && r.transport.failure == None
  {
    ReplyIsOwn(c, s);
    InvCounts(c, s);
    ResumeCompletes(c, s);
    var o := s.transport.outcomes[|s.completed|];
    if o.Got? {
      ReplyGoesOn(c, s, o.frame);
    }
  }

  /** Every awaiting call on an unfailed stream can finish: with the engine's reply to its own request, and
      the client goes on as that reply says. */
  lemma CallCanGoOn(c: Config, actions: seq<Action>) returns (more: seq<Action>)
    requires ValidConfig(c) && Run(c, actions).pc.Waiting? && Run(c, actions).transport.failure == None
    ensures Finishes(c, Run(c, actions), Run(c, actions + more))
  {
    RunKeeps(c, actions);
    var s := Moves(c, Run(c, actions));
    LastMove(c, s);
    more := Round(c, actions);
    SameFinish(c, Run(c, actions), s, Run(c, actions + more));
  }

  lemma SameFinish(c: Config, s: System, s': System, r: System)
    requires SameCall(s, s') && Finishes(c, s', r)
    ensures Finishes(c, s, r)
  {
  }

  /** The exchange `s` awaits is finished in `r`, which goes on from it. */
  ghost predicate Finishes(c: Config, s: System, r: System) {
    && s.sent != [] && s.pc.Waiting?
    && r.completed == s.completed + [Exchange(s.pc.leg, s.sent[|s.sent| - 1], c.engine(s.sent))]
    && GoesOn(c, s.pc.leg, c.engine(s.sent), r.pc) && r.transport.failure == None
  }

  lemma LastMove(c: Config, s: System)
    requires ValidConfig(c) && Inv(c, s) && s.pc.Waiting? && s.transport.failure == None
    requires |Link.Parse(s.clientGot).frames| == |s.sent|
    ensures Finishes(c, s, Step(c, s, Resume))
  {
    ReplyResumes(c, s);
    ResumeGoesOn(c, s);
    InvCounts(c, s);
  }

  /** Everything in flight moves, and the engine answers. */
  lemma Moves(c: Config, s: System) returns (r: System)
    requires ValidConfig(c) && Inv(c, s) && s.pc.Waiting?
    ensures var s2 := Answer(c, ShiftUp(s, |s.upstream|));
            Link.WaitersKnown(s2.transport) && r == ShiftDown(s2, |s2.downstream|)
    ensures Inv(c, r) && SameCall(s, r) && |Link.Parse(r.clientGot).frames| == |r.sent|
  {
    var s1 := ShiftUp(s, |s.upstream|);
    UpStep(c, s);
    AnswerStep(c, s1);
    var s2 := Answer(c, s1);
    DownStep(c, s2);
    r := ShiftDown(s2, |s2.downstream|);
  }

  // ---- a whole call -------------------------------------------------------------------------------

  lemma RecvStep(c: Config, actions: seq<Action>)
    requires Run(c, actions).pc.Sent?
    ensures var s, r := Run(c, actions), Run(c, actions + [CallRecv]);
            && r.pc == Waiting(s.pc.leg) && r.sent == s.sent && r.completed == s.completed
            && r.transport.failure == s.transport.failure
  {
    RunSnoc(c, actions, CallRecv);
  }

  /** From every state between calls on an unfailed stream, every dispatch or heartbeat that fits a frame
      can be made and finishes: its request is that frame, its reply the engine's answer to it. */
  lemma CallCanBeMade(c: Config, actions: seq<Action>, a: Action) returns (more: seq<Action>)
    requires ValidConfig(c) && AskedBy(Run(c, actions), a) != []
    ensures var s, r, ask := Run(c, actions), Run(c, actions + [a] + more), AskedBy(Run(c, actions), a)[0];
            var reply := c.engine(s.sent + [ask.frame]);
            && r.completed == s.completed + [Exchange(ask.leg, ask.frame, reply)]
            && r.pc == if ask.leg == Heartbeat && reply.header.frameType != 0x0006 then Threw else Idle
  {
    var s, ask := Run(c, actions), AskedBy(Run(c, actions), a)[0];
    RunSnoc(c, actions, a);
    CallSends(c, s, a);
    CallKeepsStream(c, s, a);
    var called := actions + [a];
    RecvStep(c, called);
    var rest := CallCanGoOn(c, called + [CallRecv]);
    more := [CallRecv] + rest;
    Concat3(called, [CallRecv], rest);
    assert (s.sent + [ask.frame])[|s.sent|] == ask.frame;
  }

  lemma CallKeepsStream(c: Config, s: System, a: Action)
    requires Link.WaitersKnown(s.transport) && AskedBy(s, a) != []
    ensures Step(c, s, a).transport == s.transport && s.transport.failure == None
    ensures AskedBy(s, a)[0].leg in {Dispatch, Heartbeat}
  {
  }

  // ---- opening ------------------------------------------------------------------------------------

  /** The engine's answers to the handshake frames are the expected ones. */
  ghost predicate Welcomes(c: Config) {
    var hello := WireFrame(Header(c.major % 256 * 256 + c.maxMinor % 256, 0x0001, 0, 1, |c.hello|), c.hello);
    var first := c.engine([hello]);
    if !c.agentPlane then first.header.frameType == 0x0004
    else
      && first.header.frameType == 0x0002
      && match c.profile(first.payload)
         case None => false
         case Some((major, minor)) =>
           var authenticate := WireFrame(Header(major % 256 * 256 + minor % 256, 0x0003, 0, 1, 0), []);
           c.engine([hello, authenticate]).header.frameType == 0x0004
  }

  lemma GreetedIsWelcome(c: Config, sent: seq<WireFrame>, done: seq<Exchange>)
    requires Matched(c, sent, done) && Greeted(c, done)
    ensures Welcomes(c)
  {
    assert sent[..1] == [sent[0]];
    assert c.agentPlane ==> sent[..2] == [sent[0], sent[1]];
  }

  lemma Greets(c: Config)
    ensures var s := Run(c, [BeginHandshake, CallRecv]);
            s.pc == Waiting(Hello) && s.sent == [HelloFrame(c)] && s.completed == [] && s.transport.failure == None
  {
    RunSnoc(c, [], BeginHandshake);
    RunSnoc(c, [BeginHandshake], CallRecv);
    assert [] + [BeginHandshake] == [BeginHandshake];
    assert [BeginHandshake] + [CallRecv] == [BeginHandshake, CallRecv];
  }

  /** After NEGOTIATE the client has sent AUTHENTICATE at the negotiated version. */
  lemma Authenticates(c: Config, actions: seq<Action>)
    requires ValidConfig(c) && Run(c, actions).pc == Sent(Authenticate)
    ensures var s := Run(c, actions);
            var profile := c.profile(c.engine([HelloFrame(c)]).payload);
            && c.agentPlane && profile.Some? && s.sent == [HelloFrame(c), AuthenticateFrame(profile.value)]
  {
    RunKeeps(c, actions);
    AuthenticateSent(c, Run(c, actions));
  }

  lemma AuthenticateSent(c: Config, s: System)
    requires Matched(c, s.sent, s.completed) && HelloDone(c, s.sent, s.completed)
    ensures var profile := c.profile(c.engine([HelloFrame(c)]).payload);
            profile.Some? && s.sent == [HelloFrame(c), AuthenticateFrame(profile.value)]
  {
    assert s.sent[..1] == [s.sent[0]];
  }

  lemma HelloAnswered(c: Config) returns (actions: seq<Action>)
    requires ValidConfig(c)
    ensures GoesOn(c, Hello, c.engine([HelloFrame(c)]), Run(c, actions).pc)
    ensures Run(c, actions).transport.failure == None
  {
    Greets(c);
    var more := CallCanGoOn(c, [BeginHandshake, CallRecv]);
    actions := [BeginHandshake, CallRecv] + more;
  }

  lemma AuthenticateAnswered(c: Config, actions: seq<Action>) returns (more: seq<Action>)
    requires ValidConfig(c) && Run(c, actions).pc == Sent(Authenticate) && Run(c, actions).transport.failure == None
    ensures GoesOn(c, Authenticate, c.engine(Run(c, actions).sent), Run(c, actions + more).pc)
  {
    RecvStep(c, actions);
    var rest := CallCanGoOn(c, actions + [CallRecv]);
    more := [CallRecv] + rest;
    Concat3(actions, [CallRecv], rest);
  }

  lemma WelcomeGoesOn(c: Config, pc: Pc)
    requires Welcomes(c) && GoesOn(c, Hello, c.engine([HelloFrame(c)]), pc)
    ensures pc == if c.agentPlane then Sent(Authenticate) else Idle
  {
  }

  lemma WelcomeReady(c: Config, sent: seq<WireFrame>, pc: Pc)
    requires Welcomes(c) && c.agentPlane && GoesOn(c, Authenticate, c.engine(sent), pc)
    requires var profile := c.profile(c.engine([HelloFrame(c)]).payload);
             profile.Some? && sent == [HelloFrame(c), AuthenticateFrame(profile.value)]
    ensures pc == Idle
  {
  }

  lemma Opens(c: Config) returns (actions: seq<Action>)
    requires ValidConfig(c) && Welcomes(c)
    ensures Run(c, actions).pc == Idle
  {
    actions := HelloAnswered(c);
    WelcomeGoesOn(c, Run(c, actions).pc);
    if c.agentPlane {
      Authenticates(c, actions);
      var more := AuthenticateAnswered(c, actions);
      WelcomeReady(c, Run(c, actions).sent, Run(c, actions + more).pc);
      actions := actions + more;
    }
  }

  /** A connection can open exactly when the engine answers HELLO with READY or, on the agent plane, with a
      NEGOTIATE that decodes and then AUTHENTICATE with READY. */
  lemma OpensExactly(c: Config)
    requires ValidConfig(c)
    ensures (exists actions :: Run(c, actions).pc == Idle) <==> Welcomes(c)
  {
    if actions :| Run(c, actions).pc == Idle {
      EveryRun(c, actions);
      GreetedIsWelcome(c, Run(c, actions).sent, Run(c, actions).completed);
    }
    if Welcomes(c) {
      var actions := Opens(c);
    }
  }

  // ---- failures -----------------------------------------------------------------------------------

  /** The cause of the first failure of the stream. */
  function FirstFailure(actions: seq<Action>): (r: Option<Link.Cause>) {
    if actions == [] then None
    else
      var before, last := FirstFailure(actions[..|actions| - 1]), actions[|actions| - 1];
      if before.None? && last.StreamFails? then Some(last.cause) else before
  }

  /** Every rejection, and a lost call, names the cause the stream failed with. */
  ghost predicate Blames(s: System) {
    Link.OneCause(s.transport) && (s.pc.Lost? ==> s.transport.failure == Some(s.pc.cause))
  }

  function FailureAfter(s: System, a: Action): (r: Option<Link.Cause>) {
    if s.transport.failure.None? && a.StreamFails? then Some(a.cause) else s.transport.failure
  }

  lemma ReplyBlames(c: Config, s: System, leg: Leg, reply: WireFrame)
    requires s.sent != [] && Blames(s) && s.pc.Waiting?
    ensures Blames(AfterReply(c, s, leg, reply))
    ensures AfterReply(c, s, leg, reply).transport == s.transport
  {
  }

  lemma ResumeBlames(c: Config, s: System)
    requires Link.WaitersKnown(s.transport) && Blames(s)
    ensures Blames(Step(c, s, Resume)) && Step(c, s, Resume).transport == s.transport
  {
    var k := |s.completed|;
    if s.pc.Waiting? && s.sent != [] && k < |s.transport.outcomes| && s.transport.outcomes[k].Got? {
      ReplyBlames(c, s, s.pc.leg, s.transport.outcomes[k].frame);
    }
  }

  lemma PipeBlames(c: Config, s: System, a: Action)
    requires Link.WaitersKnown(s.transport) && Blames(s) && (a.MoveDown? || a.CallRecv? || a.StreamFails?)
    ensures Blames(Step(c, s, a)) && Step(c, s, a).transport.failure == FailureAfter(s, a)
  {
    match a
    case MoveDown(n) => Link.StepOneCause(s.transport, Link.Data(s.downstream[..Min(n, |s.downstream|)]));
    case CallRecv => Link.StepOneCause(s.transport, Link.Call);
    case StreamFails(cause) => Link.StepOneCause(s.transport, Link.Failed(cause));
  }

  lemma StepBlames(c: Config, s: System, a: Action)
    requires Link.WaitersKnown(s.transport) && Blames(s)
    ensures Blames(Step(c, s, a)) && Step(c, s, a).transport.failure == FailureAfter(s, a)
  {
    if a.Resume? {
      ResumeBlames(c, s);
    } else if a.MoveDown? || a.CallRecv? || a.StreamFails? {
      PipeBlames(c, s, a);
    }
  }

  /** In every run a lost call, and every rejected receive, carries the cause of the first failure. */
  lemma {:induction false} LostNamesFirstFailure(c: Config, actions: seq<Action>)
    ensures var s := Run(c, actions);
            && s.transport.failure == FirstFailure(actions)
            && (s.pc.Lost? ==> FirstFailure(actions) == Some(s.pc.cause))
            && Link.OneCause(s.transport)
  {
    if actions != [] {
      var before := actions[..|actions| - 1];
      LostNamesFirstFailure(c, before);
      StepBlames(c, Run(c, before), actions[|actions| - 1]);
    }
  }
}
