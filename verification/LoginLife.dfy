/**
 * How long a login and a session live: the two stores of the login router are caches fed by its actions,
 * so the law of the cache says exactly which polls find their login and which cookies their identity.
 */
module LoginLife {
  import opened Bytes
  import opened Cache
  import opened Login

  // ---- stores whose keys are never reused ---------------------------------------------------------

  /** No versions, no deletion by prefix, and reads by a clock that has reached `now`. */
  predicate PlainOp(op: Op<string>, now: int) {
    && (op.Set? ==> op.version == "") && (op.Get? ==> op.version == "" && op.at <= now)
    && !op.Clear? && !op.DeletePrefix?
  }

  ghost predicate NewKeys(ops: seq<Op<string>>) {
    forall i, j | 0 <= i < j < |ops| && ops[i].Set? && ops[j].Set? :: ops[i].key != ops[j].key
  }

  ghost predicate Orderly(ops: seq<Op<string>>, now: int) {
    (forall i | 0 <= i < |ops| :: PlainOp(ops[i], now)) && NewKeys(ops)
  }

  /** `ops[i]` stored the value under the key, which then neither expired, nor was deleted, nor was crowded
      out by sets that found as many newer entries as there is room for. */
  ghost predicate LivesSince(max: nat, ops: seq<Op<string>>, i: int, key: string, value: string, now: int) {
    && 0 <= i < |ops| && ops[i].Set? && ops[i].key == key && ops[i].value == value && now < ops[i].at
    && NeverDeleted(ops, i, key) && NeverFilled(max, ops, i, key)
  }

  ghost predicate NeverDeleted(ops: seq<Op<string>>, i: int, key: string)
    requires 0 <= i
  {
    forall j | i < j < |ops| :: ops[j] != Delete(key)
  }

  ghost predicate NeverFilled(max: nat, ops: seq<Op<string>>, i: int, key: string)
    requires 0 <= i
  {
    forall j | i < j < |ops| && ops[j].Set? :: Rank(Live(0, ops[..j]), key) < Room(max)
  }

  /** A new key is not among the live ones. */
  lemma NewKeyIsNotLive(ops: seq<Op<string>>, now: int, j: nat)
    requires Orderly(ops, now) && j < |ops| && ops[j].Set?
    ensures Remove(Live(0, ops[..j]), ops[j].key) == Live(0, ops[..j])
  {
    var live := Live(0, ops[..j]);
    forall e | e in live ensures e.key != ops[j].key {
      var k := LiveIsStored(0, ops[..j], e);
      assert ops[k].Set?;
    }
    KeepAll(live, OtherThan(ops[j].key));
  }

  lemma CrowdedAlike(max: nat, ops: seq<Op<string>>, now: int, i: nat, e: Entry<string>)
    requires Orderly(ops, now) && i < |ops|
    ensures NeverCrowded(0, Room(max), ops, i, e)
            <==> NeverFilled(max, ops, i, e.key)
  {
    forall j | i < j < |ops| && ops[j].Set?
      ensures Rank(Remove(Live(0, ops[..j]), ops[j].key), e.key) == Rank(Live(0, ops[..j]), e.key)
    {
      NewKeyIsNotLive(ops, now, j);
    }
  }

  lemma KilledAlike(ops: seq<Op<string>>, now: int, i: nat, e: Entry<string>)
    requires Orderly(ops, now) && i < |ops| && ops[i] == Set(e.key, e.value, "", e.expiresAt)
    requires e.version == "" && now < e.expiresAt
    ensures StoredBy(0, ops, i, e) <==> NeverDeleted(ops, i, e.key)
  {
    forall j | i < j < |ops| ensures Kills(ops[j], e) <==> ops[j] == Delete(e.key) {
    }
  }

  /** The law of such a store: a key has a value exactly when one set of them lives. */
  lemma HitBySet(max: nat, ops: seq<Op<string>>, now: int, key: string, value: string)
    requires Orderly(ops, now)
    ensures Lookup(Cache.Run(0, max, ops), key, "", now) == Some(value)
            <==> exists i :: LivesSince(max, ops, i, key, value, now)
  {
    HitExactly(0, max, ops, key, "", now, value);
    if i, e :| HeldSince(0, max, ops, i, e) && e.key == key && e.version == "" && e.value == value
               && now < e.expiresAt
    {
      KilledAlike(ops, now, i, e);
      CrowdedAlike(max, ops, now, i, e);
      assert LivesSince(max, ops, i, key, value, now);
    }
    if i :| LivesSince(max, ops, i, key, value, now) {
      var e := Entry(key, value, "", ops[i].at);
      KilledAlike(ops, now, i, e);
      CrowdedAlike(max, ops, now, i, e);
      assert HeldSince(0, max, ops, i, e);
    }
  }

  // ---- the actions as operations ------------------------------------------------------------------

  /** What an action does to the pending logins: a new login is stored until it expires, a poll reads it,
      and a provider error, or any verdict on a completed token, deletes it. A poll that is still pending
      does nothing to them. */
  ghost function PendingOp(s: State, a: Action): (op: Op<string>) {
    match a
    case FinishLogin(login, code, ttl) =>
      if FreshLogin(s.log, login, code) then Set(login, code, "", s.now + ttl) else Idle
    case BeginPoll(poll, login) => if poll in s.begun then Idle else Get(login, "", s.now)
    case TokenAnswer(poll, Failed) =>
      if poll in s.polls && s.polls[poll].Polling? then Delete(s.polls[poll].login) else Idle
    case VerifyAnswered(poll, _, session) =>
      if poll in s.polls && s.polls[poll].Verifying? && FreshSession(s.log, session)
      then Delete(s.polls[poll].login) else Idle
    case _ => Idle
  }

  /** What an action does to the sessions: an identity verdict stores one for the session lifetime, a
      request reads it, and a logout deletes it. */
  ghost function SessionOp(c: Config, s: State, a: Action): (op: Op<string>) {
    match a
    case VerifyAnswered(poll, Identity(identity), session) =>
      if poll in s.polls && s.polls[poll].Verifying? && FreshSession(s.log, session)
      then Set(session, identity, "", s.now + c.sessionTtl) else Idle
    case Resolve(session) => Get(session, "", s.now)
    case Logout(session) => Delete(session)
    case _ => Idle
  }

  ghost function PendingOps(c: Config, actions: seq<Action>): (ops: seq<Op<string>>)
    ensures |ops| == |actions|
  {
    seq(|actions|, i requires 0 <= i < |actions| => PendingOp(Login.Run(c, actions[..i]), actions[i]))
  }

  ghost function SessionOps(c: Config, actions: seq<Action>): (ops: seq<Op<string>>)
    ensures |ops| == |actions|
  {
    seq(|actions|, i requires 0 <= i < |actions| => SessionOp(c, Login.Run(c, actions[..i]), actions[i]))
  }

  lemma StepPending(c: Config, s: State, a: Action)
    ensures Step(c, s, a).pending == Apply(0, c.maxLogins, s.pending, PendingOp(s, a))
  {
  }

  lemma StepSessions(c: Config, s: State, a: Action)
    ensures Step(c, s, a).sessions == Apply(0, c.maxSessions, s.sessions, SessionOp(c, s, a))
  {
  }

  lemma OpsPrefix(c: Config, actions: seq<Action>, j: nat)
    requires j <= |actions|
    ensures PendingOps(c, actions)[..j] == PendingOps(c, actions[..j])
    ensures SessionOps(c, actions)[..j] == SessionOps(c, actions[..j])
  {
    forall i | 0 <= i < j ensures actions[..j][..i] == actions[..i] {}
  }

  /** In every run the two stores are the caches of these operations. */
  lemma {:induction false} StoresAreCaches(c: Config, actions: seq<Action>)
    ensures var s := Login.Run(c, actions);
            && s.pending == Cache.Run(0, c.maxLogins, PendingOps(c, actions))
            && s.sessions == Cache.Run(0, c.maxSessions, SessionOps(c, actions))
  {
    if actions != [] {
      var n := |actions| - 1;
      StoresAreCaches(c, actions[..n]);
      StepPending(c, Login.Run(c, actions[..n]), actions[n]);
      StepSessions(c, Login.Run(c, actions[..n]), actions[n]);
      OpsPrefix(c, actions, n);
    }
  }

  // ---- the operations are orderly -----------------------------------------------------------------

  lemma StepClock(c: Config, s: State, a: Action)
    ensures s.now <= Step(c, s, a).now
  {
  }

  lemma {:induction false} ClockGrows(c: Config, actions: seq<Action>, j: nat)
    requires j <= |actions|
    ensures Login.Run(c, actions[..j]).now <= Login.Run(c, actions).now
    decreases |actions|
  {
    if j == |actions| {
      assert actions[..j] == actions;
    } else {
      var n := |actions| - 1;
      ClockGrows(c, actions[..n], j);
      assert actions[..n][..j] == actions[..j];
      StepClock(c, Login.Run(c, actions[..n]), actions[n]);
    }
  }

  lemma LogGrows(c: Config, actions: seq<Action>, i: nat, j: nat)
    requires i <= j <= |actions|
    ensures Login.Run(c, actions[..i]).log <= Login.Run(c, actions[..j]).log
  {
    RunLogs(c, actions[..i], actions[i..j]);
    assert actions[..i] + actions[i..j] == actions[..j];
  }

  lemma OneMoreAction(c: Config, actions: seq<Action>, i: nat)
    requires i < |actions|
    ensures Login.Run(c, actions[..i + 1]) == Step(c, Login.Run(c, actions[..i]), actions[i])
  {
    assert actions[..i + 1][..i] == actions[..i];
  }

  lemma NewLogins(c: Config, actions: seq<Action>, i: nat, j: nat)
    requires i < j < |actions|
    requires PendingOps(c, actions)[i].Set? && PendingOps(c, actions)[j].Set?
    ensures PendingOps(c, actions)[i].key != PendingOps(c, actions)[j].key
  {
    var si, log := Login.Run(c, actions[..i]), Login.Run(c, actions[..j]).log;
    OneMoreAction(c, actions, i);
    LogGrows(c, actions, i + 1, j);
    assert log[|si.log|] == Created(actions[i].login, actions[i].code, si.now + actions[i].ttl);
  }

  lemma NewSessions(c: Config, actions: seq<Action>, i: nat, j: nat)
    requires i < j < |actions|
    requires SessionOps(c, actions)[i].Set? && SessionOps(c, actions)[j].Set?
    ensures SessionOps(c, actions)[i].key != SessionOps(c, actions)[j].key
  {
    var si, a := Login.Run(c, actions[..i]), actions[i];
    OneMoreAction(c, actions, i);
    LogGrows(c, actions, i + 1, j);
    IdentityMints(c, si, a.poll, a.verdict.identity, a.session);
    var log := Login.Run(c, actions[..j]).log;
    assert log[|si.log| + 1] == Login.Run(c, actions[..i + 1]).log[|si.log| + 1];
  }

  lemma PlainOps(c: Config, s: State, a: Action, now: int)
    requires s.now <= now
    ensures PlainOp(PendingOp(s, a), now) && PlainOp(SessionOp(c, s, a), now)
  {
  }

  lemma PendingOrderly(c: Config, actions: seq<Action>)
    ensures Orderly(PendingOps(c, actions), Login.Run(c, actions).now)
  {
    var ops, now := PendingOps(c, actions), Login.Run(c, actions).now;
    forall i | 0 <= i < |ops| ensures PlainOp(ops[i], now) {
      ClockGrows(c, actions, i);
      PlainOps(c, Login.Run(c, actions[..i]), actions[i], now);
    }
    forall i, j | 0 <= i < j < |ops| && ops[i].Set? && ops[j].Set? ensures ops[i].key != ops[j].key {
      NewLogins(c, actions, i, j);
    }
  }

  lemma SessionsOrderly(c: Config, actions: seq<Action>)
    ensures Orderly(SessionOps(c, actions), Login.Run(c, actions).now)
  {
    var ops, now := SessionOps(c, actions), Login.Run(c, actions).now;
    forall i | 0 <= i < |ops| ensures PlainOp(ops[i], now) {
      ClockGrows(c, actions, i);
      PlainOps(c, Login.Run(c, actions[..i]), actions[i], now);
    }
    forall i, j | 0 <= i < j < |ops| && ops[i].Set? && ops[j].Set? ensures ops[i].key != ops[j].key {
      NewSessions(c, actions, i, j);
    }
  }

  // ---- which polls find their login ---------------------------------------------------------------

  ghost predicate Creates(s: State, a: Action) {
    a.FinishLogin? && FreshLogin(s.log, a.login, a.code)
  }

  /** A provider error on a poll of the login, or a verdict on the token of one. */
  ghost predicate EndsLogin(s: State, a: Action, login: string) {
    Ends(s, a) && s.polls[a.poll].login == login
  }

  /** The logins created and neither ended nor found expired by a poll, oldest first. */
  ghost function OpenLogins(c: Config, actions: seq<Action>): (es: seq<Entry<string>>) {
    Live(0, PendingOps(c, actions))
  }

  /** The login was created by `actions[i]` and has not expired, none of its polls has failed or been
      verified, and no later login was created when it and the newer open logins filled the store. */
  ghost predicate OpenSince(c: Config, actions: seq<Action>, i: int, login: string, code: string) {
    && 0 <= i < |actions| && Creates(Login.Run(c, actions[..i]), actions[i])
    && actions[i].login == login && actions[i].code == code
    && Login.Run(c, actions).now < Login.Run(c, actions[..i]).now + actions[i].ttl
    && NeverEnds(c, actions, i, login) && NeverCrowdedOut(c, actions, i, login)
  }

  ghost predicate NeverEnds(c: Config, actions: seq<Action>, i: int, login: string)
    requires 0 <= i
  {
    forall j | i < j < |actions| :: !EndsLogin(Login.Run(c, actions[..j]), actions[j], login)
  }

  ghost predicate NeverCrowdedOut(c: Config, actions: seq<Action>, i: int, login: string)
    requires 0 <= i
  {
    forall j | i < j < |actions| && Creates(Login.Run(c, actions[..j]), actions[j]) ::
      Rank(OpenLogins(c, actions[..j]), login) < Room(c.maxLogins)
  }

  lemma PendingOpMeans(s: State, a: Action, login: string)
    ensures PendingOp(s, a).Set? <==> Creates(s, a)
    ensures PendingOp(s, a) == Delete(login) <==> EndsLogin(s, a, login)
    ensures Creates(s, a) ==> PendingOp(s, a) == Set(a.login, a.code, "", s.now + a.ttl)
  {
  }

  lemma PendingOpAt(c: Config, actions: seq<Action>, j: nat, login: string)
    requires j < |actions|
    ensures var op, s := PendingOps(c, actions)[j], Login.Run(c, actions[..j]);
            && (op.Set? <==> Creates(s, actions[j])) && (op == Delete(login) <==> EndsLogin(s, actions[j], login))
            && (op.Set? ==> op == Set(actions[j].login, actions[j].code, "", s.now + actions[j].ttl))
    ensures Live(0, PendingOps(c, actions)[..j]) == OpenLogins(c, actions[..j])
  {
    PendingOpMeans(Login.Run(c, actions[..j]), actions[j], login);
    OpsPrefix(c, actions, j);
  }

  lemma EndsAlike(c: Config, actions: seq<Action>, i: nat, login: string)
    ensures NeverEnds(c, actions, i, login) <==> NeverDeleted(PendingOps(c, actions), i, login)
  {
    forall j | 0 <= j < |actions|
      ensures PendingOps(c, actions)[j] == Delete(login)
              <==> EndsLogin(Login.Run(c, actions[..j]), actions[j], login)
    {
      PendingOpAt(c, actions, j, login);
    }
  }

  lemma FullAlike(c: Config, actions: seq<Action>, i: nat, login: string)
    ensures NeverCrowdedOut(c, actions, i, login) <==> NeverFilled(c.maxLogins, PendingOps(c, actions), i, login)
  {
    forall j | 0 <= j < |actions|
      ensures PendingOps(c, actions)[j].Set? <==> Creates(Login.Run(c, actions[..j]), actions[j])
      ensures Live(0, PendingOps(c, actions)[..j]) == OpenLogins(c, actions[..j])
    {
      PendingOpAt(c, actions, j, login);
    }
  }

  lemma OpenAlike(c: Config, actions: seq<Action>, i: int, login: string, code: string)
    ensures OpenSince(c, actions, i, login, code)
            <==> LivesSince(c.maxLogins, PendingOps(c, actions), i, login, code, Login.Run(c, actions).now)
  {
    if 0 <= i < |actions| {
      PendingOpAt(c, actions, i, login);
      EndsAlike(c, actions, i, login);
      FullAlike(c, actions, i, login);
    }
  }

  /** In every run a poll finds its login exactly when the login is open. */
  lemma PollFindsExactly(c: Config, actions: seq<Action>, login: string, code: string)
    ensures var s := Login.Run(c, actions);
            Lookup(s.pending, login, "", s.now) == Some(code) <==> exists i :: OpenSince(c, actions, i, login, code)
  {
    StoresAreCaches(c, actions);
    PendingOrderly(c, actions);
    HitBySet(c.maxLogins, PendingOps(c, actions), Login.Run(c, actions).now, login, code);
    forall i ensures OpenSince(c, actions, i, login, code)
        <==> LivesSince(c.maxLogins, PendingOps(c, actions), i, login, code, Login.Run(c, actions).now)
    {
      OpenAlike(c, actions, i, login, code);
    }
  }

  // ---- which cookies find their identity ----------------------------------------------------------

  /** An identity verdict on a completed token, under a new session id. */
  ghost predicate Mints(s: State, a: Action) {
    && a.VerifyAnswered? && a.verdict.Identity?
    && a.poll in s.polls && s.polls[a.poll].Verifying? && FreshSession(s.log, a.session)
  }

  /** The sessions minted and neither logged out nor found expired by a request, oldest first. */
  ghost function OpenSessions(c: Config, actions: seq<Action>): (es: seq<Entry<string>>) {
    Live(0, SessionOps(c, actions))
  }

  /** The session was minted by `actions[i]` for the identity less than a session lifetime ago, has not
      been logged out, and no later session was minted when it and the newer ones filled the store. */
  ghost predicate SignedInSince(c: Config, actions: seq<Action>, i: int, session: string, identity: string) {
    && 0 <= i < |actions| && Mints(Login.Run(c, actions[..i]), actions[i])
    && actions[i].session == session && actions[i].verdict.identity == identity
    && Login.Run(c, actions).now < Login.Run(c, actions[..i]).now + c.sessionTtl
    && (forall j | i < j < |actions| :: actions[j] != Logout(session))
    && NeverPushedOut(c, actions, i, session)
  }

  ghost predicate NeverPushedOut(c: Config, actions: seq<Action>, i: int, session: string)
    requires 0 <= i
  {
    forall j | i < j < |actions| && Mints(Login.Run(c, actions[..j]), actions[j]) ::
      Rank(OpenSessions(c, actions[..j]), session) < Room(c.maxSessions)
  }

  lemma SessionOpMeans(c: Config, s: State, a: Action, session: string)
    ensures SessionOp(c, s, a).Set? <==> Mints(s, a)
    ensures SessionOp(c, s, a) == Delete(session) <==> a == Logout(session)
    ensures Mints(s, a) ==> SessionOp(c, s, a) == Set(a.session, a.verdict.identity, "", s.now + c.sessionTtl)
  {
  }

  lemma SessionOpAt(c: Config, actions: seq<Action>, j: nat, session: string)
    requires j < |actions|
    ensures var op, s := SessionOps(c, actions)[j], Login.Run(c, actions[..j]);
            && (op.Set? <==> Mints(s, actions[j])) && (op == Delete(session) <==> actions[j] == Logout(session))
            && (op.Set? ==> op == Set(actions[j].session, actions[j].verdict.identity, "", s.now + c.sessionTtl))
    ensures Live(0, SessionOps(c, actions)[..j]) == OpenSessions(c, actions[..j])
  {
    SessionOpMeans(c, Login.Run(c, actions[..j]), actions[j], session);
    OpsPrefix(c, actions, j);
  }

  lemma LogoutAlike(c: Config, actions: seq<Action>, i: nat, session: string)
    ensures (forall j | i < j < |actions| :: actions[j] != Logout(session))
            <==> NeverDeleted(SessionOps(c, actions), i, session)
  {
    forall j | 0 <= j < |actions|
      ensures SessionOps(c, actions)[j] == Delete(session) <==> actions[j] == Logout(session)
    {
      SessionOpAt(c, actions, j, session);
    }
  }

  lemma PushedAlike(c: Config, actions: seq<Action>, i: nat, session: string)
    ensures NeverPushedOut(c, actions, i, session) <==> NeverFilled(c.maxSessions, SessionOps(c, actions), i, session)
  {
    forall j | 0 <= j < |actions|
      ensures SessionOps(c, actions)[j].Set? <==> Mints(Login.Run(c, actions[..j]), actions[j])
      ensures Live(0, SessionOps(c, actions)[..j]) == OpenSessions(c, actions[..j])
    {
      SessionOpAt(c, actions, j, session);
    }
  }

  lemma SignedInAlike(c: Config, actions: seq<Action>, i: int, session: string, identity: string)
    ensures SignedInSince(c, actions, i, session, identity)
            <==> LivesSince(c.maxSessions, SessionOps(c, actions), i, session, identity, Login.Run(c, actions).now)
  {
    if 0 <= i < |actions| {
      SessionOpAt(c, actions, i, session);
      LogoutAlike(c, actions, i, session);
      PushedAlike(c, actions, i, session);
    }
  }

  /** In every run a session id resolves to an identity exactly when it is signed in. */
  lemma SessionResolvesExactly(c: Config, actions: seq<Action>, session: string, identity: string)
    ensures var s := Login.Run(c, actions);
            Lookup(s.sessions, session, "", s.now) == Some(identity)
            <==> exists i :: SignedInSince(c, actions, i, session, identity)
  {
    StoresAreCaches(c, actions);
    SessionsOrderly(c, actions);
    HitBySet(c.maxSessions, SessionOps(c, actions), Login.Run(c, actions).now, session, identity);
    forall i ensures SignedInSince(c, actions, i, session, identity)
        <==> LivesSince(c.maxSessions, SessionOps(c, actions), i, session, identity, Login.Run(c, actions).now)
    {
      SignedInAlike(c, actions, i, session, identity);
    }
  }

  // ---- polls --------------------------------------------------------------------------------------

  /** How a poll goes on: the provider's answer ends it, or completes it with a token for the same login
      and code, and a verdict ends it; nobody else's poll changes. */
  lemma PollGoesOn(c: Config, s: State, poll: nat, answer: PollAnswer, verdict: VerifyAnswer, session: string)
    requires poll in s.polls
    ensures s.polls[poll].Polling? ==>
              var p, r := s.polls[poll], Step(c, s, TokenAnswer(poll, answer));
              && r.polls - {poll} == s.polls - {poll}
              && (!answer.Complete? ==> poll !in r.polls)
              && (answer.Complete? ==>
                    && poll in r.polls && r.polls[poll].Verifying? && r.polls[poll].login == p.login
                    && r.polls[poll].code == p.code && r.polls[poll].token == answer.token)
    ensures s.polls[poll].Verifying? && FreshSession(s.log, session) ==>
              Step(c, s, VerifyAnswered(poll, verdict, session)).polls == s.polls - {poll}
  {
  }

  /** A poll begins once, if its login is found, with the code of that login. */
  lemma PollBegins(c: Config, s: State, poll: nat, login: string)
    ensures var r := Step(c, s, BeginPoll(poll, login));
            && r.polls - {poll} == s.polls - {poll} && poll in r.begun
            && (poll in s.begun ==> r == s)
            && (poll !in s.begun && poll !in s.polls ==>
                  match Lookup(s.pending, login, "", s.now)
                  case None => poll !in r.polls
                  case Some(code) => poll in r.polls && r.polls[poll] == Polling(login, code, |s.log|))
  {
  }
}
