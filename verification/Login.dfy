/**
 * Device login (polling as in section 3.5 of RFC 8628): the two bounded stores and the login router,
 * with `handlePoll` split at its awaits so that polls, logins, logouts and expiry interleave freely.
 */
module Login {
  import opened Bytes
  import opened Cache

  // ---- the stores ---------------------------------------------------------------------------------

  /** `PendingLoginStore` and `SessionStore`: values under random ids, evicted oldest first, expiring. */
  class TtlStore<V> {
    const max: nat
    var entries: seq<Entry<V>>

    ghost predicate Valid()
      reads this
    {
      Distinct(entries)
    }

    constructor (max: nat)
      ensures Valid() && entries == [] && this.max == max
    {
      this.max, entries := max, [];
    }

    /** `create` under a fresh id. */
    method Create(id: string, value: V, ttl: int, now: int)
      requires Valid() && forall e | e in entries :: e.key != id
      modifies this
      ensures Valid() && entries == AfterSet(old(entries), max, Entry(id, value, "", now + ttl))
    {
      SetKeeps(entries, max, Entry(id, value, "", now + ttl));
      KeepAll(entries, OtherThan(id));
      if |entries| >= max && entries != [] {
        entries := entries[1..];
      }
      entries := entries + [Entry(id, value, "", now + ttl)];
    }

    method Get(id: string, now: int) returns (hit: Option<V>)
      requires Valid() && forall e | e in entries :: e.version == ""
      modifies this
      ensures Valid()
      ensures hit == Lookup(old(entries), id, "", now) && entries == AfterGet(old(entries), id, "", now)
    {
      var i := Find(entries, id);
      if i == |entries| {
        return None;
      }
      var entry := entries[i];
      assert entry in entries;
      if entry.expiresAt <= now {
        Destroy(id);
        return None;
      }
      hit := Some(entry.value);
    }

    method Destroy(id: string)
      requires Valid()
      modifies this
      ensures Valid() && entries == Remove(old(entries), id)
    {
      var i := Find(entries, id);
      RemoveAt(entries, id);
      KeepDistinct(entries, OtherThan(id));
      if i < |entries| {
        entries := entries[..i] + entries[i + 1..];
      }
    }
  }

  // ---- the router ---------------------------------------------------------------------------------

  /** What happened, in order. `Finished` is a destroyed login. */
  datatype Event =
    | Created(login: string, code: string, expiresAt: int)
    | PollBegan(poll: nat, login: string, code: string, at: int)
    | Completed(poll: nat, code: string, token: string)
    | Verified(poll: nat, token: string, identity: string)
    | Minted(session: string, poll: nat, login: string, identity: string, began: nat, completed: nat, verified: nat)
    | Finished(login: string)
    | LoggedOut(session: string)

  /** A poll between its awaits; `began` and `completed` are the log positions of its own events. */
  datatype Poll =
    | Polling(login: string, code: string, began: nat)
    | Verifying(login: string, code: string, token: string, began: nat, completed: nat)

  datatype State = State(
    now: int,
    pending: seq<Entry<string>>,
    sessions: seq<Entry<string>>,
    polls: map<nat, Poll>,
    begun: set<nat>,
    log: seq<Event>)

  const START := State(0, [], [], map[], {}, [])

  datatype Config = Config(maxLogins: nat, maxSessions: nat, sessionTtl: nat)

  datatype PollAnswer = Failed | StillPending | Complete(token: string)

  datatype VerifyAnswer = Invalid | NoAuthority | Identity(identity: string)

  datatype Action =
    | Tick(d: nat)
    | FinishLogin(login: string, code: string, ttl: nat)
    | BeginPoll(poll: nat, login: string)
    | TokenAnswer(poll: nat, answer: PollAnswer)
    | VerifyAnswered(poll: nat, verdict: VerifyAnswer, session: string)
    | Logout(session: string)
    | Resolve(session: string)

  ghost predicate FreshLogin(log: seq<Event>, login: string, code: string) {
    forall i | 0 <= i < |log| && log[i].Created? :: log[i].login != login && log[i].code != code
  }

  ghost predicate FreshSession(log: seq<Event>, session: string) {
    forall i | 0 <= i < |log| && log[i].Minted? :: log[i].session != session
  }

  function DestroyLogin(s: State, login: string): (r: State) {
    s.(pending := Remove(s.pending, login), log := s.log + [Finished(login)])
  }

  function EndPoll(s: State, poll: nat): (r: State) {
    s.(polls := s.polls - {poll})
  }

  /** Random login and session ids are new, the provider issues a new device code per login, and each
      request is its own poll. */
  ghost function Step(c: Config, s: State, a: Action): (r: State) {
    match a
    case Tick(d) => s.(now := s.now + d)
    case FinishLogin(login, code, ttl) =>
      if FreshLogin(s.log, login, code) then
        s.(pending := AfterSet(s.pending, c.maxLogins, Entry(login, code, "", s.now + ttl)),
           log := s.log + [Created(login, code, s.now + ttl)])
      else s
    case BeginPoll(poll, login) => if poll in s.begun then s else Begin(s, poll, login)
    case TokenAnswer(poll, answer) =>
      if poll in s.polls && s.polls[poll].Polling? then Answered(s, poll, s.polls[poll], answer) else s
    case VerifyAnswered(poll, answer, session) =>
      if poll in s.polls && s.polls[poll].Verifying? && FreshSession(s.log, session)
      then Checked(c, s, poll, s.polls[poll], answer, session) else s
    case Logout(session) => s.(sessions := Remove(s.sessions, session), log := s.log + [LoggedOut(session)])
    case Resolve(session) => s.(sessions := AfterGet(s.sessions, session, "", s.now))
  }

  function Begin(s: State, poll: nat, login: string): (r: State) {
    match Lookup(s.pending, login, "", s.now)
    case None => s.(pending := AfterGet(s.pending, login, "", s.now), begun := s.begun + {poll})
    case Some(code) =>
      s.(polls := s.polls[poll := Polling(login, code, |s.log|)], begun := s.begun + {poll},
         log := s.log + [PollBegan(poll, login, code, s.now)])
  }

  function Answered(s: State, poll: nat, p: Poll, answer: PollAnswer): (r: State)
    requires p.Polling?
  {
    match answer
    case Failed => EndPoll(DestroyLogin(s, p.login), poll)
    case StillPending => EndPoll(s, poll)
    case Complete(token) =>
      s.(polls := s.polls[poll := Verifying(p.login, p.code, token, p.began, |s.log|)],
         log := s.log + [Completed(poll, p.code, token)])
  }

  function Checked(c: Config, s: State, poll: nat, p: Poll, answer: VerifyAnswer, session: string): (r: State)
    requires p.Verifying?
  {
    match answer
    case Invalid => EndPoll(DestroyLogin(s, p.login), poll)
    case NoAuthority => EndPoll(DestroyLogin(s, p.login), poll)
    case Identity(identity) =>
      var verified := s.(log := s.log + [Verified(poll, p.token, identity)]);
      DestroyLogin(Mint(c, verified, poll, p, Entry(session, identity, "", s.now + c.sessionTtl)), p.login)
  }

  /** Create the session of a poll whose token was just verified, which ends the poll. */
  function Mint(c: Config, s: State, poll: nat, p: Poll, x: Entry<string>): (r: State)
    requires p.Verifying? && s.log != []
  {
    s.(sessions := AfterSet(s.sessions, c.maxSessions, x), polls := s.polls - {poll},
       log := s.log + [Minted(x.key, poll, p.login, x.value, p.began, p.completed, |s.log| - 1)])
  }

  ghost function Run(c: Config, actions: seq<Action>): (s: State) {
    if actions == [] then START else Step(c, Run(c, actions[..|actions| - 1]), actions[|actions| - 1])
  }

  // ---- what every run keeps -----------------------------------------------------------------------

  /** The login was created by `log[a]`. */
  ghost predicate CreatedAt(log: seq<Event>, a: int, login: string, code: string) {
    0 <= a < |log| && log[a].Created? && log[a].login == login && log[a].code == code
  }

  ghost predicate WasFinished(log: seq<Event>, n: nat, login: string) {
    exists i :: 0 <= i < n && i < |log| && log[i] == Finished(login)
  }

  /** A poll that began while its login was live: created earlier, not expired, and not finished. */
  ghost predicate BeganLive(log: seq<Event>, b: nat) {
    && b < |log| && log[b].PollBegan?
    && (exists a :: a < b && CreatedAt(log, a, log[b].login, log[b].code) && log[b].at < log[a].expiresAt)
    && !WasFinished(log, b, log[b].login)
  }

  /** A session was minted by one poll that began while its login was live, was completed by the
      provider, and whose token verified to the session's identity, in that order. */
  ghost predicate ProperMint(log: seq<Event>, m: nat) {
    && m < |log| && log[m].Minted?
    && var e := log[m];
       && e.began < e.completed < e.verified < m
       && BeganLive(log, e.began) && log[e.began].poll == e.poll && log[e.began].login == e.login
       && log[e.completed].Completed? && log[e.completed].poll == e.poll && log[e.completed].code == log[e.began].code
       && log[e.verified] == Verified(e.poll, log[e.completed].token, e.identity)
  }

  ghost predicate GoodPoll(log: seq<Event>, poll: nat, p: Poll) {
    && p.began < |log| && BeganLive(log, p.began)
    && log[p.began].poll == poll && log[p.began].login == p.login && log[p.began].code == p.code
    && (p.Verifying? ==> p.began < p.completed < |log| && log[p.completed] == Completed(poll, p.code, p.token))
  }

  ghost predicate GoodLogin(log: seq<Event>, e: Entry<string>) {
    && (exists a :: CreatedAt(log, a, e.key, e.value) && e.expiresAt == log[a].expiresAt)
    && !WasFinished(log, |log|, e.key)
  }

  ghost predicate GoodSession(log: seq<Event>, e: Entry<string>) {
    exists m :: MintedAt(log, m, e.key, e.value)
  }

  /** `log[m]` minted the session, and it has not been logged out since. */
  ghost predicate MintedAt(log: seq<Event>, m: int, session: string, identity: string) {
    && 0 <= m < |log| && log[m].Minted? && log[m].session == session && log[m].identity == identity
    && forall i | m < i < |log| :: log[i] != LoggedOut(session)
  }

  ghost predicate UniqueLogins(log: seq<Event>) {
    forall i, j | 0 <= i < j < |log| && log[i].Created? && log[j].Created? ::
      log[i].login != log[j].login && log[i].code != log[j].code
  }

  /** Each poll mints at most once, and is over once it has. */
  ghost predicate OneMintPerPoll(log: seq<Event>, polls: set<nat>, begun: set<nat>) {
    && (forall i | 0 <= i < |log| && log[i].Minted? :: log[i].poll in begun && log[i].poll !in polls)
    && (forall i, j | 0 <= i < j < |log| && log[i].Minted? && log[j].Minted? :: log[i].poll != log[j].poll)
    && polls <= begun
  }

  ghost predicate NoPollAfterFinish(log: seq<Event>) {
    forall b | 0 <= b < |log| && log[b].PollBegan? :: !WasFinished(log, b, log[b].login)
  }

  ghost predicate HasCreated(log: seq<Event>, login: string) {
    exists a :: 0 <= a < |log| && log[a].Created? && log[a].login == login
  }

  ghost predicate FinishedWereCreated(log: seq<Event>) {
    forall i | 0 <= i < |log| && log[i].Finished? :: HasCreated(log, log[i].login)
  }

  ghost predicate GoodLog(log: seq<Event>) {
    && (forall m | 0 <= m < |log| && log[m].Minted? :: ProperMint(log, m))
    && UniqueLogins(log) && NoPollAfterFinish(log) && FinishedWereCreated(log)
  }

  ghost predicate GoodStores(log: seq<Event>, pending: seq<Entry<string>>, sessions: seq<Entry<string>>) {
    (forall e | e in pending :: GoodLogin(log, e)) && (forall e | e in sessions :: GoodSession(log, e))
  }

  ghost predicate GoodPolls(log: seq<Event>, polls: map<nat, Poll>) {
    forall poll | poll in polls :: GoodPoll(log, poll, polls[poll])
  }

  ghost predicate Inv(s: State) {
    && GoodLog(s.log) && GoodStores(s.log, s.pending, s.sessions) && GoodPolls(s.log, s.polls)
    && OneMintPerPoll(s.log, s.polls.Keys, s.begun)
  }

  // ---- growing the log ----------------------------------------------------------------------------

  lemma FinishedExtends(log: seq<Event>, more: seq<Event>, n: nat, login: string)
    requires n <= |log|
    ensures WasFinished(log + more, n, login) <==> WasFinished(log, n, login)
  {
    var all := log + more;
    if i :| 0 <= i < n && i < |all| && all[i] == Finished(login) {
      assert log[i] == Finished(login);
    }
    if i :| 0 <= i < n && i < |log| && log[i] == Finished(login) {
      assert all[i] == Finished(login);
    }
  }

  lemma BeganLiveExtends(log: seq<Event>, more: seq<Event>, b: nat)
    requires BeganLive(log, b)
    ensures BeganLive(log + more, b)
  {
    FinishedExtends(log, more, b, log[b].login);
    var a :| a < b && CreatedAt(log, a, log[b].login, log[b].code) && log[b].at < log[a].expiresAt;
    assert CreatedAt(log + more, a, log[b].login, log[b].code);
  }

  lemma ProperMintExtends(log: seq<Event>, more: seq<Event>, m: nat)
    requires ProperMint(log, m)
    ensures ProperMint(log + more, m)
  {
    BeganLiveExtends(log, more, log[m].began);
  }

  lemma GoodPollExtends(log: seq<Event>, more: seq<Event>, poll: nat, p: Poll)
    requires GoodPoll(log, poll, p)
    ensures GoodPoll(log + more, poll, p)
  {
    BeganLiveExtends(log, more, p.began);
  }

  lemma FinishedSplit(log: seq<Event>, more: seq<Event>, login: string)
    requires !WasFinished(log, |log|, login) && forall i | 0 <= i < |more| :: more[i] != Finished(login)
    ensures !WasFinished(log + more, |log + more|, login)
  {
    var all := log + more;
    forall i | 0 <= i < |all| ensures all[i] != Finished(login) {
      if i < |log| {
        assert all[i] == log[i];
      } else {
        assert all[i] == more[i - |log|];
      }
    }
  }

  lemma GoodLoginExtends(log: seq<Event>, more: seq<Event>, e: Entry<string>)
    requires GoodLogin(log, e) && forall i | 0 <= i < |more| :: more[i] != Finished(e.key)
    ensures GoodLogin(log + more, e)
  {
    var a :| CreatedAt(log, a, e.key, e.value) && e.expiresAt == log[a].expiresAt;
    assert CreatedAt(log + more, a, e.key, e.value);
    FinishedSplit(log, more, e.key);
  }

  lemma GoodSessionExtends(log: seq<Event>, more: seq<Event>, e: Entry<string>)
    requires GoodSession(log, e) && forall i | 0 <= i < |more| :: more[i] != LoggedOut(e.key)
    ensures GoodSession(log + more, e)
  {
    var m :| MintedAt(log, m, e.key, e.value);
    assert MintedAt(log + more, m, e.key, e.value);
  }

  lemma CreatedExtends(log: seq<Event>, more: seq<Event>, login: string)
    requires HasCreated(log, login)
    ensures HasCreated(log + more, login)
  {
    var a :| 0 <= a < |log| && log[a].Created? && log[a].login == login;
    assert (log + more)[a] == log[a];
  }

  /** Appending one event keeps a good log good when the event itself is in order. */
  lemma GoodLogExtends(log: seq<Event>, e: Event)
    requires GoodLog(log) && InOrder(log, e)
    ensures GoodLog(log + [e])
  {
    var all := log + [e];
    forall m | 0 <= m < |all| && all[m].Minted? ensures ProperMint(all, m) {
      if m < |log| {
        ProperMintExtends(log, [e], m);
      }
    }
    forall b | 0 <= b < |all| && all[b].PollBegan? ensures !WasFinished(all, b, all[b].login) {
      FinishedExtends(log, [e], b, all[b].login);
    }
    forall i | 0 <= i < |all| && all[i].Finished? ensures HasCreated(all, all[i].login) {
      CreatedExtends(log, [e], all[i].login);
    }
  }

  /** Old entries the event does not end, and new ones that are good in the longer log. */
  ghost predicate StoresGrow(s: State, e: Event, r: State) {
    && (forall x | x in r.pending :: (x in s.pending && e != Finished(x.key)) || GoodLogin(r.log, x))
    && (forall x | x in r.sessions :: (x in s.sessions && e != LoggedOut(x.key)) || GoodSession(r.log, x))
    && forall k | k in r.polls :: (k in s.polls && r.polls[k] == s.polls[k]) || GoodPoll(r.log, k, r.polls[k])
  }

  lemma StoresStayGood(s: State, e: Event, r: State)
    requires GoodStores(s.log, s.pending, s.sessions) && GoodPolls(s.log, s.polls)
    requires r.log == s.log + [e] && StoresGrow(s, e, r)
    ensures GoodStores(r.log, r.pending, r.sessions) && GoodPolls(r.log, r.polls)
  {
    forall x | x in r.pending ensures GoodLogin(r.log, x) {
      if x in s.pending && e != Finished(x.key) {
        GoodLoginExtends(s.log, [e], x);
      }
    }
    forall x | x in r.sessions ensures GoodSession(r.log, x) {
      if x in s.sessions && e != LoggedOut(x.key) {
        GoodSessionExtends(s.log, [e], x);
      }
    }
    forall k | k in r.polls ensures GoodPoll(r.log, k, r.polls[k]) {
      if k in s.polls && r.polls[k] == s.polls[k] {
        GoodPollExtends(s.log, [e], k, s.polls[k]);
      }
    }
  }

  ghost predicate PollsGrow(s: State, e: Event, r: State) {
    && s.begun <= r.begun && r.polls.Keys <= r.begun && r.polls.Keys * s.begun <= s.polls.Keys
    && (e.Minted? ==> e.poll in s.polls && e.poll !in r.polls)
  }

  lemma OneMintStays(s: State, e: Event, r: State)
    requires OneMintPerPoll(s.log, s.polls.Keys, s.begun) && r.log == s.log + [e] && PollsGrow(s, e, r)
    ensures OneMintPerPoll(r.log, r.polls.Keys, r.begun)
  {
    forall i | 0 <= i < |r.log| && r.log[i].Minted? ensures r.log[i].poll in r.begun && r.log[i].poll !in r.polls.Keys {
      if i < |s.log| {
        assert r.log[i] == s.log[i];
      }
    }
    forall i, j | 0 <= i < j < |r.log| && r.log[i].Minted? && r.log[j].Minted? ensures r.log[i].poll != r.log[j].poll {
      assert r.log[i] == s.log[i];
      if j < |s.log| {
        assert r.log[j] == s.log[j];
      }
    }
  }

  ghost predicate InOrder(log: seq<Event>, e: Event) {
    && (e.Created? ==> FreshLogin(log, e.login, e.code))
    && (e.PollBegan? ==> !WasFinished(log, |log|, e.login))
    && (e.Finished? ==> HasCreated(log, e.login))
    && (e.Minted? ==> ProperMint(log + [e], |log|))
  }

  /** One logged event, with whatever it adds to or removes from the stores and polls. */
  lemma Grows(s: State, e: Event, r: State)
    requires Inv(s) && r.log == s.log + [e] && InOrder(s.log, e) && StoresGrow(s, e, r) && PollsGrow(s, e, r)
    ensures Inv(r)
  {
    GoodLogExtends(s.log, e);
    StoresStayGood(s, e, r);
    OneMintStays(s, e, r);
  }

  // ---- preservation -------------------------------------------------------------------------------

  lemma PollLoginCreated(log: seq<Event>, poll: nat, p: Poll)
    requires GoodPoll(log, poll, p)
    ensures HasCreated(log, p.login)
  {
    var b := p.began;
    var a :| a < b && CreatedAt(log, a, log[b].login, log[b].code) && log[b].at < log[a].expiresAt;
    assert log[a].Created? && log[a].login == p.login;
  }

  lemma DestroyOnlyKeeps(s: State, login: string)
    requires Inv(s) && HasCreated(s.log, login)
    ensures Inv(DestroyLogin(s, login))
  {
    KeepMembers(s.pending, OtherThan(login));
    Grows(s, Finished(login), DestroyLogin(s, login));
  }

  lemma DestroyKeeps(s: State, login: string, poll: nat)
    requires Inv(s) && HasCreated(s.log, login)
    ensures Inv(EndPoll(DestroyLogin(s, login), poll))
  {
    KeepMembers(s.pending, OtherThan(login));
    Grows(s, Finished(login), EndPoll(DestroyLogin(s, login), poll));
  }

  lemma LogoutKeeps(s: State, session: string)
    requires Inv(s)
    ensures Inv(s.(sessions := Remove(s.sessions, session), log := s.log + [LoggedOut(session)]))
  {
    KeepMembers(s.sessions, OtherThan(session));
    Grows(s, LoggedOut(session), s.(sessions := Remove(s.sessions, session), log := s.log + [LoggedOut(session)]));
  }

  lemma FreshIsUnfinished(log: seq<Event>, login: string, code: string)
    requires FinishedWereCreated(log) && FreshLogin(log, login, code)
    ensures !WasFinished(log, |log|, login)
  {
    forall i | 0 <= i < |log| ensures log[i] != Finished(login) {
      if log[i].Finished? {
        assert HasCreated(log, log[i].login);
      }
    }
  }

  lemma NewLoginIsGood(log: seq<Event>, x: Entry<string>)
    requires FinishedWereCreated(log) && FreshLogin(log, x.key, x.value)
    ensures GoodLogin(log + [Created(x.key, x.value, x.expiresAt)], x)
  {
    var e := Created(x.key, x.value, x.expiresAt);
    FreshIsUnfinished(log, x.key, x.value);
    assert CreatedAt(log + [e], |log|, x.key, x.value);
    FinishedSplit(log, [e], x.key);
  }

  lemma FinishLoginKeeps(c: Config, s: State, login: string, code: string, ttl: nat)
    requires Inv(s) && FreshLogin(s.log, login, code)
    ensures Inv(Step(c, s, FinishLogin(login, code, ttl)))
  {
    NewLoginIsGood(s.log, Entry(login, code, "", s.now + ttl));
    KeepMembers(s.pending, OtherThan(login));
    Grows(s, Created(login, code, s.now + ttl), Step(c, s, FinishLogin(login, code, ttl)));
  }

  lemma HitIsGood(s: State, login: string)
    requires GoodStores(s.log, s.pending, s.sessions) && Lookup(s.pending, login, "", s.now).Some?
    ensures var code := Lookup(s.pending, login, "", s.now).value;
            && (exists a :: CreatedAt(s.log, a, login, code) && s.now < s.log[a].expiresAt)
            && !WasFinished(s.log, |s.log|, login)
  {
    var e := s.pending[Find(s.pending, login)];
    assert e in s.pending && GoodLogin(s.log, e);
  }

  lemma PollBegins(log: seq<Event>, poll: nat, login: string, code: string, at: int)
    requires exists a :: CreatedAt(log, a, login, code) && at < log[a].expiresAt
    requires !WasFinished(log, |log|, login)
    ensures GoodPoll(log + [PollBegan(poll, login, code, at)], poll, Polling(login, code, |log|))
  {
    var e := PollBegan(poll, login, code, at);
    var a :| CreatedAt(log, a, login, code) && at < log[a].expiresAt;
    assert CreatedAt(log + [e], a, login, code);
    FinishedExtends(log, [e], |log|, login);
    assert BeganLive(log + [e], |log|);
  }

  lemma BeginKeeps(s: State, poll: nat, login: string)
    requires Inv(s) && poll !in s.begun
    ensures Inv(Begin(s, poll, login))
  {
    match Lookup(s.pending, login, "", s.now)
    case None =>
      KeepMembers(s.pending, OtherThan(login));
    case Some(code) =>
      HitIsGood(s, login);
      PollBegins(s.log, poll, login, code, s.now);
      Grows(s, PollBegan(poll, login, code, s.now), Begin(s, poll, login));
  }

  lemma CompleteKeeps(s: State, poll: nat, p: Poll, token: string)
    requires Inv(s) && poll in s.polls && s.polls[poll] == p && p.Polling?
    ensures Inv(Answered(s, poll, p, Complete(token)))
  {
    var e := Completed(poll, p.code, token);
    GoodPollExtends(s.log, [e], poll, p);
    Grows(s, e, Answered(s, poll, p, Complete(token)));
  }

  lemma VerifiedKeeps(s: State, poll: nat, p: Poll, identity: string)
    requires Inv(s) && poll in s.polls && s.polls[poll] == p && p.Verifying?
    ensures Inv(s.(log := s.log + [Verified(poll, p.token, identity)]))
  {
    Grows(s, Verified(poll, p.token, identity), s.(log := s.log + [Verified(poll, p.token, identity)]));
  }

  lemma MintIsProper(log: seq<Event>, poll: nat, p: Poll, session: string, identity: string)
    requires GoodPoll(log, poll, p) && p.Verifying? && p.completed < |log| - 1
    requires log[|log| - 1] == Verified(poll, p.token, identity)
    ensures ProperMint(log + [Minted(session, poll, p.login, identity, p.began, p.completed, |log| - 1)], |log|)
  {
    GoodPollExtends(log, [Minted(session, poll, p.login, identity, p.began, p.completed, |log| - 1)], poll, p);
  }

  /** The mint itself, right after the verification was logged. */
  lemma MintKeeps(c: Config, s: State, poll: nat, p: Poll, x: Entry<string>)
    requires Inv(s) && poll in s.polls && s.polls[poll] == p && p.Verifying? && p.completed < |s.log| - 1
    requires s.log[|s.log| - 1] == Verified(poll, p.token, x.value)
    ensures Inv(Mint(c, s, poll, p, x))
  {
    MintIsProper(s.log, poll, p, x.key, x.value);
    SetAddsOne(s.sessions, c.maxSessions, x);
    MintGrows(s, Mint(c, s, poll, p, x).log[|s.log|], Mint(c, s, poll, p, x), x);
  }

  lemma NewSessionIsGood(log: seq<Event>, e: Event, x: Entry<string>)
    requires e.Minted? && e.session == x.key && e.identity == x.value
    ensures GoodSession(log + [e], x)
  {
    assert MintedAt(log + [e], |log|, x.key, x.value);
  }

  lemma SetAddsOne(es: seq<Entry<string>>, max: nat, x: Entry<string>)
    ensures forall y | y in AfterSet(es, max, x) :: y == x || y in es
  {
    KeepMembers(es, OtherThan(x.key));
  }

  lemma MintGrows(s: State, e: Event, r: State, x: Entry<string>)
    requires Inv(s) && e.Minted? && e.session == x.key && e.identity == x.value && e.poll in s.polls
    requires r.log == s.log + [e] && ProperMint(r.log, |s.log|)
    requires r.pending == s.pending && r.begun == s.begun && r.polls == s.polls - {e.poll}
    requires forall y | y in r.sessions :: y == x || y in s.sessions
    ensures Inv(r)
  {
    NewSessionIsGood(s.log, e, x);
    assert StoresGrow(s, e, r);
    assert PollsGrow(s, e, r);
    Grows(s, e, r);
  }

  lemma IdentityKeeps(c: Config, s: State, poll: nat, p: Poll, identity: string, session: string)
    requires Inv(s) && poll in s.polls && s.polls[poll] == p && p.Verifying? && HasCreated(s.log, p.login)
    ensures Inv(Checked(c, s, poll, p, Identity(identity), session))
  {
    var v := Verified(poll, p.token, identity);
    var x := Entry(session, identity, "", s.now + c.sessionTtl);
    var verified := s.(log := s.log + [v]);
    assert GoodPoll(s.log, poll, p);
    VerifiedKeeps(s, poll, p, identity);
    CreatedExtends(s.log, [v], p.login);
    MintThenDestroy(c, verified, poll, p, x);
    CheckedIdentity(c, s, poll, p, identity, session);
  }

  lemma CheckedIdentity(c: Config, s: State, poll: nat, p: Poll, identity: string, session: string)
    requires p.Verifying?
    ensures Checked(c, s, poll, p, Identity(identity), session)
            == DestroyLogin(Mint(c, s.(log := s.log + [Verified(poll, p.token, identity)]), poll, p,
                                 Entry(session, identity, "", s.now + c.sessionTtl)), p.login)
  {
  }

  lemma MintThenDestroy(c: Config, s: State, poll: nat, p: Poll, x: Entry<string>)
    requires Inv(s) && poll in s.polls && s.polls[poll] == p && p.Verifying? && p.completed < |s.log| - 1
    requires s.log[|s.log| - 1] == Verified(poll, p.token, x.value) && HasCreated(s.log, p.login)
    ensures Inv(DestroyLogin(Mint(c, s, poll, p, x), p.login))
  {
    MintKeeps(c, s, poll, p, x);
    CreatedExtends(s.log, [Minted(x.key, poll, p.login, x.value, p.began, p.completed, |s.log| - 1)], p.login);
    DestroyOnlyKeeps(Mint(c, s, poll, p, x), p.login);
  }

  lemma CheckedKeeps(c: Config, s: State, poll: nat, p: Poll, verdict: VerifyAnswer, session: string)
    requires Inv(s) && poll in s.polls && s.polls[poll] == p && p.Verifying?
    ensures Inv(Checked(c, s, poll, p, verdict, session))
  {
    PollLoginCreated(s.log, poll, p);
    match verdict
    case Invalid => DestroyKeeps(s, p.login, poll);
    case NoAuthority => DestroyKeeps(s, p.login, poll);
    case Identity(identity) => IdentityKeeps(c, s, poll, p, identity, session);
  }

  lemma AnsweredKeeps(s: State, poll: nat, p: Poll, answer: PollAnswer)
    requires Inv(s) && poll in s.polls && s.polls[poll] == p && p.Polling?
    ensures Inv(Answered(s, poll, p, answer))
  {
    PollLoginCreated(s.log, poll, p);
    match answer
    case Failed => DestroyKeeps(s, p.login, poll);
    case StillPending =>
    case Complete(token) => CompleteKeeps(s, poll, p, token);
  }

  lemma StepKeeps(c: Config, s: State, a: Action)
    requires Inv(s)
    ensures Inv(Step(c, s, a))
  {
    match a
    case Tick(d) =>
    case FinishLogin(login, code, ttl) =>
      if FreshLogin(s.log, login, code) { FinishLoginKeeps(c, s, login, code, ttl); }
    case BeginPoll(poll, login) => if poll !in s.begun { BeginKeeps(s, poll, login); }
    case TokenAnswer(poll, answer) => AnswerStepKeeps(c, s, poll, answer);
    case VerifyAnswered(poll, verdict, session) => VerdictStepKeeps(c, s, poll, verdict, session);
    case Logout(session) => LogoutKeeps(s, session);
    case Resolve(session) => KeepMembers(s.sessions, OtherThan(session));
  }

  lemma AnswerStepKeeps(c: Config, s: State, poll: nat, answer: PollAnswer)
    requires Inv(s)
    ensures Inv(Step(c, s, TokenAnswer(poll, answer)))
  {
    if poll in s.polls && s.polls[poll].Polling? {
      AnsweredKeeps(s, poll, s.polls[poll], answer);
    }
  }

  lemma VerdictStepKeeps(c: Config, s: State, poll: nat, verdict: VerifyAnswer, session: string)
    requires Inv(s)
    ensures Inv(Step(c, s, VerifyAnswered(poll, verdict, session)))
  {
    if poll in s.polls && s.polls[poll].Verifying? && FreshSession(s.log, session) {
      CheckedKeeps(c, s, poll, s.polls[poll], verdict, session);
    }
  }

  lemma {:induction false} RunKeeps(c: Config, actions: seq<Action>)
    ensures Inv(Run(c, actions))
  {
    if actions != [] {
      RunKeeps(c, actions[..|actions| - 1]);
      StepKeeps(c, Run(c, actions[..|actions| - 1]), actions[|actions| - 1]);
    }
  }

  // ---- the promises -------------------------------------------------------------------------------

  /** In every interleaving, every session was minted by a poll that began while its login was live and
      unfinished, that the provider then completed, and whose token then verified to its identity; and a
      finished login starts no further poll. */
  lemma EveryRun(c: Config, actions: seq<Action>)
    ensures var s := Run(c, actions);
            && (forall m | 0 <= m < |s.log| && s.log[m].Minted? :: ProperMint(s.log, m))
            && (forall e | e in s.sessions :: GoodSession(s.log, e))
            && (forall b, f | 0 <= f < b < |s.log| && s.log[b].PollBegan? :: s.log[f] != Finished(s.log[b].login))
  {
    RunKeeps(c, actions);
    var s := Run(c, actions);
    forall b, f | 0 <= f < b < |s.log| && s.log[b].PollBegan? ensures s.log[f] != Finished(s.log[b].login) {
      assert !WasFinished(s.log, b, s.log[b].login);
    }
  }

  // ---- logins that have ended ---------------------------------------------------------------------

  lemma StepLogs(c: Config, s: State, a: Action)
    ensures s.log <= Step(c, s, a).log
  {
  }

  lemma {:induction false} RunLogs(c: Config, actions: seq<Action>, more: seq<Action>)
    ensures Run(c, actions).log <= Run(c, actions + more).log
    decreases |more|
  {
    if more == [] {
      assert actions + more == actions;
    } else {
      var before, last := more[..|more| - 1], more[|more| - 1];
      LastApart(actions, more);
      RunLogs(c, actions, before);
      RunSnoc(c, actions + before, last);
      StepLogs(c, Run(c, actions + before), last);
    }
  }

  lemma LastApart(actions: seq<Action>, more: seq<Action>)
    requires more != []
    ensures actions + more == (actions + more[..|more| - 1]) + [more[|more| - 1]]
  {
  }

  /** A provider error, and any verdict on a completed token, ends the login of its poll. */
  ghost predicate Ends(s: State, a: Action) {
    || (a.TokenAnswer? && a.answer.Failed? && a.poll in s.polls && s.polls[a.poll].Polling?)
    || (a.VerifyAnswered? && a.poll in s.polls && s.polls[a.poll].Verifying? && FreshSession(s.log, a.session))
  }

  lemma EndIsLogged(c: Config, s: State, a: Action)
    requires Ends(s, a)
    ensures var r := Step(c, s, a);
            && r.log != [] && r.log[|r.log| - 1] == Finished(s.polls[a.poll].login) && a.poll !in r.polls
            && forall e | e in r.pending :: e.key != s.polls[a.poll].login
  {
    KeepMembers(s.pending, OtherThan(s.polls[a.poll].login));
  }

  /** After a login has ended, no poll of it begins, in any continuation of the run. */
  lemma EndedLoginStartsNoPoll(c: Config, actions: seq<Action>, a: Action, more: seq<Action>, b: nat)
    requires Ends(Run(c, actions), a)
    requires var log := Run(c, actions + [a] + more).log;
             |Run(c, actions + [a]).log| <= b < |log| && log[b].PollBegan?
    ensures Run(c, actions + [a] + more).log[b].login != Run(c, actions).polls[a.poll].login
  {
    RunSnoc(c, actions, a);
    EndIsLogged(c, Run(c, actions), a);
    RunLogs(c, actions + [a], more);
    EveryRun(c, actions + [a] + more);
    var ended, log := Run(c, actions + [a]).log, Run(c, actions + [a] + more).log;
    assert log[|ended| - 1] == ended[|ended| - 1];
  }

  /** The provider answers at most one poll per device code with a token. */
  ghost predicate CompletesOnce(log: seq<Event>) {
    forall i, j | 0 <= i < j < |log| && log[i].Completed? && log[j].Completed? :: log[i].code != log[j].code
  }

  lemma MintCode(log: seq<Event>, m: nat)
    requires ProperMint(log, m)
    ensures exists a :: CreatedAt(log, a, log[m].login, log[log[m].completed].code)
  {
  }

  lemma DistinctLogins(log: seq<Event>, m: nat, n: nat)
    requires GoodLog(log) && CompletesOnce(log) && ProperMint(log, m) && ProperMint(log, n)
    requires log[m].poll != log[n].poll
    ensures log[m].login != log[n].login
  {
    var i, j := log[m].completed, log[n].completed;
    assert log[i].poll != log[j].poll && log[i].code != log[j].code;
    MintCode(log, m);
    MintCode(log, n);
    var a :| CreatedAt(log, a, log[m].login, log[i].code);
    var b :| CreatedAt(log, b, log[n].login, log[j].code);
    assert a != b;
  }

  /** If so, each login mints at most one session. */
  lemma OneSessionPerLogin(c: Config, actions: seq<Action>, m: nat, n: nat)
    requires var s := Run(c, actions);
             && CompletesOnce(s.log) && m < n < |s.log| && s.log[m].Minted? && s.log[n].Minted?
    ensures Run(c, actions).log[m].login != Run(c, actions).log[n].login
  {
    RunKeeps(c, actions);
    DistinctLogins(Run(c, actions).log, m, n);
  }

  // ---- logins that mint twice ---------------------------------------------------------------------

  lemma RunSnoc(c: Config, actions: seq<Action>, a: Action)
    ensures Run(c, actions + [a]) == Step(c, Run(c, actions), a)
  {
    assert (actions + [a])[..|actions|] == actions;
  }

  /** Two unfinished polls, in the same phase, of one login. */
  ghost predicate Twin(s: State, p: nat, q: nat, login: string) {
    && p != q && p in s.polls && q in s.polls
    && s.polls[p].login == login && s.polls[q].login == login
  }

  lemma TwinsBegin(c: Config, s: State, login: string, p: nat, q: nat)
    requires Lookup(s.pending, login, "", s.now).Some? && p != q && p !in s.begun && q !in s.begun
    ensures var r := Step(c, Step(c, s, BeginPoll(p, login)), BeginPoll(q, login));
            && Twin(r, p, q, login) && r.polls[p].Polling? && r.polls[q].Polling?
            && |r.log| == |s.log| + 2 && s.log <= r.log && !r.log[|s.log|].Minted? && !r.log[|s.log| + 1].Minted?
  {
  }

  lemma TwinsComplete(c: Config, s: State, login: string, p: nat, q: nat, t: string, u: string)
    requires Twin(s, p, q, login) && s.polls[p].Polling? && s.polls[q].Polling?
    ensures var r := Step(c, Step(c, s, TokenAnswer(p, Complete(t))), TokenAnswer(q, Complete(u)));
            && Twin(r, p, q, login) && r.polls[p].Verifying? && r.polls[q].Verifying?
            && |r.log| == |s.log| + 2 && s.log <= r.log && !r.log[|s.log|].Minted? && !r.log[|s.log| + 1].Minted?
  {
  }

  lemma IdentityMints(c: Config, s: State, p: nat, x: string, session: string)
    requires p in s.polls && s.polls[p].Verifying? && FreshSession(s.log, session)
    ensures var r := Step(c, s, VerifyAnswered(p, Identity(x), session));
            && |r.log| == |s.log| + 3 && s.log <= r.log && r.polls == s.polls - {p}
            && !r.log[|s.log|].Minted? && !r.log[|s.log| + 2].Minted?
            && r.log[|s.log| + 1].Minted? && r.log[|s.log| + 1].login == s.polls[p].login
            && r.log[|s.log| + 1].session == session
  {
  }

  lemma StillFresh(log: seq<Event>, more: seq<Event>, session: string)
    requires FreshSession(log, session) && log <= more
    requires forall i | |log| <= i < |more| :: !more[i].Minted? || more[i].session != session
    ensures FreshSession(more, session)
  {
    forall i | 0 <= i < |more| && more[i].Minted? ensures more[i].session != session {
      if i < |log| {
        assert more[i] == log[i];
      }
    }
  }

  /** In every state with two polls of one login awaiting their verdicts, two identities under fresh
      session ids mint two sessions for that login. */
  lemma TwinVerdictsMintTwice(c: Config, s: State, login: string, p: nat, q: nat, x: string, y: string,
                              first: string, second: string)
    requires Twin(s, p, q, login) && s.polls[p].Verifying? && s.polls[q].Verifying?
    requires first != second && FreshSession(s.log, first) && FreshSession(s.log, second)
    ensures var r := Step(c, Step(c, s, VerifyAnswered(p, Identity(x), first)), VerifyAnswered(q, Identity(y), second));
            MintsTwice(r.log, login)
  {
    var r := Step(c, s, VerifyAnswered(p, Identity(x), first));
    IdentityMints(c, s, p, x, first);
    StillFresh(s.log, r.log, second);
    IdentityMints(c, r, q, y, second);
    MintedTwice(Step(c, r, VerifyAnswered(q, Identity(y), second)).log, |s.log| + 1, |r.log| + 1, login);
  }

  ghost predicate MintsTwice(log: seq<Event>, login: string) {
    exists m, n :: MintOf(log, m, login) && MintOf(log, n, login) && m < n
  }

  ghost predicate MintOf(log: seq<Event>, m: int, login: string) {
    0 <= m < |log| && log[m].Minted? && log[m].login == login
  }

  lemma MintedTwice(log: seq<Event>, m: nat, n: nat, login: string)
    requires MintOf(log, m, login) && MintOf(log, n, login) && m < n
    ensures MintsTwice(log, login)
  {
  }

  /** So every live login, in every run, can mint twice: let two polls of it overlap and the provider
      complete its code for both. */
  lemma LiveLoginCanMintTwice(c: Config, actions: seq<Action>, login: string, p: nat, q: nat,
                              first: string, second: string) returns (more: seq<Action>)
    requires var s := Run(c, actions);
             && Lookup(s.pending, login, "", s.now).Some? && p != q && p !in s.begun && q !in s.begun
             && first != second && FreshSession(s.log, first) && FreshSession(s.log, second)
    ensures MintsTwice(Run(c, actions + more).log, login)
  {
    var s := Run(c, actions);
    TwinsBegin(c, s, login, p, q);
    var begun := actions + [BeginPoll(p, login)] + [BeginPoll(q, login)];
    TwoMore(c, actions, BeginPoll(p, login), BeginPoll(q, login));
    TwinsComplete(c, Run(c, begun), login, p, q, "", "");
    var done := begun + [TokenAnswer(p, Complete(""))] + [TokenAnswer(q, Complete(""))];
    TwoMore(c, begun, TokenAnswer(p, Complete("")), TokenAnswer(q, Complete("")));
    FreshThrough(s.log, Run(c, begun).log, Run(c, done).log, first);
    FreshThrough(s.log, Run(c, begun).log, Run(c, done).log, second);
    TwinVerdictsMintTwice(c, Run(c, done), login, p, q, "", "", first, second);
    TwoMore(c, done, VerifyAnswered(p, Identity(""), first), VerifyAnswered(q, Identity(""), second));
    more := [BeginPoll(p, login), BeginPoll(q, login), TokenAnswer(p, Complete("")), TokenAnswer(q, Complete("")),
             VerifyAnswered(p, Identity(""), first), VerifyAnswered(q, Identity(""), second)];
    assert actions + more
        == done + [VerifyAnswered(p, Identity(""), first)] + [VerifyAnswered(q, Identity(""), second)];
  }

  /** A login just created is live. */
  lemma NewLoginIsLive(c: Config, actions: seq<Action>, login: string, code: string, ttl: nat)
    requires FreshLogin(Run(c, actions).log, login, code) && ttl > 0
    ensures var s := Run(c, actions + [FinishLogin(login, code, ttl)]);
            Lookup(s.pending, login, "", s.now) == Some(code)
  {
    RunSnoc(c, actions, FinishLogin(login, code, ttl));
    CreatedIsLive(c, Run(c, actions), login, code, ttl);
  }

  lemma CreatedIsLive(c: Config, s: State, login: string, code: string, ttl: nat)
    requires FreshLogin(s.log, login, code) && ttl > 0
    ensures var r := Step(c, s, FinishLogin(login, code, ttl)); Lookup(r.pending, login, "", r.now) == Some(code)
  {
    SetIsFound(s.pending, c.maxLogins, Entry(login, code, "", s.now + ttl));
  }

  lemma SetIsFound(es: seq<Entry<string>>, max: nat, e: Entry<string>)
    ensures var r := AfterSet(es, max, e); Find(r, e.key) == |r| - 1 && r[|r| - 1] == e
  {
    KeepMembers(es, OtherThan(e.key));
    var r := AfterSet(es, max, e);
    assert r[|r| - 1] == e;
    forall j | 0 <= j < |r| - 1 ensures r[j].key != e.key {
      assert r[j] in Remove(es, e.key);
    }
    LastIsFound(r, e.key);
  }

  lemma LastIsFound(es: seq<Entry<string>>, key: string)
    requires es != [] && es[|es| - 1].key == key && forall j | 0 <= j < |es| - 1 :: es[j].key != key
    ensures Find(es, key) == |es| - 1
  {
    var i := Find(es, key);
    assert i <= |es| - 1;
  }

  lemma FreshThrough(log: seq<Event>, log1: seq<Event>, log2: seq<Event>, session: string)
    requires FreshSession(log, session) && log <= log1 <= log2 && |log1| == |log| + 2 && |log2| == |log1| + 2
    requires !log1[|log|].Minted? && !log1[|log| + 1].Minted? && !log2[|log1|].Minted? && !log2[|log1| + 1].Minted?
    ensures FreshSession(log2, session)
  {
    StillFresh(log, log1, session);
    StillFresh(log1, log2, session);
  }

  lemma TwoMore(c: Config, actions: seq<Action>, a: Action, b: Action)
    ensures Run(c, actions + [a] + [b]) == Step(c, Step(c, Run(c, actions), a), b)
  {
    RunSnoc(c, actions, a);
    RunSnoc(c, actions + [a], b);
  }

  // ---- exactly which logins mint twice ------------------------------------------------------------

  /** Each identity verdict is followed by its mint, and no poll begins twice. */
  ghost predicate Paired(log: seq<Event>, begun: set<nat>) {
    && (forall i {:trigger MintAfter(log, i)} | 0 <= i < |log| && log[i].Verified? :: MintAfter(log, i))
    && (forall b | 0 <= b < |log| && log[b].PollBegan? :: log[b].poll in begun)
    && (forall b, d | 0 <= b < d < |log| && log[b].PollBegan? && log[d].PollBegan? :: log[b].poll != log[d].poll)
  }

  ghost predicate MintAfter(log: seq<Event>, i: int) {
    0 <= i < |log| - 1 && log[i + 1].Minted? && log[i].Verified? && log[i + 1].poll == log[i].poll
  }

  lemma PairedOne(log: seq<Event>, begun: set<nat>, e: Event, begun': set<nat>)
    requires Paired(log, begun) && begun <= begun' && !e.Verified?
    requires e.PollBegan? ==> e.poll !in begun && e.poll in begun'
    ensures Paired(log + [e], begun')
  {
    var more := log + [e];
    forall i | 0 <= i < |more| && more[i].Verified? ensures MintAfter(more, i) {
      assert MintAfter(log, i);
    }
    forall b | 0 <= b < |more| && more[b].PollBegan? ensures more[b].poll in begun' {
      if b < |log| {
        assert more[b] == log[b];
      }
    }
    forall b, d | 0 <= b < d < |more| && more[b].PollBegan? && more[d].PollBegan?
      ensures more[b].poll != more[d].poll
    {
      assert more[b] == log[b];
      if d < |log| {
        assert more[d] == log[d];
      }
    }
  }

  lemma PairedMint(log: seq<Event>, begun: set<nat>, v: Event, m: Event)
    requires Paired(log, begun) && v.Verified? && m.Minted? && m.poll == v.poll
    ensures Paired(log + [v] + [m], begun)
  {
    var more := log + [v] + [m];
    assert more[|log|] == v && more[|log| + 1] == m && forall i | 0 <= i < |log| :: more[i] == log[i];
    forall i | 0 <= i < |more| && more[i].Verified? ensures MintAfter(more, i) {
      if i < |log| {
        assert MintAfter(log, i);
      }
    }
  }

  lemma VerdictKeepsPaired(c: Config, s: State, poll: nat, verdict: VerifyAnswer, session: string)
    requires Paired(s.log, s.begun)
    ensures var r := Step(c, s, VerifyAnswered(poll, verdict, session)); Paired(r.log, r.begun)
  {
    if poll in s.polls && s.polls[poll].Verifying? && FreshSession(s.log, session) {
      var p := s.polls[poll];
      if verdict.Identity? {
        var v := Verified(poll, p.token, verdict.identity);
        var m := Minted(session, poll, p.login, verdict.identity, p.began, p.completed, |s.log|);
        PairedMint(s.log, s.begun, v, m);
        PairedOne(s.log + [v] + [m], s.begun, Finished(p.login), s.begun);
      } else {
        PairedOne(s.log, s.begun, Finished(p.login), s.begun);
      }
    }
  }

  lemma StepKeepsPaired(c: Config, s: State, a: Action)
    requires Paired(s.log, s.begun)
    ensures Paired(Step(c, s, a).log, Step(c, s, a).begun)
  {
    match a
    case Tick(_) =>
    case FinishLogin(login, code, ttl) => PairedOne(s.log, s.begun, Created(login, code, s.now + ttl), s.begun);
    case BeginPoll(poll, login) =>
      if poll !in s.begun && Lookup(s.pending, login, "", s.now).Some? {
        var code := Lookup(s.pending, login, "", s.now).value;
        PairedOne(s.log, s.begun, PollBegan(poll, login, code, s.now), s.begun + {poll});
      }
    case TokenAnswer(poll, answer) =>
      if poll in s.polls && s.polls[poll].Polling? {
        PairedOne(s.log, s.begun, Finished(s.polls[poll].login), s.begun);
        if answer.Complete? {
          PairedOne(s.log, s.begun, Completed(poll, s.polls[poll].code, answer.token), s.begun);
        }
      }
    case VerifyAnswered(poll, verdict, session) => VerdictKeepsPaired(c, s, poll, verdict, session);
    case Logout(session) => PairedOne(s.log, s.begun, LoggedOut(session), s.begun);
    case Resolve(_) =>
  }

  lemma {:induction false} RunPaired(c: Config, actions: seq<Action>)
    ensures Paired(Run(c, actions).log, Run(c, actions).begun)
  {
    if actions != [] {
      RunPaired(c, actions[..|actions| - 1]);
      StepKeepsPaired(c, Run(c, actions[..|actions| - 1]), actions[|actions| - 1]);
    }
  }

  /** `log[i]` is an identity verdict on a completed poll of the login that began at `b`. */
  ghost predicate VerifiedPoll(log: seq<Event>, i: int, b: int, login: string) {
    && 0 <= b < i < |log| && log[i].Verified? && log[b].PollBegan?
    && log[b].poll == log[i].poll && log[b].login == login
    && exists k :: b < k < i && log[k] == Completed(log[i].poll, log[b].code, log[i].token)
  }

  ghost predicate VerifiedTwice(log: seq<Event>, login: string) {
    exists i, j, b, d :: VerifiedPoll(log, i, b, login) && VerifiedPoll(log, j, d, login) && i < j
  }

  lemma MintIsVerified(log: seq<Event>, m: nat)
    requires ProperMint(log, m)
    ensures VerifiedPoll(log, log[m].verified, log[m].began, log[m].login)
  {
    assert log[log[m].completed] == Completed(log[m].poll, log[log[m].began].code, log[log[m].completed].token);
  }

  lemma VerifiedIsMinted(log: seq<Event>, begun: set<nat>, i: nat, b: nat, login: string)
    requires GoodLog(log) && Paired(log, begun) && VerifiedPoll(log, i, b, login)
    ensures MintOf(log, i + 1, login)
  {
    assert MintAfter(log, i);
    assert ProperMint(log, i + 1);
    var began := log[i + 1].began;
    assert log[began].PollBegan? && log[began].poll == log[b].poll;
    assert began == b;
  }

  lemma MintsHaveVerdicts(log: seq<Event>, polls: set<nat>, begun: set<nat>, m: nat, n: nat, login: string)
    requires GoodLog(log) && OneMintPerPoll(log, polls, begun)
    requires MintOf(log, m, login) && MintOf(log, n, login) && m < n
    ensures VerifiedTwice(log, login)
  {
    MintIsVerified(log, m);
    MintIsVerified(log, n);
    assert log[m].poll != log[n].poll;
    TwoVerdicts(log, log[m].verified, log[n].verified, log[m].began, log[n].began, login);
  }

  lemma VerdictsMint(log: seq<Event>, begun: set<nat>, i: nat, j: nat, b: nat, d: nat, login: string)
    requires GoodLog(log) && Paired(log, begun)
    requires VerifiedPoll(log, i, b, login) && VerifiedPoll(log, j, d, login) && i < j
    ensures MintsTwice(log, login)
  {
    VerifiedIsMinted(log, begun, i, b, login);
    VerifiedIsMinted(log, begun, j, d, login);
    MintedTwice(log, i + 1, j + 1, login);
  }

  /** A login mints twice exactly when two of its polls were completed and verified to an identity. */
  lemma MintsTwiceExactly(c: Config, actions: seq<Action>, login: string)
    ensures MintsTwice(Run(c, actions).log, login) <==> VerifiedTwice(Run(c, actions).log, login)
  {
    var s := Run(c, actions);
    RunKeeps(c, actions);
    RunPaired(c, actions);
    if m, n :| MintOf(s.log, m, login) && MintOf(s.log, n, login) && m < n {
      MintsHaveVerdicts(s.log, s.polls.Keys, s.begun, m, n, login);
    }
    if i, j, b, d :| VerifiedPoll(s.log, i, b, login) && VerifiedPoll(s.log, j, d, login) && i < j {
      VerdictsMint(s.log, s.begun, i, j, b, d, login);
    }
  }

  lemma TwoVerdicts(log: seq<Event>, i: nat, j: nat, b: nat, d: nat, login: string)
    requires VerifiedPoll(log, i, b, login) && VerifiedPoll(log, j, d, login) && i != j
    ensures VerifiedTwice(log, login)
  {
    if i < j {
      assert VerifiedPoll(log, i, b, login) && VerifiedPoll(log, j, d, login);
    } else {
      assert VerifiedPoll(log, j, d, login) && VerifiedPoll(log, i, b, login);
    }
  }
}
