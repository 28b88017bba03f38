/**
 * Zone reads and writes of many requests interleaved around the shared cache. Each `await` splits a
 * request: a read looks up the cache, reads the engine, and later stores and answers; a write commits at
 * the engine, and later invalidates its tenant's views and answers.
 */
module ZoneReads {
  import opened Bytes
  import opened Cache

  const VERSION := "vtz-v1"

  // ---- cache keys ---------------------------------------------------------------------------------

  function Prefix(tenant: string): (p: string) {
    "vtz:" + tenant + ":"
  }

  /** The key of one view (`tree:<limit>` or `detail:<zone>`) of one tenant. */
  function Key(tenant: string, view: string): (k: string) {
    Prefix(tenant) + view
  }

  ghost predicate ColonFree(t: string) {
    forall i | 0 <= i < |t| :: t[i] != ':'
  }

  lemma DiffersAt(s: string, prefix: string, i: nat)
    requires i < |s| && i < |prefix| && s[i] != prefix[i]
    ensures !StartsWith(s, prefix)
  {
    if |prefix| <= |s| {
      assert s[..|prefix|][i] == s[i];
    }
  }

  lemma Nested(s: string, p: string, q: string)
    ensures StartsWith(s, p) && StartsWith(p, q) ==> StartsWith(s, q)
  {
    if StartsWith(s, p) && StartsWith(p, q) {
      assert s[..|q|] == s[..|p|][..|q|];
    }
  }

  lemma PrefixesMeet(s: string, p: string, q: string)
    requires StartsWith(s, p) && StartsWith(s, q)
    ensures StartsWith(p, q) || StartsWith(q, p)
  {
    if |p| <= |q| {
      assert q[..|p|] == s[..|q|][..|p|] == s[..|p|];
    } else {
      assert p[..|q|] == s[..|p|][..|q|] == s[..|q|];
    }
  }

  lemma KeyUnderPrefix(t: string, view: string)
    ensures StartsWith(Key(t, view), Prefix(t)) && Key(t, view)[|Prefix(t)|..] == view
    ensures StartsWith(Key(t, view), "vtz:")
  {
    assert Key(t, view)[..|Prefix(t)|] == Prefix(t);
    assert Key(t, view)[..4] == "vtz:";
  }

  /** One tenant's prefix is a prefix of the other's. */
  predicate Overlap(t: string, u: string) {
    StartsWith(Prefix(t), Prefix(u)) || StartsWith(Prefix(u), Prefix(t))
  }

  /** Two tenants have a key in common exactly when their prefixes overlap. */
  lemma KeysMeetExactly(t: string, u: string)
    ensures (exists v, w :: Key(t, v) == Key(u, w)) <==> Overlap(t, u)
  {
    if v, w :| Key(t, v) == Key(u, w) {
      KeyUnderPrefix(t, v);
      KeyUnderPrefix(u, w);
      PrefixesMeet(Key(t, v), Prefix(t), Prefix(u));
    }
    if StartsWith(Prefix(t), Prefix(u)) {
      assert Key(t, "") == Prefix(t) == Key(u, Prefix(t)[|Prefix(u)|..]);
    } else if StartsWith(Prefix(u), Prefix(t)) {
      assert Key(u, "") == Prefix(u) == Key(t, Prefix(u)[|Prefix(t)|..]);
    }
  }

  /** A tenant's prefix covers a key of another only if the two overlap. */
  lemma PrefixCovers(t: string, u: string, view: string)
    ensures t == u ==> StartsWith(Key(u, view), Prefix(t))
    ensures StartsWith(Prefix(u), Prefix(t)) ==> StartsWith(Key(u, view), Prefix(t))
    ensures StartsWith(Key(u, view), Prefix(t)) ==> Overlap(t, u)
  {
    KeyUnderPrefix(u, view);
    Nested(Key(u, view), Prefix(u), Prefix(t));
    if StartsWith(Key(u, view), Prefix(t)) {
      PrefixesMeet(Key(u, view), Prefix(t), Prefix(u));
    }
  }

  /** Colon-free tenants never overlap. */
  lemma ColonFreeApart(t: string, u: string)
    requires ColonFree(t) && ColonFree(u) && t != u
    ensures !Overlap(t, u)
  {
    ColonFreeDiffer(t, u);
    ColonFreeDiffer(u, t);
  }

  lemma ColonFreeDiffer(t: string, u: string)
    requires ColonFree(t) && ColonFree(u) && t != u
    ensures !StartsWith(Prefix(u), Prefix(t))
  {
    var k, p := Prefix(u), Prefix(t);
    if |t| < |u| {
      assert k[4 + |t|] == u[|t|] && p[4 + |t|] == ':';
      DiffersAt(k, p, 4 + |t|);
    } else if |u| < |t| {
      assert k[4 + |u|] == ':' && p[4 + |u|] == t[|u|];
      DiffersAt(k, p, 4 + |u|);
    } else {
      var i :| 0 <= i < |t| && t[i] != u[i];
      assert k[4 + i] == u[i] && p[4 + i] == t[i];
      DiffersAt(k, p, 4 + i);
    }
  }

  /** With colons the keys of two tenants can be one key, both of the shapes the server builds. */
  lemma ColonTenantsCollide()
    ensures Key("a", "detail:tree:1") == Key("a:detail", "tree:1")
  {
    assert Key("a", "detail:tree:1") == "vtz:a:detail:tree:1" == Key("a:detail", "tree:1");
  }

  // ---- the system ---------------------------------------------------------------------------------

  /** An engine reply: whose zones, and how many of that tenant's commits it reflects. */
  datatype View = View(tenant: string, snapshot: nat)

  datatype Read = Read(tenant: string, view: string, floor: nat, snapshot: Option<nat>)

  datatype Write = Write(tenant: string, commit: Option<nat>)

  /** An answered read; `floor` is the newest acknowledged commit of the tenant when the read began. */
  datatype Served = Served(tenant: string, value: View, floor: nat, at: int, storedAt: int)

  datatype Sys = Sys(
    now: int,
    entries: seq<Entry<View>>,
    committed: map<string, nat>,
    acked: map<string, nat>,
    readers: map<nat, Read>,
    writers: map<nat, Write>,
    served: seq<Served>)

  const START := Sys(0, [], map[], map[], map[], map[], [])

  datatype Config = Config(ttl: nat, max: nat)

  datatype Action =
    | Tick(d: nat)
    | BeginRead(id: nat, tenant: string, view: string)
    | EngineReads(id: nat)
    | FinishRead(id: nat)
    | FailRead(id: nat)
    | BeginWrite(id: nat, tenant: string)
    | Commit(id: nat)
    | FinishWrite(id: nat)
    | FailWrite(id: nat)
    | OtherSet(e: Entry<View>)
    | OtherDelete(prefix: string)

  function At(m: map<string, nat>, t: string): (n: nat) {
    if t in m then m[t] else 0
  }

  function Stored(c: Config, s: Sys, r: Read): (e: Entry<View>)
    requires r.snapshot.Some?
  {
    Entry(Key(r.tenant, r.view), View(r.tenant, r.snapshot.value), VERSION, s.now + c.ttl)
  }

  function Begin(c: Config, s: Sys, id: nat, tenant: string, view: string): (r: Sys) {
    var key, floor := Key(tenant, view), At(s.acked, tenant);
    var i := Find(s.entries, key);
    match Lookup(s.entries, key, VERSION, s.now)
    case Some(v) => s.(served := s.served + [Served(tenant, v, floor, s.now, s.entries[i].expiresAt - c.ttl)])
    case None =>
      s.(entries := AfterGet(s.entries, key, VERSION, s.now),
         readers := s.readers[id := Read(tenant, view, floor, None)])
  }

  function Finish(c: Config, s: Sys, id: nat): (r: Sys)
    requires id in s.readers && s.readers[id].snapshot.Some?
  {
    var r := s.readers[id];
    s.(entries := AfterSet(s.entries, c.max, Stored(c, s, r)), readers := s.readers - {id},
       served := s.served + [Served(r.tenant, View(r.tenant, r.snapshot.value), r.floor, s.now, s.now)])
  }

  function Invalidate(s: Sys, id: nat): (r: Sys)
    requires id in s.writers && s.writers[id].commit.Some?
  {
    var w := s.writers[id];
    var n := w.commit.value;
    s.(entries := AfterDeletePrefix(s.entries, Prefix(w.tenant)), writers := s.writers - {id},
       acked := if n > At(s.acked, w.tenant) then s.acked[w.tenant := n] else s.acked)
  }

  function Step(c: Config, s: Sys, a: Action): (r: Sys) {
    match a
    case Tick(d) => s.(now := s.now + d)
    case BeginRead(id, tenant, view) => if id in s.readers then s else Begin(c, s, id, tenant, view)
    case EngineReads(id) =>
      if id in s.readers && s.readers[id].snapshot.None? then
        var r := s.readers[id];
        s.(readers := s.readers[id := r.(snapshot := Some(At(s.committed, r.tenant)))])
      else s
    case FinishRead(id) => if id in s.readers && s.readers[id].snapshot.Some? then Finish(c, s, id) else s
    case FailRead(id) => s.(readers := s.readers - {id})
    case BeginWrite(id, tenant) => if id in s.writers then s else s.(writers := s.writers[id := Write(tenant, None)])
    case Commit(id) =>
      if id in s.writers && s.writers[id].commit.None? then
        var w := s.writers[id];
        var n := At(s.committed, w.tenant) + 1;
        s.(committed := s.committed[w.tenant := n], writers := s.writers[id := w.(commit := Some(n))])
      else s
    case FinishWrite(id) => if id in s.writers && s.writers[id].commit.Some? then Invalidate(s, id) else s
    case FailWrite(id) => s.(writers := s.writers - {id})
    case OtherSet(e) => if StartsWith(e.key, "vtz:") then s else s.(entries := AfterSet(s.entries, c.max, e))
    case OtherDelete(prefix) => s.(entries := AfterDeletePrefix(s.entries, prefix))
  }

  function Run(c: Config, actions: seq<Action>): (s: Sys) {
    if actions == [] then START else Step(c, Run(c, actions[..|actions| - 1]), actions[|actions| - 1])
  }

  // ---- what every run keeps -----------------------------------------------------------------------

  predicate IsZone(e: Entry<View>) {
    StartsWith(e.key, "vtz:")
  }

  /** A zone entry is a view of a tenant its key names, at a commit that happened, not yet overdue. */
  ghost predicate GoodEntry(c: Config, now: int, committed: map<string, nat>, e: Entry<View>) {
    IsZone(e) ==>
      && StartsWith(e.key, Prefix(e.value.tenant))
      && e.value.snapshot <= At(committed, e.value.tenant) && e.expiresAt <= now + c.ttl
  }

  ghost predicate GoodRead(committed: map<string, nat>, r: Read) {
    && r.floor <= At(committed, r.tenant)
    && (r.snapshot.Some? ==> r.floor <= r.snapshot.value <= At(committed, r.tenant))
  }

  ghost predicate GoodWrite(committed: map<string, nat>, w: Write) {
    w.commit.Some? ==> w.commit.value <= At(committed, w.tenant)
  }

  /** An answer came from the engine or was stored less than a TTL ago. */
  ghost predicate GoodServed(c: Config, r: Served) {
    r.storedAt == r.at || r.at - c.ttl < r.storedAt <= r.at
  }

  ghost predicate Inv(c: Config, s: Sys) {
    && (forall e | e in s.entries :: GoodEntry(c, s.now, s.committed, e))
    && (forall id | id in s.readers :: GoodRead(s.committed, s.readers[id]))
    && (forall id | id in s.writers :: GoodWrite(s.committed, s.writers[id]))
    && (forall t | t in s.acked :: s.acked[t] <= At(s.committed, t))
    && (forall i | 0 <= i < |s.served| :: GoodServed(c, s.served[i]))
  }

  lemma HitEntry(s: Sys, tenant: string, view: string)
    requires Lookup(s.entries, Key(tenant, view), VERSION, s.now).Some?
    ensures var e := s.entries[Find(s.entries, Key(tenant, view))];
            && e in s.entries && IsZone(e) && e.key == Key(tenant, view) && e.expiresAt > s.now
            && Lookup(s.entries, Key(tenant, view), VERSION, s.now) == Some(e.value)
  {
    KeyUnderPrefix(tenant, view);
  }

  lemma BeginKeeps(c: Config, s: Sys, id: nat, tenant: string, view: string)
    requires Inv(c, s)
    ensures Inv(c, Begin(c, s, id, tenant, view))
  {
    var key := Key(tenant, view);
    match Lookup(s.entries, key, VERSION, s.now)
    case Some(v) =>
      HitEntry(s, tenant, view);
      assert GoodEntry(c, s.now, s.committed, s.entries[Find(s.entries, key)]);
    case None =>
      KeepMembers(s.entries, OtherThan(key));
  }

  lemma FinishKeeps(c: Config, s: Sys, id: nat)
    requires Inv(c, s) && id in s.readers && s.readers[id].snapshot.Some?
    ensures Inv(c, Finish(c, s, id))
  {
    var r := s.readers[id];
    assert GoodRead(s.committed, r);
    KeyUnderPrefix(r.tenant, r.view);
    KeepMembers(s.entries, OtherThan(Stored(c, s, r).key));
  }

  lemma InvalidateKeeps(c: Config, s: Sys, id: nat)
    requires Inv(c, s) && id in s.writers && s.writers[id].commit.Some?
    ensures Inv(c, Invalidate(s, id))
  {
    KeepMembers(s.entries, NotUnder(Prefix(s.writers[id].tenant)));
  }

  lemma CommitKeeps(c: Config, s: Sys, id: nat)
    requires Inv(c, s)
    ensures Inv(c, Step(c, s, Commit(id)))
  {
    if id in s.writers && s.writers[id].commit.None? {
      var t := s.writers[id].tenant;
      var committed := s.committed[t := At(s.committed, t) + 1];
      assert forall u :: At(s.committed, u) <= At(committed, u);
      forall e | e in s.entries ensures GoodEntry(c, s.now, committed, e) {
        assert GoodEntry(c, s.now, s.committed, e);
      }
    }
  }

  lemma EngineReadsKeeps(c: Config, s: Sys, id: nat)
    requires Inv(c, s)
    ensures Inv(c, Step(c, s, EngineReads(id)))
  {
    if id in s.readers {
      assert GoodRead(s.committed, s.readers[id]);
    }
  }

  lemma OtherKeeps(c: Config, s: Sys, a: Action)
    requires Inv(c, s) && (a.OtherSet? || a.OtherDelete? || a.Tick?)
    ensures Inv(c, Step(c, s, a))
  {
    match a
    case OtherSet(e) =>
      KeepMembers(s.entries, OtherThan(e.key));
    case OtherDelete(prefix) =>
      KeepMembers(s.entries, NotUnder(prefix));
    case Tick(d) =>
      forall e | e in s.entries ensures GoodEntry(c, s.now + d, s.committed, e) {
        assert GoodEntry(c, s.now, s.committed, e);
      }
  }

  lemma StepKeeps(c: Config, s: Sys, a: Action)
    requires Inv(c, s)
    ensures Inv(c, Step(c, s, a))
  {
    match a
    case BeginRead(id, tenant, view) => if id !in s.readers { BeginKeeps(c, s, id, tenant, view); }
    case EngineReads(id) => EngineReadsKeeps(c, s, id);
    case FinishRead(id) => if id in s.readers && s.readers[id].snapshot.Some? { FinishKeeps(c, s, id); }
    case FailRead(id) =>
    case BeginWrite(id, tenant) =>
    case Commit(id) => CommitKeeps(c, s, id);
    case FinishWrite(id) => if id in s.writers && s.writers[id].commit.Some? { InvalidateKeeps(c, s, id); }
    case FailWrite(id) =>
    case _ => OtherKeeps(c, s, a);
  }

  /** In every interleaving, of any tenants, every cached view is of a tenant its key names at a commit that
      happened, and every answer came from the engine or was stored less than one TTL earlier. */
  lemma {:induction false} EveryRun(c: Config, actions: seq<Action>)
    ensures Inv(c, Run(c, actions))
  {
    if actions != [] {
      EveryRun(c, actions[..|actions| - 1]);
      StepKeeps(c, Run(c, actions[..|actions| - 1]), actions[|actions| - 1]);
    }
  }

  // ---- tenants and views --------------------------------------------------------------------------

  /** The tenants that make requests and the views they ask for. */
  datatype World = World(tenants: iset<string>, views: iset<string>)

  ghost predicate From(w: World, a: Action) {
    && (a.BeginRead? ==> a.tenant in w.tenants && a.view in w.views)
    && (a.BeginWrite? ==> a.tenant in w.tenants)
  }

  ghost predicate AllFrom(w: World, actions: seq<Action>) {
    forall i | 0 <= i < |actions| :: From(w, actions[i])
  }

  ghost predicate KeyOf(w: World, key: string, tenant: string) {
    exists v :: v in w.views && key == Key(tenant, v)
  }

  /** Everything in the system comes from the world. */
  ghost predicate Inside(w: World, s: Sys) {
    && (forall e | e in s.entries && IsZone(e) :: e.value.tenant in w.tenants && KeyOf(w, e.key, e.value.tenant))
    && (forall id | id in s.readers :: s.readers[id].tenant in w.tenants && s.readers[id].view in w.views)
    && (forall id | id in s.writers :: s.writers[id].tenant in w.tenants)
  }

  lemma FinishStaysInside(c: Config, w: World, s: Sys, id: nat)
    requires Inside(w, s) && id in s.readers && s.readers[id].snapshot.Some?
    ensures Inside(w, Finish(c, s, id))
  {
    var r := s.readers[id];
    KeepMembers(s.entries, OtherThan(Stored(c, s, r).key));
    assert KeyOf(w, Key(r.tenant, r.view), r.tenant);
  }

  lemma BeginStaysInside(c: Config, w: World, s: Sys, id: nat, tenant: string, view: string)
    requires Inside(w, s) && tenant in w.tenants && view in w.views
    ensures Inside(w, Begin(c, s, id, tenant, view))
  {
    KeepMembers(s.entries, OtherThan(Key(tenant, view)));
  }

  lemma FewerInside(w: World, s: Sys, p: string -> bool)
    requires Inside(w, s)
    ensures Inside(w, s.(entries := Keep(s.entries, p)))
  {
    KeepMembers(s.entries, p);
  }

  lemma WriteStaysInside(c: Config, w: World, s: Sys, a: Action)
    requires Inside(w, s) && From(w, a) && (a.BeginWrite? || a.Commit? || a.FinishWrite? || a.FailWrite?)
    ensures Inside(w, Step(c, s, a))
  {
    if a.FinishWrite? && a.id in s.writers {
      FewerInside(w, s, NotUnder(Prefix(s.writers[a.id].tenant)));
    }
  }

  lemma OtherStaysInside(c: Config, w: World, s: Sys, a: Action)
    requires Inside(w, s) && (a.Tick? || a.OtherSet? || a.OtherDelete?)
    ensures Inside(w, Step(c, s, a))
  {
    match a
    case Tick(_) =>
    case OtherSet(e) => KeepMembers(s.entries, OtherThan(e.key));
    case OtherDelete(prefix) => FewerInside(w, s, NotUnder(prefix));
  }

  lemma StepStaysInside(c: Config, w: World, s: Sys, a: Action)
    requires Inside(w, s) && From(w, a)
    ensures Inside(w, Step(c, s, a))
  {
    match a
    case BeginRead(id, tenant, view) => if id !in s.readers { BeginStaysInside(c, w, s, id, tenant, view); }
    case EngineReads(_) =>
    case FinishRead(id) => if id in s.readers && s.readers[id].snapshot.Some? { FinishStaysInside(c, w, s, id); }
    case FailRead(_) =>
    case Tick(_) => OtherStaysInside(c, w, s, a);
    case OtherSet(_) => OtherStaysInside(c, w, s, a);
    case OtherDelete(_) => OtherStaysInside(c, w, s, a);
    case _ => WriteStaysInside(c, w, s, a);
  }

  lemma {:induction false} RunStaysInside(c: Config, w: World, actions: seq<Action>)
    requires AllFrom(w, actions)
    ensures Inside(w, Run(c, actions))
  {
    if actions != [] {
      RunStaysInside(c, w, actions[..|actions| - 1]);
      StepStaysInside(c, w, Run(c, actions[..|actions| - 1]), actions[|actions| - 1]);
    }
  }

  // ---- answers within the tenant ------------------------------------------------------------------

  /** No two tenants of the world have a key in common. */
  ghost predicate KeysApart(w: World) {
    forall t, u, v | t in w.tenants && u in w.tenants && t != u && v in w.views :: !KeyOf(w, Key(t, v), u)
  }

  /** Every answer is a view of the tenant that asked. */
  ghost predicate AnswersStay(s: Sys) {
    forall i | 0 <= i < |s.served| :: s.served[i].value.tenant == s.served[i].tenant
  }

  lemma StepAnswersStay(c: Config, w: World, s: Sys, a: Action)
    requires KeysApart(w) && Inside(w, s) && From(w, a) && AnswersStay(s)
    ensures AnswersStay(Step(c, s, a))
  {
    if a.BeginRead? && Lookup(s.entries, Key(a.tenant, a.view), VERSION, s.now).Some? {
      HitEntry(s, a.tenant, a.view);
      var e := s.entries[Find(s.entries, Key(a.tenant, a.view))];
      assert KeyOf(w, Key(a.tenant, a.view), e.value.tenant);
    }
  }

  lemma {:induction false} RunAnswersStay(c: Config, w: World, actions: seq<Action>)
    requires KeysApart(w) && AllFrom(w, actions)
    ensures AnswersStay(Run(c, actions))
  {
    if actions != [] {
      var before := actions[..|actions| - 1];
      RunAnswersStay(c, w, before);
      RunStaysInside(c, w, before);
      StepAnswersStay(c, w, Run(c, before), actions[|actions| - 1]);
    }
  }

  /** A run that caches one view of `tenant`. */
  function CachingRun(tenant: string, view: string): (actions: seq<Action>) {
    [] + [BeginRead(0, tenant, view)] + [EngineReads(0)] + [FinishRead(0)]
  }

  lemma Caches(c: Config, tenant: string, view: string)
    ensures Run(c, CachingRun(tenant, view))
            == START.(entries := [Entry(Key(tenant, view), View(tenant, 0), VERSION, c.ttl)],
                      served := [Served(tenant, View(tenant, 0), 0, 0, 0)])
  {
    var a, b, d := BeginRead(0, tenant, view), EngineReads(0), FinishRead(0);
    RunThen(c, [], a);
    var s1 := Run(c, [] + [a]);
    assert s1 == START.(readers := map[0 := Read(tenant, view, 0, None)]);
    RunThen(c, [] + [a], b);
    var s2 := Run(c, [] + [a] + [b]);
    assert s2 == START.(readers := map[0 := Read(tenant, view, 0, Some(0))]);
    RunThen(c, [] + [a] + [b], d);
    assert s2.readers - {0} == map[];
  }

  /** Two tenants with a key in common: one is answered with the other's view. */
  lemma CrossAnswer(c: Config, t: string, u: string, v: string, w: string)
    requires c.ttl > 0 && t != u && Key(t, v) == Key(u, w)
    ensures !AnswersStay(Run(c, CachingRun(t, v) + [BeginRead(0, u, w)]))
  {
    Caches(c, t, v);
    RunThen(c, CachingRun(t, v), BeginRead(0, u, w));
    var s := Run(c, CachingRun(t, v));
    assert Find(s.entries, Key(u, w)) == 0;
    var r := Step(c, s, BeginRead(0, u, w));
    assert r.served[1] == Served(u, View(t, 0), 0, 0, 0);
  }

  /** No tenant is ever answered with another's view exactly when no two have a key in common. */
  lemma AnswersStayExactly(c: Config, w: World)
    requires c.ttl > 0
    ensures (forall actions | AllFrom(w, actions) :: AnswersStay(Run(c, actions))) <==> KeysApart(w)
  {
    if KeysApart(w) {
      forall actions | AllFrom(w, actions) ensures AnswersStay(Run(c, actions)) {
        RunAnswersStay(c, w, actions);
      }
    } else {
      var t, u, v :| t in w.tenants && u in w.tenants && t != u && v in w.views && KeyOf(w, Key(t, v), u);
      var x :| x in w.views && Key(t, v) == Key(u, x);
      CrossAnswer(c, t, u, v, x);
      assert AllFrom(w, CachingRun(t, v) + [BeginRead(0, u, x)]);
    }
  }

  // ---- writes within the tenant -------------------------------------------------------------------

  /** No tenant's prefix covers a key of another. */
  ghost predicate WritesApart(w: World) {
    forall t, u, v | t in w.tenants && u in w.tenants && t != u && v in w.views :: !StartsWith(Key(u, v), Prefix(t))
  }

  /** The write that the action finishes, if it finishes one, drops exactly its own tenant's zone views. */
  ghost predicate DropsOwn(c: Config, s: Sys, a: Action) {
    a.FinishWrite? && a.id in s.writers && s.writers[a.id].commit.Some? ==>
      forall e | e in s.entries ::
        e in Step(c, s, a).entries <==> !(IsZone(e) && e.value.tenant == s.writers[a.id].tenant)
  }

  /** An invalidation removes exactly the zone entries of its own tenant. */
  lemma InvalidationIsExact(w: World, s: Sys, tenant: string, e: Entry<View>)
    requires WritesApart(w) && Inside(w, s) && tenant in w.tenants && e in s.entries
    ensures e in AfterDeletePrefix(s.entries, Prefix(tenant)) <==> !(IsZone(e) && e.value.tenant == tenant)
  {
    KeepMembers(s.entries, NotUnder(Prefix(tenant)));
    if IsZone(e) {
      var v :| v in w.views && e.key == Key(e.value.tenant, v);
      KeyUnderPrefix(e.value.tenant, v);
    } else {
      KeyUnderPrefix(tenant, "");
      Nested(e.key, Prefix(tenant), "vtz:");
    }
  }

  lemma RunDropsOwn(c: Config, w: World, actions: seq<Action>, a: Action)
    requires WritesApart(w) && AllFrom(w, actions)
    ensures DropsOwn(c, Run(c, actions), a)
  {
    var s := Run(c, actions);
    RunStaysInside(c, w, actions);
    if a.FinishWrite? && a.id in s.writers && s.writers[a.id].commit.Some? {
      forall e | e in s.entries
        ensures e in Step(c, s, a).entries <==> !(IsZone(e) && e.value.tenant == s.writers[a.id].tenant)
      {
        InvalidationIsExact(w, s, s.writers[a.id].tenant, e);
      }
    }
  }

  /** A run after which finishing the write drops the other tenant's view. */
  function CrossingRun(t: string, u: string, view: string): (actions: seq<Action>) {
    CachingRun(u, view) + [BeginWrite(0, t)] + [Commit(0)]
  }

  lemma CrossDrop(c: Config, t: string, u: string, view: string)
    requires t != u && StartsWith(Key(u, view), Prefix(t))
    ensures !DropsOwn(c, Run(c, CrossingRun(t, u, view)), FinishWrite(0))
  {
    Caches(c, u, view);
    RunThen(c, CachingRun(u, view), BeginWrite(0, t));
    RunThen(c, CachingRun(u, view) + [BeginWrite(0, t)], Commit(0));
    var s := Run(c, CrossingRun(t, u, view));
    var e := Entry(Key(u, view), View(u, 0), VERSION, c.ttl);
    assert s.entries == [e] && 0 in s.writers && s.writers[0] == Write(t, Some(1));
    assert e in s.entries;
    KeepMembers(s.entries, NotUnder(Prefix(t)));
  }

  /** Writes drop exactly their own tenant's views exactly when no tenant's prefix covers another's key. */
  lemma WritesStayExactly(c: Config, w: World)
    ensures (forall actions, a | AllFrom(w, actions) :: DropsOwn(c, Run(c, actions), a)) <==> WritesApart(w)
  {
    if WritesApart(w) {
      forall actions, a | AllFrom(w, actions) ensures DropsOwn(c, Run(c, actions), a) {
        RunDropsOwn(c, w, actions, a);
      }
    } else {
      var t, u, v :| t in w.tenants && u in w.tenants && t != u && v in w.views && StartsWith(Key(u, v), Prefix(t));
      CrossDrop(c, t, u, v);
      assert AllFrom(w, CrossingRun(t, u, v));
    }
  }

  // ---- both ---------------------------------------------------------------------------------------

  /** No tenant's prefix is a prefix of another's. */
  ghost predicate Separate(tenants: iset<string>) {
    forall t, u | t in tenants && u in tenants && t != u :: !StartsWith(Prefix(u), Prefix(t))
  }

  lemma SeparateIsApart(w: World)
    requires Separate(w.tenants)
    ensures KeysApart(w) && WritesApart(w)
  {
    forall t, u, v | t in w.tenants && u in w.tenants && t != u && v in w.views
      ensures !KeyOf(w, Key(t, v), u) && !StartsWith(Key(u, v), Prefix(t))
    {
      KeysMeetExactly(t, u);
      PrefixCovers(t, u, v);
    }
  }

  lemma ApartIsSeparate(w: World, view: string)
    requires WritesApart(w) && view in w.views
    ensures Separate(w.tenants)
  {
    forall t, u | t in w.tenants && u in w.tenants && t != u ensures !StartsWith(Prefix(u), Prefix(t)) {
      PrefixCovers(t, u, view);
      assert !StartsWith(Key(u, view), Prefix(t));
    }
  }

  /** Every run of the tenants answers and invalidates only within the asking tenant, exactly when no
      tenant's prefix is a prefix of another's. */
  lemma TenantsStayExactly(c: Config, w: World, view: string)
    requires c.ttl > 0 && view in w.views
    ensures (&& (forall actions | AllFrom(w, actions) :: AnswersStay(Run(c, actions)))
             && (forall actions, a | AllFrom(w, actions) :: DropsOwn(c, Run(c, actions), a)))
            <==> Separate(w.tenants)
  {
    AnswersStayExactly(c, w);
    WritesStayExactly(c, w);
    if Separate(w.tenants) {
      SeparateIsApart(w);
    } else if WritesApart(w) {
      ApartIsSeparate(w, view);
    }
  }

  /** Colon-free tenants are such tenants. */
  lemma ColonFreeSeparate(tenants: iset<string>)
    requires forall t | t in tenants :: ColonFree(t)
    ensures Separate(tenants)
  {
    forall t, u | t in tenants && u in tenants && t != u ensures !StartsWith(Prefix(u), Prefix(t)) {
      ColonFreeApart(t, u);
    }
  }

  // ---- freshness ----------------------------------------------------------------------------------

  /** A read about to store a snapshot older than a commit already acknowledged to a writer: it took its
      engine snapshot before that commit and finishes after its invalidation. */
  predicate Overtaken(s: Sys, a: Action) {
    && a.FinishRead? && a.id in s.readers && s.readers[a.id].snapshot.Some?
    && s.readers[a.id].snapshot.value < At(s.acked, s.readers[a.id].tenant)
  }

  ghost predicate FreshEntry(acked: map<string, nat>, e: Entry<View>) {
    IsZone(e) ==> e.value.snapshot >= At(acked, e.value.tenant)
  }

  ghost predicate FreshServed(r: Served) {
    r.value.tenant == r.tenant ==> r.value.snapshot >= r.floor
  }

  /** No cached view, and no answer with the asking tenant's own view, is older than an acknowledged write. */
  ghost predicate Fresh(s: Sys) {
    && (forall e | e in s.entries :: FreshEntry(s.acked, e))
    && (forall i | 0 <= i < |s.served| :: FreshServed(s.served[i]))
  }

  lemma BeginFresh(c: Config, s: Sys, id: nat, tenant: string, view: string)
    requires Fresh(s)
    ensures Fresh(Begin(c, s, id, tenant, view))
  {
    var key := Key(tenant, view);
    match Lookup(s.entries, key, VERSION, s.now)
    case Some(v) =>
      HitEntry(s, tenant, view);
      assert FreshEntry(s.acked, s.entries[Find(s.entries, key)]);
    case None =>
      KeepMembers(s.entries, OtherThan(key));
  }

  lemma FinishFresh(c: Config, s: Sys, id: nat)
    requires Inv(c, s) && Fresh(s) && id in s.readers && s.readers[id].snapshot.Some? && !Overtaken(s, FinishRead(id))
    ensures Fresh(Finish(c, s, id))
  {
    KeepMembers(s.entries, OtherThan(Stored(c, s, s.readers[id]).key));
    assert GoodRead(s.committed, s.readers[id]);
  }

  lemma InvalidateFresh(c: Config, s: Sys, id: nat)
    requires Inv(c, s) && Fresh(s) && id in s.writers && s.writers[id].commit.Some?
    ensures Fresh(Invalidate(s, id))
  {
    var t, r := s.writers[id].tenant, Invalidate(s, id);
    KeepMembers(s.entries, NotUnder(Prefix(t)));
    forall e | e in r.entries ensures FreshEntry(r.acked, e) {
      assert FreshEntry(s.acked, e) && GoodEntry(c, s.now, s.committed, e);
      assert !StartsWith(e.key, Prefix(t));
    }
  }

  lemma StepFresh(c: Config, s: Sys, a: Action)
    requires Inv(c, s) && Fresh(s) && !Overtaken(s, a)
    ensures Fresh(Step(c, s, a))
  {
    match a
    case BeginRead(id, tenant, view) => if id !in s.readers { BeginFresh(c, s, id, tenant, view); }
    case FinishRead(id) => if id in s.readers && s.readers[id].snapshot.Some? { FinishFresh(c, s, id); }
    case FinishWrite(id) => if id in s.writers && s.writers[id].commit.Some? { InvalidateFresh(c, s, id); }
    case OtherSet(e) => KeepMembers(s.entries, OtherThan(e.key));
    case OtherDelete(prefix) => KeepMembers(s.entries, NotUnder(prefix));
    case _ =>
  }

  /** If no read of a tenant spans an invalidation with an older engine snapshot, every answer with the
      asking tenant's view reflects every write acknowledged before it was asked for. */
  lemma {:induction false} FreshRun(c: Config, actions: seq<Action>)
    requires forall i | 0 <= i < |actions| :: !Overtaken(Run(c, actions[..i]), actions[i])
    ensures Fresh(Run(c, actions))
  {
    if actions != [] {
      var before, n := actions[..|actions| - 1], |actions| - 1;
      forall i | 0 <= i < |before| ensures !Overtaken(Run(c, before[..i]), before[i]) {
        assert before[i] == actions[i] && before[..i] == actions[..i];
      }
      FreshRun(c, before);
      EveryRun(c, before);
      StepFresh(c, Run(c, before), actions[n]);
    }
  }

  lemma OvertakenIsStale(c: Config, s: Sys, a: Action)
    requires Overtaken(s, a)
    ensures !Fresh(Step(c, s, a))
  {
    var read := s.readers[a.id];
    var e, r := Stored(c, s, read), Step(c, s, a);
    assert r.entries[|r.entries| - 1] == e;
    assert e in r.entries && !FreshEntry(r.acked, e);
  }

  /** No prefix of a run leaves anything older than an acknowledged write, exactly when the run has no
      overtaken read. */
  lemma FreshExactly(c: Config, actions: seq<Action>)
    ensures (forall i | 0 <= i <= |actions| :: Fresh(Run(c, actions[..i])))
            <==> (forall i | 0 <= i < |actions| :: !Overtaken(Run(c, actions[..i]), actions[i]))
  {
    if forall i | 0 <= i <= |actions| :: Fresh(Run(c, actions[..i])) {
      forall i | 0 <= i < |actions| ensures !Overtaken(Run(c, actions[..i]), actions[i]) {
        FreshStepIsTimely(c, actions, i);
      }
    } else if forall i | 0 <= i < |actions| :: !Overtaken(Run(c, actions[..i]), actions[i]) {
      forall i | 0 <= i <= |actions| ensures Fresh(Run(c, actions[..i])) {
        FreshPrefix(c, actions, i);
      }
    }
  }

  lemma FreshStepIsTimely(c: Config, actions: seq<Action>, i: nat)
    requires i < |actions| && Fresh(Run(c, actions[..i + 1]))
    ensures !Overtaken(Run(c, actions[..i]), actions[i])
  {
    assert actions[..i + 1][..i] == actions[..i];
    if Overtaken(Run(c, actions[..i]), actions[i]) {
      OvertakenIsStale(c, Run(c, actions[..i]), actions[i]);
    }
  }

  lemma FreshPrefix(c: Config, actions: seq<Action>, i: nat)
    requires i <= |actions| && forall j | 0 <= j < |actions| :: !Overtaken(Run(c, actions[..j]), actions[j])
    ensures Fresh(Run(c, actions[..i]))
  {
    forall j | 0 <= j < i ensures !Overtaken(Run(c, actions[..i][..j]), actions[..i][j]) {
      assert actions[..i][..j] == actions[..j];
    }
    FreshRun(c, actions[..i]);
  }

  /** The condition is needed: after an overtaken read, asking again at once is answered from the cache
      with the view from before the acknowledged write. */
  lemma OvertakenReadIsServedStale(c: Config, s: Sys, id: nat, again: nat)
    requires Overtaken(s, FinishRead(id)) && c.ttl > 0 && again !in s.readers
    ensures var r := s.readers[id];
            var s' := Step(c, Step(c, s, FinishRead(id)), BeginRead(again, r.tenant, r.view));
            && |s'.served| == |s.served| + 2
            && !FreshServed(s'.served[|s.served| + 1])
  {
    var r := s.readers[id];
    var e, s1 := Stored(c, s, r), Finish(c, s, id);
    KeepMembers(s.entries, OtherThan(e.key));
    var others := s1.entries[..|s1.entries| - 1];
    assert s1.entries == others + [e];
    FindLast(others, e);
  }

  lemma {:induction false} FindLast(es: seq<Entry<View>>, e: Entry<View>)
    requires forall x | x in es :: x.key != e.key
    ensures Find(es + [e], e.key) == |es|
  {
    if es != [] {
      assert (es + [e])[1..] == es[1..] + [e];
      assert es[0] in es;
      FindLast(es[1..], e);
    }
  }

  lemma RunThen(c: Config, actions: seq<Action>, a: Action)
    ensures Run(c, actions + [a]) == Step(c, Run(c, actions), a)
  {
    assert (actions + [a])[..|actions|] == actions;
  }

  /** Such a run exists, for every tenant: one read that takes its snapshot before a write of the same
      tenant and finishes after it, and the question asked again. */
  lemma StaleReadHappens(c: Config, tenant: string, view: string) returns (actions: seq<Action>)
    requires c.ttl > 0
    ensures !Fresh(Run(c, actions))
  {
    var race := OvertakenRun(c, tenant, view);
    OvertakenReadIsServedStale(c, Run(c, race), 0, 1);
    var a, b := FinishRead(0), BeginRead(1, tenant, view);
    RunThen(c, race, a);
    RunThen(c, race + [a], b);
    actions := race + [a] + [b];
  }

  lemma OvertakenRun(c: Config, tenant: string, view: string) returns (actions: seq<Action>)
    ensures var s := Run(c, actions);
            && Overtaken(s, FinishRead(0)) && 1 !in s.readers
            && s.readers[0].tenant == tenant && s.readers[0].view == view
  {
    var l1 := [] + [BeginRead(0, tenant, view)];
    RunThen(c, [], BeginRead(0, tenant, view));
    var s1 := Run(c, l1);
    assert s1 == START.(readers := map[0 := Read(tenant, view, 0, None)]);
    var l2 := l1 + [EngineReads(0)];
    RunThen(c, l1, EngineReads(0));
    var l3 := l2 + [BeginWrite(0, tenant)];
    RunThen(c, l2, BeginWrite(0, tenant));
    var s3 := Run(c, l3);
    assert s3 == START.(readers := map[0 := Read(tenant, view, 0, Some(0))], writers := map[0 := Write(tenant, None)]);
    var l4 := l3 + [Commit(0)];
    RunThen(c, l3, Commit(0));
    RunThen(c, l4, FinishWrite(0));
    actions := l4 + [FinishWrite(0)];
    assert At(Run(c, actions).acked, tenant) == 1;
  }
}
