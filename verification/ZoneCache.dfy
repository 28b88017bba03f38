/**
 * The cached zone reads as operations on the cache: which of them answer from it, and how many commits
 * an answer from the engine reflects.
 */
module ZoneCache {
  import opened Bytes
  import opened Cache
  import opened ZoneReads

  // ---- the actions as operations ------------------------------------------------------------------

  /** What an action does to the cache: a read looks its key up, a read that comes back from the engine
      stores its view for one TTL, a write that comes back drops its tenant's views, and nothing else, a
      failure included, touches it. */
  function ZoneOp(c: ZoneReads.Config, s: Sys, a: Action): (op: Op<View>) {
    match a
    case BeginRead(id, tenant, view) =>
      if id in s.readers then Idle else Get("vtz:" + tenant + ":" + view, VERSION, s.now)
    case FinishRead(id) =>
      if id in s.readers && s.readers[id].snapshot.Some? then
        var r := s.readers[id];
        Set("vtz:" + r.tenant + ":" + r.view, View(r.tenant, r.snapshot.value), VERSION, s.now)
      else Idle
    case FinishWrite(id) =>
      if id in s.writers && s.writers[id].commit.Some?
      then DeletePrefix("vtz:" + s.writers[id].tenant + ":") else Idle
    case OtherSet(e) =>
      if StartsWith(e.key, "vtz:") then Idle else Set(e.key, e.value, e.version, e.expiresAt - c.ttl)
    case OtherDelete(prefix) => DeletePrefix(prefix)
    case _ => Idle
  }

  function ZoneOps(c: ZoneReads.Config, actions: seq<Action>): (ops: seq<Op<View>>)
    ensures |ops| == |actions|
  {
    seq(|actions|, i requires 0 <= i < |actions| => ZoneOp(c, ZoneReads.Run(c, actions[..i]), actions[i]))
  }

  lemma StepEntries(c: ZoneReads.Config, s: Sys, a: Action)
    ensures Step(c, s, a).entries == Apply(c.ttl, c.max, s.entries, ZoneOp(c, s, a))
  {
  }

  lemma ZoneOpsPrefix(c: ZoneReads.Config, actions: seq<Action>, j: nat)
    requires j <= |actions|
    ensures ZoneOps(c, actions)[..j] == ZoneOps(c, actions[..j])
  {
    forall i | 0 <= i < j ensures actions[..j][..i] == actions[..i] {}
  }

  /** In every run the cache is that of these operations. */
  lemma {:induction false} EntriesAreCache(c: ZoneReads.Config, actions: seq<Action>)
    ensures ZoneReads.Run(c, actions).entries == Cache.Run(c.ttl, c.max, ZoneOps(c, actions))
  {
    if actions != [] {
      var n := |actions| - 1;
      EntriesAreCache(c, actions[..n]);
      StepEntries(c, ZoneReads.Run(c, actions[..n]), actions[n]);
      ZoneOpsPrefix(c, actions, n);
    }
  }

  /** A read is answered from the cache exactly when its key is held and has not expired, and then with the
      value held; otherwise it goes to the engine. */
  lemma ReadHitsExactly(c: ZoneReads.Config, actions: seq<Action>, id: nat, tenant: string, view: string, v: View)
    requires id !in ZoneReads.Run(c, actions).readers
    ensures var s, r := ZoneReads.Run(c, actions), ZoneReads.Run(c, actions + [BeginRead(id, tenant, view)]);
            var key := "vtz:" + tenant + ":" + view;
            && (AnsweredWith(s, r, v) <==> exists i, e ::
                  HeldSince(c.ttl, c.max, ZoneOps(c, actions), i, e) && e.key == key && e.version == VERSION
                  && e.value == v && s.now < e.expiresAt)
            && (id in r.readers <==> r.served == s.served)
            && (id in r.readers ==> r.readers[id].tenant == tenant && r.readers[id].view == view)
  {
    var s := ZoneReads.Run(c, actions);
    RunThen(c, actions, BeginRead(id, tenant, view));
    BeginAnswers(c, s, id, tenant, view, v);
    EntriesAreCache(c, actions);
    HitExactly(c.ttl, c.max, ZoneOps(c, actions), "vtz:" + tenant + ":" + view, VERSION, s.now, v);
  }

  /** One more answer, and it is `v`. */
  predicate AnsweredWith(s: Sys, r: Sys, v: View) {
    |r.served| == |s.served| + 1 && r.served[|s.served|].value == v
  }

  lemma BeginAnswers(c: ZoneReads.Config, s: Sys, id: nat, tenant: string, view: string, v: View)
    requires id !in s.readers
    ensures var r, key := Step(c, s, BeginRead(id, tenant, view)), "vtz:" + tenant + ":" + view;
            && (AnsweredWith(s, r, v) <==> Lookup(s.entries, key, VERSION, s.now) == Some(v))
            && (id in r.readers <==> r.served == s.served)
            && (id in r.readers ==> r.readers[id].tenant == tenant && r.readers[id].view == view)
  {
  }

  // ---- commits ------------------------------------------------------------------------------------

  /** A write of the tenant reaches the engine. */
  predicate Commits(s: Sys, a: Action, tenant: string) {
    a.Commit? && a.id in s.writers && s.writers[a.id].commit.None? && s.writers[a.id].tenant == tenant
  }

  /** How many writes of the tenant have reached the engine. */
  function CommitCount(c: ZoneReads.Config, actions: seq<Action>, tenant: string): (n: nat) {
    if actions == [] then 0
    else
      var before, a := actions[..|actions| - 1], actions[|actions| - 1];
      CommitCount(c, before, tenant) + if Commits(ZoneReads.Run(c, before), a, tenant) then 1 else 0
  }

  lemma StepCommits(c: ZoneReads.Config, s: Sys, a: Action, tenant: string)
    ensures At(Step(c, s, a).committed, tenant)
            == At(s.committed, tenant) + if Commits(s, a, tenant) then 1 else 0
  {
  }

  lemma {:induction false} CommittedCounts(c: ZoneReads.Config, actions: seq<Action>, tenant: string)
    ensures At(ZoneReads.Run(c, actions).committed, tenant) == CommitCount(c, actions, tenant)
  {
    if actions != [] {
      var before := actions[..|actions| - 1];
      CommittedCounts(c, before, tenant);
      StepCommits(c, ZoneReads.Run(c, before), actions[|actions| - 1], tenant);
    }
  }

  /** `actions[i]` is the engine's answer to the read, which holds its tenant's commits up to then. */
  ghost predicate SnappedAt(c: ZoneReads.Config, actions: seq<Action>, i: int, id: nat, r: Read) {
    && 0 <= i < |actions| && actions[i] == EngineReads(id)
    && r.snapshot == Some(CommitCount(c, actions[..i], r.tenant))
  }

  /** A read has something new from the engine only when the engine answers it. */
  lemma NewSnapshot(c: ZoneReads.Config, s: Sys, a: Action, id: nat)
    requires var r := Step(c, s, a);
             && id in r.readers && r.readers[id].snapshot.Some?
             && !(id in s.readers && s.readers[id] == r.readers[id])
    ensures var r := Step(c, s, a).readers[id];
            a == EngineReads(id) && r.snapshot == Some(At(s.committed, r.tenant))
  {
  }

  /** In every run what a read has from the engine are its tenant's commits when the engine answered it. */
  lemma {:induction false} SnapshotIsCount(c: ZoneReads.Config, actions: seq<Action>, id: nat) returns (i: nat)
    requires var s := ZoneReads.Run(c, actions); id in s.readers && s.readers[id].snapshot.Some?
    ensures SnappedAt(c, actions, i, id, ZoneReads.Run(c, actions).readers[id])
    decreases |actions|
  {
    var n := |actions| - 1;
    var s := ZoneReads.Run(c, actions[..n]);
    if id in s.readers && s.readers[id] == ZoneReads.Run(c, actions).readers[id] {
      i := SnapshotIsCount(c, actions[..n], id);
      assert actions[..n][..i] == actions[..i];
    } else {
      NewSnapshot(c, s, actions[n], id);
      CommittedCounts(c, actions[..n], ZoneReads.Run(c, actions).readers[id].tenant);
      i := n;
    }
  }

  /** A read that comes back is answered with what it has from the engine, under its own tenant. */
  lemma EngineAnswers(c: ZoneReads.Config, s: Sys, id: nat)
    requires id in s.readers && s.readers[id].snapshot.Some?
    ensures var r, read := Step(c, s, FinishRead(id)), s.readers[id];
            && AnsweredWith(s, r, View(read.tenant, read.snapshot.value))
            && r.served[|s.served|].tenant == read.tenant && r.readers == s.readers - {id}
  {
  }
}
