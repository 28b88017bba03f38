/** The BFF's ephemeral cache: bounded, version-tagged, expiring; entries in insertion order. */
module Cache {
  import opened Bytes

  datatype Entry<V> = Entry(key: string, value: V, version: string, expiresAt: int)

  predicate StartsWith(s: string, prefix: string) {
    |prefix| <= |s| && s[..|prefix|] == prefix
  }

  // ---- operations on the entry list ---------------------------------------------------------------

  ghost predicate Distinct<V>(es: seq<Entry<V>>) {
    forall i, j | 0 <= i < j < |es| :: es[i].key != es[j].key
  }

  /** The position of a key, or the length when absent. */
  function Find<V>(es: seq<Entry<V>>, key: string): (i: nat)
    ensures i <= |es| && (i < |es| ==> es[i].key == key)
    ensures forall j | 0 <= j < i :: es[j].key != key
  {
    if es == [] || es[0].key == key then 0
    else
      var i := 1 + Find(es[1..], key);
      assert forall j | 0 < j < i :: es[j] == es[1..][j - 1];
      i
  }

  /** Entries satisfying a test, in order. */
  function Keep<V>(es: seq<Entry<V>>, p: string -> bool): (r: seq<Entry<V>>)
  {
    if es == [] then [] else (if p(es[0].key) then [es[0]] else []) + Keep(es[1..], p)
  }

  function OtherThan(key: string): (p: string -> bool) {
    k => k != key
  }

  function NotUnder(prefix: string): (p: string -> bool) {
    k => !StartsWith(k, prefix)
  }

  function Remove<V>(es: seq<Entry<V>>, key: string): (r: seq<Entry<V>>)
  {
    Keep(es, OtherThan(key))
  }

  function Lookup<V>(es: seq<Entry<V>>, key: string, version: string, now: int): (hit: Option<V>) {
    var i := Find(es, key);
    if i < |es| && es[i].version == version && es[i].expiresAt > now then Some(es[i].value) else None
  }

  /** The entries after `get`: a version mismatch or expiry deletes the entry. */
  function AfterGet<V>(es: seq<Entry<V>>, key: string, version: string, now: int): (r: seq<Entry<V>>) {
    if Find(es, key) < |es| && Lookup(es, key, version, now).None? then Remove(es, key) else es
  }

  function AfterSet<V>(es: seq<Entry<V>>, max: nat, e: Entry<V>): (r: seq<Entry<V>>) {
    var others := Remove(es, e.key);
    (if |others| >= max && others != [] then others[1..] else others) + [e]
  }

  function AfterDeletePrefix<V>(es: seq<Entry<V>>, prefix: string): (r: seq<Entry<V>>) {
    Keep(es, NotUnder(prefix))
  }

  lemma {:induction false} KeepLength<V>(es: seq<Entry<V>>, p: string -> bool)
    ensures |Keep(es, p)| <= |es|
  {
    if es != [] {
      KeepLength(es[1..], p);
    }
  }

  lemma {:induction false} KeepMembers<V>(es: seq<Entry<V>>, p: string -> bool)
    ensures forall e | e in Keep(es, p) :: e in es && p(e.key)
    ensures forall e | e in es && p(e.key) :: e in Keep(es, p)
  {
    if es != [] {
      KeepMembers(es[1..], p);
      assert es == [es[0]] + es[1..];
    }
  }

  lemma HeadIsNew<V>(es: seq<Entry<V>>)
    requires Distinct(es) && es != []
    ensures forall e | e in es[1..] :: e.key != es[0].key
  {
    forall e | e in es[1..] ensures e.key != es[0].key {
      var j :| 0 <= j < |es[1..]| && es[1..][j] == e;
      assert es[j + 1] == e;
    }
  }

  lemma {:induction false} KeepDistinct<V>(es: seq<Entry<V>>, p: string -> bool)
    requires Distinct(es)
    ensures Distinct(Keep(es, p))
  {
    if es != [] {
      var rest := Keep(es[1..], p);
      KeepDistinct(es[1..], p);
      KeepMembers(es[1..], p);
      HeadIsNew(es);
      assert forall j | 0 <= j < |rest| :: rest[j] in rest;
    }
  }

  lemma TailMembers<T>(s: seq<T>, rest: seq<T>)
    requires s != [] && rest == s[1..]
    ensures s == [s[0]] + rest && s[0] in s && forall x | x in rest :: x in s
  {
  }

  lemma {:induction false} KeepAll<V>(es: seq<Entry<V>>, p: string -> bool)
    requires forall e | e in es :: p(e.key)
    ensures Keep(es, p) == es
  {
    if es != [] {
      var rest := es[1..];
      TailMembers(es, rest);
      KeepAll(rest, p);
    }
  }

  // ---- the class ----------------------------------------------------------------------------------

  class EphemeralCache<V> {
    const ttl: nat
    const max: nat
    var entries: seq<Entry<V>>

    ghost predicate Valid()
      reads this
    {
      Distinct(entries)
    }

    constructor (ttl: nat, max: nat)
      ensures Valid() && entries == [] && this.ttl == ttl && this.max == max
    {
      this.ttl, this.max, this.entries := ttl, max, [];
    }

    /** `Map.delete`. */
    method Delete(key: string)
      requires Valid()
      modifies this
      ensures Valid() && entries == Remove(old(entries), key)
    {
      var i := Find(entries, key);
      RemoveAt(entries, key);
      KeepDistinct(entries, OtherThan(key));
      if i < |entries| {
        entries := entries[..i] + entries[i + 1..];
      }
    }

    method Clear()
      modifies this
      ensures Valid() && entries == []
    {
      entries := [];
    }

    method Get(key: string, version: string, now: int) returns (hit: Option<V>)
      requires Valid()
      modifies this
      ensures Valid()
      ensures hit == Lookup(old(entries), key, version, now)
      ensures entries == AfterGet(old(entries), key, version, now)
    {
      var i := Find(entries, key);
      if i == |entries| {
        return None;
      }
      var entry := entries[i];
      if entry.version != version || entry.expiresAt <= now {
        Delete(key);
        return None;
      }
      hit := Some(entry.value);
    }

    method Set(key: string, value: V, version: string, now: int)
      requires Valid()
      modifies this
      ensures Valid()
      ensures entries == AfterSet(old(entries), max, Entry(key, value, version, now + ttl))
      ensures old(|entries|) <= max && max > 0 ==> |entries| <= max
    {
      SetKeeps(entries, max, Entry(key, value, version, now + ttl));
      Delete(key);
      if |entries| >= max && entries != [] {
        FirstRemoved(entries);
        Delete(entries[0].key);
      }
      entries := entries + [Entry(key, value, version, now + ttl)];
    }

    method DeletePrefix(prefix: string)
      requires Valid()
      modifies this
      ensures Valid() && entries == AfterDeletePrefix(old(entries), prefix)
    {
      var keys := seq(|entries|, i requires 0 <= i < |entries| reads this => entries[i].key);
      ghost var p := NotUnder(prefix);
      ghost var all := entries;
      for i := 0 to |keys|
        invariant Valid() && entries == Keep(all[..i], p) + all[i..]
      {
        var k := keys[i];
        FilterStep(all, i, p);
        if StartsWith(k, prefix) {
          Delete(k);
        }
      }
      assert all[..|keys|] == all;
    }
  }

  /** Storing keeps keys distinct and, with room for at least one entry, the bound. */
  lemma SetKeeps<V>(es: seq<Entry<V>>, max: nat, e: Entry<V>)
    requires Distinct(es)
    ensures Distinct(AfterSet(es, max, e))
    ensures |es| <= max && max > 0 ==> |AfterSet(es, max, e)| <= max
  {
    var others := Remove(es, e.key);
    KeepLength(es, OtherThan(e.key));
    KeepDistinct(es, OtherThan(e.key));
    KeepMembers(es, OtherThan(e.key));
    assert forall j | 0 <= j < |others| :: others[j] in others;
  }

  lemma FilterStep<V>(all: seq<Entry<V>>, i: nat, p: string -> bool)
    requires i < |all| && Distinct(Keep(all[..i], p) + all[i..])
    ensures var before, after := Keep(all[..i], p) + all[i..], Keep(all[..i + 1], p) + all[i + 1..];
            after == if p(all[i].key) then before else Remove(before, all[i].key)
  {
    var kept := Keep(all[..i], p);
    assert all[..i + 1] == all[..i] + [all[i]] && all[i..] == [all[i]] + all[i + 1..];
    KeepAppend(all[..i], all[i], p);
    if p(all[i].key) {
      Concat3(kept, [all[i]], all[i + 1..]);
    } else {
      RemoveMiddle(kept, all[i], all[i + 1..]);
    }
  }

  lemma {:induction false} KeepConcat<V>(a: seq<Entry<V>>, b: seq<Entry<V>>, p: string -> bool)
    ensures Keep(a + b, p) == Keep(a, p) + Keep(b, p)
    decreases |a|
  {
    if a == [] {
      assert a + b == b && Keep(a, p) + Keep(b, p) == Keep(b, p);
    } else {
      assert (a + b)[1..] == a[1..] + b && (a + b)[0] == a[0];
      KeepConcat(a[1..], b, p);
      Concat3(if p(a[0].key) then [a[0]] else [], Keep(a[1..], p), Keep(b, p));
    }
  }

  lemma RemoveBetween<V>(a: seq<Entry<V>>, e: Entry<V>, b: seq<Entry<V>>)
    requires (forall x | x in a :: x.key != e.key) && (forall x | x in b :: x.key != e.key)
    ensures Remove(a + [e] + b, e.key) == a + b
  {
    var p := OtherThan(e.key);
    KeepConcat(a + [e], b, p);
    KeepConcat(a, [e], p);
    KeepAll(a, p);
    KeepAll(b, p);
    assert Keep([e], p) == [];
    assert a + [] == a;
  }

  lemma RemoveAt<V>(es: seq<Entry<V>>, key: string)
    requires Distinct(es)
    ensures var i := Find(es, key);
            Remove(es, key) == if i < |es| then es[..i] + es[i + 1..] else es
  {
    var i := Find(es, key);
    if i == |es| {
      KeepAll(es, OtherThan(key));
    } else {
      assert es == es[..i] + [es[i]] + es[i + 1..];
      RemoveBetween(es[..i], es[i], es[i + 1..]);
    }
  }

  lemma FirstRemoved<V>(es: seq<Entry<V>>)
    requires es != [] && Distinct(es)
    ensures Remove(es, es[0].key) == es[1..]
  {
    RemoveAt(es, es[0].key);
  }

  lemma KeepAppend<V>(es: seq<Entry<V>>, e: Entry<V>, p: string -> bool)
    ensures Keep(es + [e], p) == Keep(es, p) + (if p(e.key) then [e] else [])
  {
    KeepConcat(es, [e], p);
    assert Keep([e], p) == if p(e.key) then [e] else [];
  }

  lemma RemoveMiddle<V>(a: seq<Entry<V>>, e: Entry<V>, b: seq<Entry<V>>)
    requires Distinct(a + ([e] + b))
    ensures Remove(a + ([e] + b), e.key) == a + b
  {
    var es := a + ([e] + b);
    assert es[|a|] == e;
    forall k | 0 <= k < |a| ensures a[k].key != e.key {
      assert es[k] == a[k];
    }
    forall k | 0 <= k < |b| ensures b[k].key != e.key {
      assert es[|a| + 1 + k] == b[k];
    }
    RemoveBetween(a, e, b);
    Concat3(a, [e], b);
  }

  // ---- the cache as a log of operations -----------------------------------------------------------

  /** `Delete` is `Map.delete`, which the login and session stores also use, and `Idle` is something that
      happens elsewhere. */
  datatype Op<V> =
    | Set(key: string, value: V, version: string, at: int)
    | Get(key: string, version: string, at: int)
    | DeletePrefix(prefix: string)
    | Delete(key: string)
    | Clear
    | Idle

  function Apply<V>(ttl: nat, max: nat, es: seq<Entry<V>>, op: Op<V>): (r: seq<Entry<V>>) {
    match op
    case Set(key, value, version, at) => AfterSet(es, max, Entry(key, value, version, at + ttl))
    case Get(key, version, at) => AfterGet(es, key, version, at)
    case DeletePrefix(prefix) => AfterDeletePrefix(es, prefix)
    case Delete(key) => Remove(es, key)
    case Clear => []
    case Idle => es
  }

  function Run<V>(ttl: nat, max: nat, log: seq<Op<V>>): (es: seq<Entry<V>>) {
    if log == [] then [] else Apply(ttl, max, Run(ttl, max, log[..|log| - 1]), log[|log| - 1])
  }

  /** An operation after which an entry must not be served: another store under its key, its deletion, a
      matching prefix deletion, a clear, or a read that finds it outdated. */
  predicate Kills<V>(op: Op<V>, e: Entry<V>) {
    match op
    case Set(k, _, _, _) => k == e.key
    case Get(k, version, at) => k == e.key && !(version == e.version && at < e.expiresAt)
    case DeletePrefix(prefix) => StartsWith(e.key, prefix)
    case Delete(k) => k == e.key
    case Clear => true
    case Idle => false
  }

  /** `log[i]` is the operation that stored `e`, and nothing since has killed it. */
  ghost predicate StoredBy<V>(ttl: nat, log: seq<Op<V>>, i: int, e: Entry<V>) {
    && 0 <= i < |log| && log[i] == Set(e.key, e.value, e.version, e.expiresAt - ttl)
    && forall j | i < j < |log| :: !Kills(log[j], e)
  }

  lemma FindsOwn<V>(es: seq<Entry<V>>, e: Entry<V>)
    requires Distinct(es) && e in es
    ensures Find(es, e.key) < |es| && es[Find(es, e.key)] == e
  {
    var k :| 0 <= k < |es| && es[k] == e;
    var i := Find(es, e.key);
    assert i <= k;
    var x := es[i];
    assert x.key == e.key;
  }

  /** What one operation leaves: the entry it stores, and old entries it does not kill. */
  lemma ApplyMembers<V>(ttl: nat, max: nat, es: seq<Entry<V>>, op: Op<V>, e: Entry<V>)
    requires Distinct(es) && e in Apply(ttl, max, es, op)
    ensures (op.Set? && e == Entry(op.key, op.value, op.version, op.at + ttl)) || (e in es && !Kills(op, e))
  {
    match op
    case Set(key, value, version, at) =>
      KeepMembers(es, OtherThan(key));
    case Get(key, version, at) =>
      KeepMembers(es, OtherThan(key));
      FindsOwn(es, e);
    case DeletePrefix(prefix) =>
      KeepMembers(es, NotUnder(prefix));
    case Delete(key) => KeepMembers(es, OtherThan(key));
    case Clear =>
    case Idle =>
  }

  lemma StillStored<V>(ttl: nat, log: seq<Op<V>>, i: int, e: Entry<V>)
    requires log != [] && StoredBy(ttl, log[..|log| - 1], i, e) && !Kills(log[|log| - 1], e)
    ensures StoredBy(ttl, log, i, e)
  {
    assert forall j | 0 <= j < |log| - 1 :: log[j] == log[..|log| - 1][j];
  }

  /** Every entry the cache holds is the last value set for its key, with nothing since that kills it. */
  lemma {:induction false} EntriesAreLastSets<V>(ttl: nat, max: nat, log: seq<Op<V>>)
    ensures forall e | e in Run(ttl, max, log) :: exists i :: StoredBy(ttl, log, i, e)
  {
    if log != [] {
      var before, op, n := log[..|log| - 1], log[|log| - 1], |log| - 1;
      EntriesAreLastSets(ttl, max, before);
      RunDistinct(ttl, max, before);
      forall e | e in Run(ttl, max, log) ensures exists i :: StoredBy(ttl, log, i, e) {
        ApplyMembers(ttl, max, Run(ttl, max, before), op, e);
        if op.Set? && e == Entry(op.key, op.value, op.version, op.at + ttl) {
          assert StoredBy(ttl, log, n, e);
        } else {
          var i :| StoredBy(ttl, before, i, e);
          StillStored(ttl, log, i, e);
        }
      }
    }
  }

  // ---- hits and bounds ----------------------------------------------------------------------------

  /** A hit is the last value set for the key, at the asked version, less than one TTL ago, with no
      matching prefix deletion or clear since. */
  lemma HitIsLastSet<V>(ttl: nat, max: nat, log: seq<Op<V>>, key: string, version: string, now: int)
    requires Lookup(Run(ttl, max, log), key, version, now).Some?
    ensures exists i, e :: StoredBy(ttl, log, i, e) && e.key == key && e.version == version
              && e.value == Lookup(Run(ttl, max, log), key, version, now).value
              && now < log[i].at + ttl
  {
    var es := Run(ttl, max, log);
    var e := es[Find(es, key)];
    EntriesAreLastSets(ttl, max, log);
    assert e in es;
    var i :| StoredBy(ttl, log, i, e);
    assert StoredBy(ttl, log, i, e) && e.key == key;
  }

  lemma {:induction false} RunDistinct<V>(ttl: nat, max: nat, log: seq<Op<V>>)
    ensures Distinct(Run(ttl, max, log))
    ensures max > 0 ==> |Run(ttl, max, log)| <= max
  {
    if log != [] {
      var es, op := Run(ttl, max, log[..|log| - 1]), log[|log| - 1];
      RunDistinct(ttl, max, log[..|log| - 1]);
      match op
      case Set(key, value, version, at) => SetKeeps(es, max, Entry(key, value, version, at + ttl));
      case Get(key, version, at) =>
        KeepDistinct(es, OtherThan(key));
        KeepLength(es, OtherThan(key));
      case DeletePrefix(prefix) =>
        KeepDistinct(es, NotUnder(prefix));
        KeepLength(es, NotUnder(prefix));
      case Delete(key) =>
        KeepDistinct(es, OtherThan(key));
        KeepLength(es, OtherThan(key));
      case Clear =>
      case Idle =>
    }
  }

  /** The size bound holds in every run exactly when it is at least one: with a bound of zero the first
      entry stored stays. */
  lemma BoundIsKept<V(!new)>(ttl: nat, max: nat, v: V)
    ensures (forall log: seq<Op<V>> :: |Run(ttl, max, log)| <= max) <==> max > 0
  {
    if max > 0 {
      forall log: seq<Op<V>> ensures |Run(ttl, max, log)| <= max {
        RunDistinct(ttl, max, log);
      }
    } else {
      var log := [Set("", v, "", 0)];
      assert log[..0] == [];
      assert |Run(ttl, max, log)| == 1;
    }
  }

  // ---- eviction order -----------------------------------------------------------------------------

  ghost predicate ByExpiry<V>(es: seq<Entry<V>>) {
    forall i, j | 0 <= i < j < |es| :: es[i].expiresAt <= es[j].expiresAt
  }

  lemma ByExpiryCons<V>(e: Entry<V>, es: seq<Entry<V>>)
    requires ByExpiry(es) && forall x | x in es :: e.expiresAt <= x.expiresAt
    ensures ByExpiry([e] + es)
  {
  }

  lemma HeadExpiresFirst<V>(es: seq<Entry<V>>, x: Entry<V>)
    requires ByExpiry(es) && es != [] && x in es[1..]
    ensures es[0].expiresAt <= x.expiresAt
  {
    var k :| 0 <= k < |es[1..]| && es[1..][k] == x;
    assert es[k + 1] == x;
  }

  lemma {:induction false} KeepByExpiry<V>(es: seq<Entry<V>>, p: string -> bool)
    requires ByExpiry(es)
    ensures ByExpiry(Keep(es, p))
  {
    if es != [] {
      var rest := Keep(es[1..], p);
      KeepByExpiry(es[1..], p);
      KeepMembers(es[1..], p);
      forall x | x in rest ensures es[0].expiresAt <= x.expiresAt {
        HeadExpiresFirst(es, x);
      }
      ByExpiryCons(es[0], rest);
    }
  }

  /** The clock of the stores never runs backwards, and has reached `now`. */
  ghost predicate ClockUpTo<V>(log: seq<Op<V>>, now: int) {
    && (forall i | 0 <= i < |log| && log[i].Set? :: log[i].at <= now)
    && forall i, j | 0 <= i < j < |log| && log[i].Set? && log[j].Set? :: log[i].at <= log[j].at
  }

  /** With a non-decreasing clock insertion order is expiry order, so the entry evicted at capacity is
      one that expires first. */
  lemma {:induction false} RunByExpiry<V>(ttl: nat, max: nat, log: seq<Op<V>>, now: int)
    requires ClockUpTo(log, now)
    ensures ByExpiry(Run(ttl, max, log))
    ensures forall e | e in Run(ttl, max, log) :: e.expiresAt <= now + ttl
  {
    if log != [] {
      var before, op := log[..|log| - 1], log[|log| - 1];
      var es, t := Run(ttl, max, before), if op.Set? then op.at else now;
      assert forall i | 0 <= i < |before| :: before[i] == log[i];
      RunByExpiry(ttl, max, before, t);
      RunDistinct(ttl, max, before);
      ApplyByExpiry(ttl, max, es, op, t);
      forall e | e in Run(ttl, max, log) ensures e.expiresAt <= now + ttl {
        ApplyMembers(ttl, max, es, op, e);
      }
    }
  }

  lemma ApplyByExpiry<V>(ttl: nat, max: nat, es: seq<Entry<V>>, op: Op<V>, t: int)
    requires ByExpiry(es) && (forall e | e in es :: e.expiresAt <= t + ttl) && (op.Set? ==> op.at == t)
    ensures ByExpiry(Apply(ttl, max, es, op))
  {
    match op
    case Set(key, value, version, at) =>
      var others := Remove(es, key);
      KeepByExpiry(es, OtherThan(key));
      KeepMembers(es, OtherThan(key));
      assert forall j | 0 <= j < |others| :: others[j] in others;
    case Get(key, version, at) => KeepByExpiry(es, OtherThan(key));
    case DeletePrefix(prefix) => KeepByExpiry(es, NotUnder(prefix));
    case Delete(key) => KeepByExpiry(es, OtherThan(key));
    case Clear =>
    case Idle =>
  }

  /** What a store evicts beyond the entry it replaces expires no later than anything left. */
  lemma EvictedExpiresFirst<V>(ttl: nat, max: nat, log: seq<Op<V>>, op: Op<V>, now: int, e: Entry<V>)
    requires ClockUpTo(log + [op], now)
    requires e in Run(ttl, max, log) && !Kills(op, e) && e !in Apply(ttl, max, Run(ttl, max, log), op)
    ensures op.Set? && |Remove(Run(ttl, max, log), op.key)| >= max
    ensures forall y | y in Apply(ttl, max, Run(ttl, max, log), op) :: e.expiresAt <= y.expiresAt
  {
    var es := Run(ttl, max, log);
    RunDistinct(ttl, max, log);
    SparedUnlessEvicted(ttl, max, es, op, e);
    assert (log + [op])[|log|] == op;
    assert forall i | 0 <= i < |log| :: (log + [op])[i] == log[i];
    RunByExpiry(ttl, max, log, op.at);
    var others := Remove(es, op.key);
    KeepByExpiry(es, OtherThan(op.key));
    forall y | y in others[1..] ensures e.expiresAt <= y.expiresAt {
      var k :| 0 <= k < |others[1..]| && others[1..][k] == y;
      assert others[k + 1] == y;
    }
  }

  lemma SparedUnlessEvicted<V>(ttl: nat, max: nat, es: seq<Entry<V>>, op: Op<V>, e: Entry<V>)
    requires Distinct(es) && e in es && !Kills(op, e) && e !in Apply(ttl, max, es, op)
    ensures op.Set? && |Remove(es, op.key)| >= max && Remove(es, op.key) != [] && e == Remove(es, op.key)[0]
  {
    match op
    case Set(key, _, _, _) => KeepMembers(es, OtherThan(key));
    case Get(key, version, at) =>
      KeepMembers(es, OtherThan(key));
      FindsOwn(es, e);
    case DeletePrefix(prefix) => KeepMembers(es, NotUnder(prefix));
    case Delete(key) => KeepMembers(es, OtherThan(key));
    case Clear =>
    case Idle =>
  }

  // ---- exactly which entries survive eviction -----------------------------------------------------

  /** The entries an unbounded cache would hold: all that were stored and not killed, in store order. */
  function Live<V>(ttl: nat, log: seq<Op<V>>): (es: seq<Entry<V>>) {
    if log == [] then []
    else
      var es := Live(ttl, log[..|log| - 1]);
      Apply(ttl, |es| + 1, es, log[|log| - 1])
  }

  lemma SetUnbounded<V>(es: seq<Entry<V>>, e: Entry<V>)
    ensures AfterSet(es, |es| + 1, e) == Remove(es, e.key) + [e]
  {
    KeepLength(es, OtherThan(e.key));
  }

  lemma ApplyDistinct<V>(ttl: nat, max: nat, es: seq<Entry<V>>, op: Op<V>)
    requires Distinct(es)
    ensures Distinct(Apply(ttl, max, es, op))
  {
    match op
    case Set(key, value, version, at) => SetKeeps(es, max, Entry(key, value, version, at + ttl));
    case Get(key, _, _) => KeepDistinct(es, OtherThan(key));
    case DeletePrefix(prefix) => KeepDistinct(es, NotUnder(prefix));
    case Delete(key) => KeepDistinct(es, OtherThan(key));
    case Clear =>
    case Idle =>
  }

  lemma {:induction false} LiveDistinct<V>(ttl: nat, log: seq<Op<V>>)
    ensures Distinct(Live(ttl, log))
  {
    if log != [] {
      var es := Live(ttl, log[..|log| - 1]);
      LiveDistinct(ttl, log[..|log| - 1]);
      ApplyDistinct(ttl, |es| + 1, es, log[|log| - 1]);
    }
  }

  lemma UnboundedSpares<V>(ttl: nat, es: seq<Entry<V>>, op: Op<V>, e: Entry<V>)
    requires Distinct(es) && e in es && !Kills(op, e)
    ensures e in Apply(ttl, |es| + 1, es, op)
  {
    match op
    case Set(key, value, version, at) =>
      KeepMembers(es, OtherThan(key));
      SetUnbounded(es, Entry(key, value, version, at + ttl));
    case Get(key, _, _) =>
      KeepMembers(es, OtherThan(key));
      FindsOwn(es, e);
    case DeletePrefix(prefix) => KeepMembers(es, NotUnder(prefix));
    case Delete(key) => KeepMembers(es, OtherThan(key));
    case Clear =>
    case Idle =>
  }

  lemma StoredBefore<V>(ttl: nat, log: seq<Op<V>>, i: int, e: Entry<V>)
    requires StoredBy(ttl, log, i, e) && i < |log| - 1
    ensures StoredBy(ttl, log[..|log| - 1], i, e) && !Kills(log[|log| - 1], e)
  {
    assert forall j | 0 <= j < |log| - 1 :: log[..|log| - 1][j] == log[j];
  }

  lemma {:induction false} StoredIsLive<V>(ttl: nat, log: seq<Op<V>>, i: int, e: Entry<V>)
    requires StoredBy(ttl, log, i, e)
    ensures e in Live(ttl, log)
    decreases |log|
  {
    var n := |log| - 1;
    var es := Live(ttl, log[..n]);
    if i == n {
      LastSetIsHeld(ttl, |es| + 1, es, e);
    } else {
      StoredBefore(ttl, log, i, e);
      StoredIsLive(ttl, log[..n], i, e);
      LiveDistinct(ttl, log[..n]);
      UnboundedSpares(ttl, es, log[n], e);
    }
  }

  lemma {:induction false} LiveIsStored<V>(ttl: nat, log: seq<Op<V>>, e: Entry<V>) returns (i: nat)
    requires e in Live(ttl, log)
    ensures StoredBy(ttl, log, i, e)
    decreases |log|
  {
    var n := |log| - 1;
    var es := Live(ttl, log[..n]);
    LiveDistinct(ttl, log[..n]);
    ApplyMembers(ttl, |es| + 1, es, log[n], e);
    if e in es && !Kills(log[n], e) {
      i := LiveIsStored(ttl, log[..n], e);
      StillStored(ttl, log, i, e);
    } else {
      i := n;
    }
  }

  /** The live entries are exactly those stored and not killed since. */
  lemma LiveExactly<V>(ttl: nat, log: seq<Op<V>>, e: Entry<V>)
    ensures e in Live(ttl, log) <==> exists i :: StoredBy(ttl, log, i, e)
  {
    if e in Live(ttl, log) {
      var i := LiveIsStored(ttl, log, e);
    }
    if i :| StoredBy(ttl, log, i, e) {
      StoredIsLive(ttl, log, i, e);
    }
  }

  ghost predicate IsSuffix<T>(a: seq<T>, b: seq<T>) {
    |a| <= |b| && a == b[|b| - |a|..]
  }

  lemma SuffixSplits<T>(a: seq<T>, b: seq<T>)
    requires IsSuffix(a, b)
    ensures b == b[..|b| - |a|] + a
  {
  }

  lemma SuffixJoins<T>(p: seq<T>, a: seq<T>)
    ensures IsSuffix(a, p + a)
  {
  }

  lemma KeepSuffix<V>(a: seq<Entry<V>>, b: seq<Entry<V>>, p: string -> bool)
    requires IsSuffix(a, b)
    ensures IsSuffix(Keep(a, p), Keep(b, p))
  {
    SuffixSplits(a, b);
    KeepConcat(b[..|b| - |a|], a, p);
    SuffixJoins(Keep(b[..|b| - |a|], p), Keep(a, p));
  }

  lemma SuffixTail<T>(a: seq<T>, b: seq<T>, x: T)
    requires IsSuffix(a, b)
    ensures IsSuffix(a + [x], b + [x]) && (a != [] ==> IsSuffix(a[1..] + [x], b + [x]))
  {
  }

  lemma SuffixFinds<V>(a: seq<Entry<V>>, b: seq<Entry<V>>, key: string)
    requires IsSuffix(a, b) && Distinct(b) && Find(a, key) < |a|
    ensures Find(b, key) < |b| && b[Find(b, key)] == a[Find(a, key)]
  {
    var i, k := Find(a, key), |b| - |a|;
    assert b[k + i] == a[i];
    FindsOwn(b, a[i]);
  }

  lemma SuffixWithout<V>(a: seq<Entry<V>>, b: seq<Entry<V>>, key: string)
    requires IsSuffix(a, b) && Find(a, key) == |a|
    ensures IsSuffix(a, Remove(b, key))
  {
    KeepSuffix(a, b, OtherThan(key));
    KeepAll(a, OtherThan(key));
  }

  lemma GetSuffix<V>(a: seq<Entry<V>>, b: seq<Entry<V>>, key: string, version: string, now: int)
    requires IsSuffix(a, b) && Distinct(b)
    ensures IsSuffix(AfterGet(a, key, version, now), AfterGet(b, key, version, now))
  {
    if Find(a, key) < |a| {
      SuffixFinds(a, b, key);
      KeepSuffix(a, b, OtherThan(key));
    } else {
      SuffixWithout(a, b, key);
    }
  }

  lemma ApplySuffix<V>(ttl: nat, max: nat, a: seq<Entry<V>>, b: seq<Entry<V>>, op: Op<V>)
    requires IsSuffix(a, b) && Distinct(b) && Distinct(a)
    ensures IsSuffix(Apply(ttl, max, a, op), Apply(ttl, |b| + 1, b, op))
  {
    match op
    case Set(key, value, version, at) =>
      var e := Entry(key, value, version, at + ttl);
      SetUnbounded(b, e);
      KeepSuffix(a, b, OtherThan(key));
      SuffixTail(Remove(a, key), Remove(b, key), e);
    case Get(key, version, at) => GetSuffix(a, b, key, version, at);
    case DeletePrefix(prefix) => KeepSuffix(a, b, NotUnder(prefix));
    case Delete(key) => KeepSuffix(a, b, OtherThan(key));
    case Clear =>
    case Idle =>
  }

  /** The cache is always the youngest part of the live entries. */
  lemma {:induction false} RunIsYoungest<V>(ttl: nat, max: nat, log: seq<Op<V>>)
    ensures IsSuffix(Run(ttl, max, log), Live(ttl, log))
  {
    if log != [] {
      var before := log[..|log| - 1];
      RunIsYoungest(ttl, max, before);
      RunDistinct(ttl, max, before);
      LiveDistinct(ttl, before);
      ApplySuffix(ttl, max, Run(ttl, max, before), Live(ttl, before), log[|log| - 1]);
    }
  }

  /** How many entries there are from `key`'s on. */
  function Rank<V>(es: seq<Entry<V>>, key: string): (n: nat) {
    |es| - Find(es, key)
  }

  lemma RankInSuffix<V>(a: seq<Entry<V>>, b: seq<Entry<V>>, e: Entry<V>)
    requires IsSuffix(a, b) && Distinct(b) && Distinct(a) && e in a
    ensures 1 <= Rank(b, e.key) <= |a|
    ensures Rank(b, e.key) == |a| <==> e == a[0]
  {
    FindsOwn(a, e);
    var i, k := Find(a, e.key), |b| - |a|;
    SuffixAt(a, b, i);
    FindsOwn(b, e);
    SameKeyPlace(b, Find(b, e.key), k + i);
    if e == a[0] {
      SameKeyPlace(a, i, 0);
    }
  }

  lemma SuffixAt<T>(a: seq<T>, b: seq<T>, i: nat)
    requires IsSuffix(a, b) && i < |a|
    ensures b[|b| - |a| + i] == a[i] && a[i] in b
  {
  }

  lemma SameKeyPlace<V>(es: seq<Entry<V>>, i: nat, j: nat)
    requires Distinct(es) && i < |es| && j < |es| && es[i].key == es[j].key
    ensures i == j
  {
  }

  /** A set evicts an unkilled entry exactly when `max` live entries, it included, are as young as it. */
  lemma SetEvicts<V>(es: seq<Entry<V>>, live: seq<Entry<V>>, max: nat, x: Entry<V>, e: Entry<V>)
    requires IsSuffix(es, live) && Distinct(live) && Distinct(es) && 0 < max && |es| <= max
    requires e in es && e.key != x.key
    ensures e in AfterSet(es, max, x) <==> Rank(Remove(live, x.key), e.key) < max
  {
    var others, liveOthers := Remove(es, x.key), Remove(live, x.key);
    KeepMembers(es, OtherThan(x.key));
    KeepLength(es, OtherThan(x.key));
    KeepDistinct(es, OtherThan(x.key));
    KeepDistinct(live, OtherThan(x.key));
    KeepSuffix(es, live, OtherThan(x.key));
    RankInSuffix(others, liveOthers, e);
    DroppedHead(others, x, e);
  }

  lemma DroppedHead<V>(others: seq<Entry<V>>, x: Entry<V>, e: Entry<V>)
    requires Distinct(others) && e in others && e.key != x.key
    ensures e in others + [x]
    ensures e in others[1..] + [x] <==> e != others[0]
  {
    var k :| 0 <= k < |others| && others[k] == e;
    if k > 0 {
      assert others[1..][k - 1] == e;
      assert others[0].key != others[k].key;
    }
    if e in others[1..] {
      var j :| 0 <= j < |others[1..]| && others[1..][j] == e;
      assert others[j + 1] == e && others[0].key != others[j + 1].key;
    }
  }

  /** Since it was stored by `log[i]`, no set met `max` live entries as young as `e`. */
  ghost predicate NeverCrowded<V>(ttl: nat, max: nat, log: seq<Op<V>>, i: int, e: Entry<V>) {
    forall j | 0 <= i < j < |log| && log[j].Set? :: Rank(Remove(Live(ttl, log[..j]), log[j].key), e.key) < max
  }

  lemma LastSetIsHeld<V>(ttl: nat, max: nat, es: seq<Entry<V>>, e: Entry<V>)
    ensures e in Apply(ttl, max, es, Set(e.key, e.value, e.version, e.expiresAt - ttl))
  {
    var r := AfterSet(es, max, e);
    assert r[|r| - 1] == e;
  }

  lemma SurvivesStep<V>(ttl: nat, max: nat, log: seq<Op<V>>, e: Entry<V>)
    requires max > 0 && log != [] && e in Run(ttl, max, log[..|log| - 1]) && !Kills(log[|log| - 1], e)
    ensures var n := |log| - 1;
            e in Run(ttl, max, log)
            <==> (log[n].Set? ==> Rank(Remove(Live(ttl, log[..n]), log[n].key), e.key) < max)
  {
    var n := |log| - 1;
    var before, op := log[..n], log[n];
    var es := Run(ttl, max, before);
    RunDistinct(ttl, max, before);
    LiveDistinct(ttl, before);
    RunIsYoungest(ttl, max, before);
    if op.Set? {
      SetEvicts(es, Live(ttl, before), max, Entry(op.key, op.value, op.version, op.at + ttl), e);
    } else if e !in Apply(ttl, max, es, op) {
      SparedUnlessEvicted(ttl, max, es, op, e);
    }
  }

  lemma CrowdedStep<V>(ttl: nat, max: nat, log: seq<Op<V>>, i: nat, e: Entry<V>)
    requires log != [] && i < |log| - 1
    ensures var n := |log| - 1;
            NeverCrowded(ttl, max, log, i, e) <==>
              && NeverCrowded(ttl, max, log[..n], i, e)
              && (log[n].Set? ==> Rank(Remove(Live(ttl, log[..n]), log[n].key), e.key) < max)
  {
    var n := |log| - 1;
    forall j | 0 <= j < n ensures log[..n][j] == log[j] && log[..n][..j] == log[..j] {}
    if NeverCrowded(ttl, max, log, i, e) {
      forall j | i < j < n && log[..n][j].Set?
        ensures Rank(Remove(Live(ttl, log[..n][..j]), log[..n][j].key), e.key) < max
      {
        assert log[j].Set?;
      }
    }
  }

  lemma SurvivesMore<V>(ttl: nat, max: nat, log: seq<Op<V>>, i: nat, e: Entry<V>)
    requires max > 0 && i < |log| - 1 && !Kills(log[|log| - 1], e)
    requires e in Run(ttl, max, log[..|log| - 1]) <==> NeverCrowded(ttl, max, log[..|log| - 1], i, e)
    requires e in Run(ttl, max, log) ==> e in Run(ttl, max, log[..|log| - 1])
    ensures e in Run(ttl, max, log) <==> NeverCrowded(ttl, max, log, i, e)
  {
    CrowdedStep(ttl, max, log, i, e);
    if e in Run(ttl, max, log[..|log| - 1]) {
      SurvivesStep(ttl, max, log, e);
    }
  }

  /** An entry not stored by the last operation was held before it. */
  lemma HeldBefore<V>(ttl: nat, max: nat, log: seq<Op<V>>, e: Entry<V>)
    requires log != [] && !Kills(log[|log| - 1], e) && e in Run(ttl, max, log)
    ensures e in Run(ttl, max, log[..|log| - 1])
  {
    RunDistinct(ttl, max, log[..|log| - 1]);
    ApplyMembers(ttl, max, Run(ttl, max, log[..|log| - 1]), log[|log| - 1], e);
  }

  lemma {:induction false} StoredSurvives<V>(ttl: nat, max: nat, log: seq<Op<V>>, i: nat, e: Entry<V>)
    requires max > 0 && StoredBy(ttl, log, i, e)
    ensures e in Run(ttl, max, log) <==> NeverCrowded(ttl, max, log, i, e)
    decreases |log|
  {
    var n := |log| - 1;
    if i == n {
      LastSetIsHeld(ttl, max, Run(ttl, max, log[..n]), e);
    } else {
      StoredBefore(ttl, log, i, e);
      StoredSurvives(ttl, max, log[..n], i, e);
      if e in Run(ttl, max, log) {
        HeldBefore(ttl, max, log, e);
      }
      SurvivesMore(ttl, max, log, i, e);
    }
  }

  /** A bound of zero keeps as much as a bound of one. */
  function Room(max: nat): (n: nat)
    ensures n > 0
  {
    if max == 0 then 1 else max
  }

  lemma {:induction false} RunWithRoom<V>(ttl: nat, max: nat, log: seq<Op<V>>)
    ensures Run(ttl, max, log) == Run(ttl, Room(max), log)
  {
    if log != [] {
      RunWithRoom(ttl, max, log[..|log| - 1]);
    }
  }

  /** Stored by `log[i]`, not killed since, and never crowded out. */
  ghost predicate HeldSince<V>(ttl: nat, max: nat, log: seq<Op<V>>, i: int, e: Entry<V>) {
    StoredBy(ttl, log, i, e) && NeverCrowded(ttl, Room(max), log, i, e)
  }

  /** The whole law of the cache, from its log alone: it holds an entry exactly when the entry was stored,
      has not been killed since, and no later set met as many live entries as young as it as there is
      room for. */
  lemma HoldsExactly<V>(ttl: nat, max: nat, log: seq<Op<V>>, e: Entry<V>)
    ensures e in Run(ttl, max, log)
            <==> exists i :: HeldSince(ttl, max, log, i, e)
  {
    var room := Room(max);
    RunWithRoom(ttl, max, log);
    EntriesAreLastSets(ttl, room, log);
    if e in Run(ttl, room, log) {
      var i :| StoredBy(ttl, log, i, e);
      StoredSurvives(ttl, room, log, i, e);
      assert HeldSince(ttl, max, log, i, e);
    }
    if i :| HeldSince(ttl, max, log, i, e) {
      StoredSurvives(ttl, room, log, i, e);
    }
  }

  /** So a read hits exactly when such an entry of its key and version has not expired, and with its value. */
  lemma HitExactly<V(!new)>(ttl: nat, max: nat, log: seq<Op<V>>, key: string, version: string, now: int, value: V)
    ensures Lookup(Run(ttl, max, log), key, version, now) == Some(value)
            <==> exists i, e :: HeldSince(ttl, max, log, i, e) && e.key == key && e.version == version
                   && e.value == value && now < e.expiresAt
  {
    var es := Run(ttl, max, log);
    RunDistinct(ttl, max, log);
    if Lookup(es, key, version, now) == Some(value) {
      var e := es[Find(es, key)];
      assert e in es;
      HoldsExactly(ttl, max, log, e);
      var i :| HeldSince(ttl, max, log, i, e);
    }
    if i, e :| HeldSince(ttl, max, log, i, e) && e.key == key && e.version == version
               && e.value == value && now < e.expiresAt
    {
      HoldsExactly(ttl, max, log, e);
      FindsOwn(es, e);
    }
  }
}
