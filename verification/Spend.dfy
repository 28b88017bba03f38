/** Charges and their totals per agent and day. */
module Spend {
  import opened Bytes

  /** An agent's spend on one day, counted since the epoch. */
  datatype Door = Door(agent: string, day: nat)

  datatype Totals = Totals(calls: int, cost: int, input: int, cacheRead: int, output: int)

  datatype Column = Calls | Cost | Input | CacheRead | Output

  function At(t: Totals, m: Column): (n: int) {
    match m
    case Calls => t.calls
    case Cost => t.cost
    case Input => t.input
    case CacheRead => t.cacheRead
    case Output => t.output
  }

  /** What one spend row adds, and to which agent and day when it came through the agent door. */
  datatype Charge = Charge(door: Option<Door>, amount: Totals)

  /** The charges a total is taken over. */
  datatype Scope = Cell(agent: string, day: nat) | OfAgent(agent: string) | AnyDoor

  predicate Selects(f: Scope, c: Charge) {
    match f
    case Cell(agent, day) => c.door == Some(Door(agent, day))
    case OfAgent(agent) => c.door.Some? && c.door.value.agent == agent
    case AnyDoor => c.door.Some?
  }

  function Share(m: Column, f: Scope, c: Charge): (n: int) {
    if Selects(f, c) then At(c.amount, m) else 0
  }

  function Sum(m: Column, cs: seq<Charge>, f: Scope): (n: int) {
    if cs == [] then 0 else Sum(m, cs[..|cs| - 1], f) + Share(m, f, cs[|cs| - 1])
  }

  function SumAll(m: Column, cs: seq<Charge>, fs: seq<Scope>): (n: int) {
    if fs == [] then 0 else Sum(m, cs, fs[0]) + SumAll(m, cs, fs[1..])
  }

  function ShareAll(m: Column, fs: seq<Scope>, c: Charge): (n: int) {
    if fs == [] then 0 else Share(m, fs[0], c) + ShareAll(m, fs[1..], c)
  }

  lemma SumSnoc(m: Column, cs: seq<Charge>, c: Charge, f: Scope)
    ensures Sum(m, cs + [c], f) == Sum(m, cs, f) + Share(m, f, c)
  {
    assert (cs + [c])[..|cs|] == cs;
  }

  lemma {:induction false} SumAllSnoc(m: Column, cs: seq<Charge>, c: Charge, fs: seq<Scope>)
    ensures SumAll(m, cs + [c], fs) == SumAll(m, cs, fs) + ShareAll(m, fs, c)
    decreases |fs|
  {
    if fs != [] {
      SumSnoc(m, cs, c, fs[0]);
      SumAllSnoc(m, cs, c, fs[1..]);
    }
  }

  lemma {:induction false} SumAllEmpty(m: Column, fs: seq<Scope>)
    ensures SumAll(m, [], fs) == 0
    decreases |fs|
  {
    if fs != [] {
      SumAllEmpty(m, fs[1..]);
    }
  }

  // ---- splitting a total --------------------------------------------------------------------------

  /** Of `fs`, a charge of `g` is in exactly one scope and any other charge in none. */
  ghost predicate Splits(fs: seq<Scope>, g: Scope, c: Charge) {
    && (Selects(g, c) <==> exists i :: 0 <= i < |fs| && Selects(fs[i], c))
    && (forall i, j | 0 <= i < j < |fs| :: !(Selects(fs[i], c) && Selects(fs[j], c)))
  }

  lemma {:induction false} NoShare(m: Column, fs: seq<Scope>, c: Charge)
    requires forall i | 0 <= i < |fs| :: !Selects(fs[i], c)
    ensures ShareAll(m, fs, c) == 0
    decreases |fs|
  {
    if fs != [] {
      NoShare(m, fs[1..], c);
    }
  }

  lemma {:induction false} OneShare(m: Column, fs: seq<Scope>, i: nat, c: Charge)
    requires i < |fs| && Selects(fs[i], c)
    requires forall j | 0 <= j < |fs| && j != i :: !Selects(fs[j], c)
    ensures ShareAll(m, fs, c) == At(c.amount, m)
    decreases |fs|
  {
    if i == 0 {
      NoShare(m, fs[1..], c);
    } else {
      assert !Selects(fs[0], c);
      OneShare(m, fs[1..], i - 1, c);
    }
  }

  lemma SplitShare(m: Column, fs: seq<Scope>, g: Scope, c: Charge)
    requires Splits(fs, g, c)
    ensures ShareAll(m, fs, c) == Share(m, g, c)
  {
    if Selects(g, c) {
      var i :| 0 <= i < |fs| && Selects(fs[i], c);
      forall j | 0 <= j < |fs| && j != i ensures !Selects(fs[j], c) {
        var x, y := fs[if j < i then j else i], fs[if j < i then i else j];
        assert !(Selects(x, c) && Selects(y, c));
      }
      OneShare(m, fs, i, c);
    } else {
      NoShare(m, fs, c);
    }
  }

  /** Totals over scopes that split another scope's charges add up to that scope's total. */
  lemma {:induction false} SplitSum(m: Column, cs: seq<Charge>, fs: seq<Scope>, g: Scope)
    requires forall k | 0 <= k < |cs| :: Splits(fs, g, cs[k])
    ensures SumAll(m, cs, fs) == Sum(m, cs, g)
    decreases |cs|
  {
    if cs == [] {
      SumAllEmpty(m, fs);
    } else {
      var init, c := cs[..|cs| - 1], cs[|cs| - 1];
      assert cs == init + [c];
      SplitSum(m, init, fs, g);
      SumAllSnoc(m, init, c, fs);
      SplitShare(m, fs, g, c);
      SumSnoc(m, init, c, g);
    }
  }

  // ---- order of the charges -----------------------------------------------------------------------

  lemma Without<T>(s: seq<T>, i: nat)
    requires i < |s|
    ensures multiset(s[..i] + s[i + 1..]) == multiset(s) - multiset{s[i]}
  {
    assert s == s[..i] + [s[i]] + s[i + 1..];
  }

  lemma {:induction false} SumInsert(m: Column, a: seq<Charge>, c: Charge, b: seq<Charge>, f: Scope)
    ensures Sum(m, (a + [c]) + b, f) == Sum(m, a + b, f) + Share(m, f, c)
    decreases |b|
  {
    if b == [] {
      assert (a + [c]) + b == a + [c] && a + b == a;
      SumSnoc(m, a, c, f);
    } else {
      var init, last := b[..|b| - 1], b[|b| - 1];
      assert (a + [c]) + b == ((a + [c]) + init) + [last];
      assert a + b == (a + init) + [last];
      SumInsert(m, a, c, init, f);
      SumSnoc(m, (a + [c]) + init, last, f);
      SumSnoc(m, a + init, last, f);
    }
  }

  lemma LastElsewhere<T>(s: seq<T>, t: seq<T>) returns (i: nat)
    requires multiset(s) == multiset(t) && s != []
    ensures i < |t| && t[i] == s[|s| - 1]
    ensures multiset(s[..|s| - 1]) == multiset(t[..i] + t[i + 1..])
  {
    var n := |s| - 1;
    assert s[n] in multiset(s) && s[n] in multiset(t);
    i :| i < |t| && t[i] == s[n];
    Without(s, n);
    assert s[..n] + s[n + 1..] == s[..n];
    Without(t, i);
  }

  /** A total does not depend on the order of the charges. */
  lemma {:induction false} SumPermuted(m: Column, cs: seq<Charge>, cs': seq<Charge>, f: Scope)
    requires multiset(cs) == multiset(cs')
    ensures Sum(m, cs, f) == Sum(m, cs', f)
    decreases |cs|
  {
    if cs == [] {
      assert |multiset(cs')| == |cs'|;
    } else {
      var i := LastElsewhere(cs, cs');
      SumPermuted(m, cs[..|cs| - 1], cs'[..i] + cs'[i + 1..], f);
      assert cs' == (cs'[..i] + [cs'[i]]) + cs'[i + 1..];
      SumInsert(m, cs'[..i], cs'[i], cs'[i + 1..], f);
    }
  }
}
