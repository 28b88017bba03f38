/**
 * The model-access view: agent-door budget sessions read back to an agent and a day, and the wire's
 * spend rows gathered into one total per agent and day.
 */
module ModelAccess {
  import opened Bytes
  import Decimal
  import opened Spend
  import opened Listing

  // ---- agent-door sessions ------------------------------------------------------------------------

  const DOOR: string := "agent-door:"

  predicate IsLineBreak(c: char) {
    c == '\n' || c == '\r' || c == '\U{2028}' || c == '\U{2029}'
  }

  predicate OneLine(s: string) {
    forall i | 0 <= i < |s| :: !IsLineBreak(s[i])
  }

  /** `session` is the agent-door session of `agent` with the day written as `digits`. */
  predicate IsDoor(session: string, agent: string, digits: string) {
    && session == DOOR + (agent + (":d" + digits))
    && agent != "" && OneLine(agent) && digits != "" && Decimal.AllDigits(digits)
  }

  predicate DayPart(s: string) {
    |s| > 2 && s[0] == ':' && s[1] == 'd' && Decimal.AllDigits(s[2..])
  }

  /** The greedy match of `(.+):d(\d+)$`: the longest agent part first, at most `i` long. */
  function SplitAgent(s: string, i: nat): (r: Option<nat>)
    requires i <= |s|
    ensures r.Some? ==> 0 < r.value <= i && OneLine(s[..r.value]) && DayPart(s[r.value..])
    ensures r.None? ==> forall k | 0 < k <= i :: !(OneLine(s[..k]) && DayPart(s[k..]))
  {
    if i == 0 then None
    else if OneLine(s[..i]) && DayPart(s[i..]) then Some(i)
    else SplitAgent(s, i - 1)
  }

  function ParseDoor(session: string): (r: Option<Door>)
  {
    if !(DOOR <= session) then None
    else
      var s := session[|DOOR|..];
      match SplitAgent(s, |s|)
      case None => None
      case Some(i) => Some(Door(s[..i], Decimal.Value(s[i..][2..])))
  }

  function PrintDoor(d: Door): (s: string) {
    DOOR + (d.agent + (":d" + Decimal.Print(d.day)))
  }

  lemma NoColonInside(s: string, i: nat, k: nat)
    requires i < k < |s| && DayPart(s[i..])
    ensures s[k] != ':'
  {
    assert s[k] == s[i..][k - i];
    if k - i >= 2 {
      assert s[k] == s[i..][2..][k - i - 2];
    }
  }

  /** The last colon ends the agent, so a session has at most one reading. */
  lemma DayPartIsLast(s: string, i: nat, j: nat)
    requires i <= j <= |s| && DayPart(s[i..]) && DayPart(s[j..])
    ensures i == j
  {
    assert s[j] == s[j..][0];
    if i < j {
      NoColonInside(s, i, j);
    }
  }

  lemma DoorSplits(session: string, agent: string, digits: string)
    requires IsDoor(session, agent, digits)
    ensures DOOR <= session
    ensures var s := session[|DOOR|..];
            && |agent| <= |s| && s[..|agent|] == agent
            && DayPart(s[|agent|..]) && s[|agent|..][2..] == digits
  {
    var s := session[|DOOR|..];
    assert s == agent + (":d" + digits);
    assert s[|agent|..] == ":d" + digits;
  }

  lemma DoorJoins(session: string, i: nat)
    requires DOOR <= session && 0 < i <= |session| - |DOOR|
    requires var s := session[|DOOR|..]; OneLine(s[..i]) && DayPart(s[i..])
    ensures var s := session[|DOOR|..]; IsDoor(session, s[..i], s[i..][2..])
  {
    var s := session[|DOOR|..];
    assert s == s[..i] + s[i..] && s[i..] == ":d" + s[i..][2..];
    assert session == DOOR + s;
  }

  /** Parsing finds the one way to read a session as an agent-door session, if there is one. */
  lemma ParseDoorExact(session: string, agent: string, digits: string)
    ensures IsDoor(session, agent, digits) ==> ParseDoor(session) == Some(Door(agent, Decimal.Value(digits)))
  {
    if IsDoor(session, agent, digits) {
      DoorSplits(session, agent, digits);
      var s := session[|DOOR|..];
      var r := SplitAgent(s, |s|);
      assert OneLine(s[..|agent|]) && DayPart(s[|agent|..]);
      assert r.Some?;
      if r.value <= |agent| {
        DayPartIsLast(s, r.value, |agent|);
      } else {
        DayPartIsLast(s, |agent|, r.value);
      }
    }
  }

  lemma ParseDoorSound(session: string) returns (digits: string)
    requires ParseDoor(session).Some?
    ensures IsDoor(session, ParseDoor(session).value.agent, digits)
    ensures ParseDoor(session).value.day == Decimal.Value(digits)
  {
    var s := session[|DOOR|..];
    var i := SplitAgent(s, |s|).value;
    digits := s[i..][2..];
    DoorJoins(session, i);
  }

  /** A printed session parses to its agent and day, exactly for one-line non-empty agents. */
  lemma PrintParse(d: Door)
    ensures ParseDoor(PrintDoor(d)) == Some(d) <==> d.agent != "" && OneLine(d.agent)
  {
    var digits := Decimal.Print(d.day);
    Decimal.PrintValue(d.day);
    if d.agent != "" && OneLine(d.agent) {
      ParseDoorExact(PrintDoor(d), d.agent, digits);
    } else if ParseDoor(PrintDoor(d)).Some? {
      var _ := ParseDoorSound(PrintDoor(d));
    }
  }

  // ---- the wire reply and the view ----------------------------------------------------------------

  const CLASSIFICATIONS: seq<string> := ["unclassified", "internal", "confidential", "restricted", "secret"]

  /** The last day a date can name; beyond it the date conversion throws. */
  const MAX_DAY: nat := 100_000_000

  datatype SpendRow = SpendRow(session: string, principal: string, model: string, calls: int, cost: int,
                               uncachedInput: int, cacheWrite: int, cacheRead: int, output: int)

  datatype Model = Model(id: string, ceiling: string)

  datatype WireGrant = WireGrant(agent: string, models: seq<string>, tools: seq<string>, readScopes: seq<string>,
                                 workspaces: seq<string>, classification: string)

  datatype Wire = Wire(refused: bool, models: seq<Model>, grants: seq<WireGrant>, spend: seq<SpendRow>)

  datatype Grant = Grant(models: seq<string>, tools: seq<string>, readScopes: seq<string>,
                         workspaces: seq<string>, classification: string)

  datatype DaySpend = DaySpend(day: nat, totals: Totals)

  datatype AgentAccess = AgentAccess(agent: string, grant: Option<Grant>, spend: seq<DaySpend>)

  datatype OtherRow = OtherRow(session: string, principal: string, model: string, calls: int, cost: int)

  datatype View = View(models: seq<Model>, agents: seq<AgentAccess>, other: seq<OtherRow>)

  datatype Outcome = Shown(view: View) | Refused | DateOutOfRange

  function GrantOf(g: WireGrant): (r: Grant) {
    Grant(g.models, g.tools, g.readScopes, g.workspaces, g.classification)
  }

  function ChargeOf(r: SpendRow): (c: Charge) {
    Charge(ParseDoor(r.session), Totals(r.calls, r.cost, r.uncachedInput + r.cacheWrite, r.cacheRead, r.output))
  }

  function Charges(rows: seq<SpendRow>): (cs: seq<Charge>)
    ensures |cs| == |rows| && forall i | 0 <= i < |rows| :: cs[i] == ChargeOf(rows[i])
  {
    seq(|rows|, i requires 0 <= i < |rows| => ChargeOf(rows[i]))
  }

  function OtherOf(r: SpendRow): (o: OtherRow) {
    OtherRow(r.session, r.principal, r.model, r.calls, r.cost)
  }

  /** The rows charged outside the agent door, as they stand. */
  function Others(rows: seq<SpendRow>): (os: seq<OtherRow>) {
    if rows == [] then [] else Others(rows[..|rows| - 1]) + OwnOther(rows[|rows| - 1])
  }

  function OwnOther(r: SpendRow): (os: seq<OtherRow>) {
    if ParseDoor(r.session).None? then [OtherOf(r)] else []
  }

  // ---- what a view must show ----------------------------------------------------------------------

  /** The grant an agent ends up with: the last one the wire lists for it. */
  function LastGrant(gs: seq<WireGrant>, agent: string): (g: Option<Grant>) {
    if gs == [] then None
    else if gs[|gs| - 1].agent == agent then Some(GrantOf(gs[|gs| - 1]))
    else LastGrant(gs[..|gs| - 1], agent)
  }

  predicate Accepted(w: Wire) {
    && !w.refused
    && (forall i | 0 <= i < |w.models| :: w.models[i].ceiling in CLASSIFICATIONS)
    && (forall i | 0 <= i < |w.grants| :: w.grants[i].classification in CLASSIFICATIONS)
  }

  predicate InRange(cs: seq<Charge>) {
    forall i | 0 <= i < |cs| :: cs[i].door.Some? ==> cs[i].door.value.day <= MAX_DAY
  }

  ghost predicate HasAgent(cs: seq<Charge>, agent: string) {
    exists i :: 0 <= i < |cs| && Selects(OfAgent(agent), cs[i])
  }

  ghost predicate HasDay(cs: seq<Charge>, agent: string, day: nat) {
    exists i :: 0 <= i < |cs| && Selects(Cell(agent, day), cs[i])
  }

  function TotalsOf(cs: seq<Charge>, f: Scope): (t: Totals) {
    Totals(Sum(Calls, cs, f), Sum(Cost, cs, f), Sum(Input, cs, f), Sum(CacheRead, cs, f), Sum(Output, cs, f))
  }

  function Days(spend: seq<DaySpend>): (ds: seq<nat>)
    ensures |ds| == |spend| && forall i | 0 <= i < |ds| :: ds[i] == spend[i].day
  {
    seq(|spend|, i requires 0 <= i < |spend| => spend[i].day)
  }

  function Names(agents: seq<AgentAccess>): (ns: seq<string>)
    ensures |ns| == |agents| && forall i | 0 <= i < |ns| :: ns[i] == agents[i].agent
  {
    seq(|agents|, i requires 0 <= i < |agents| => agents[i].agent)
  }

  /** Each day the agent spent on, once, newest first, with the totals of its rows. */
  ghost predicate ShowsSpend(cs: seq<Charge>, agent: string, spend: seq<DaySpend>) {
    && Ascending(Later, Days(spend))
    && (forall day :: day in Days(spend) <==> HasDay(cs, agent, day))
    && (forall j | 0 <= j < |spend| :: spend[j].totals == TotalsOf(cs, Cell(agent, spend[j].day)))
  }

  /** Each agent with a grant or spend, once, by name, with its grant and its spend. */
  ghost predicate ShowsAgents(gs: seq<WireGrant>, cs: seq<Charge>, agents: seq<AgentAccess>) {
    && Ascending(NameLess, Names(agents))
    && (forall name :: name in Names(agents) <==> LastGrant(gs, name).Some? || HasAgent(cs, name))
    && (forall i | 0 <= i < |agents| :: ShowsAgent(gs, cs, agents[i]))
  }

  ghost predicate ShowsAgent(gs: seq<WireGrant>, cs: seq<Charge>, a: AgentAccess) {
    a.grant == LastGrant(gs, a.agent) && ShowsSpend(cs, a.agent, a.spend)
  }

  // ---- gathering the rows -------------------------------------------------------------------------

  type Tally = map<string, map<nat, Totals>>

  /** The tally holds exactly the agents and days of the charges, each with its totals. */
  ghost predicate Tallied(t: Tally, cs: seq<Charge>) {
    && (forall a :: a in t <==> HasAgent(cs, a))
    && (forall a, d | a in t :: d in t[a] <==> HasDay(cs, a, d))
    && (forall a, d | a in t && d in t[a] :: t[a][d] == TotalsOf(cs, Cell(a, d)))
  }

  /** One agent-door row added to its agent's day. */
  function Bump(t: Tally, door: Door, x: Totals): (r: Tally)
  {
    var days := if door.agent in t then t[door.agent] else map[];
    var prior := if door.day in days then days[door.day] else Totals(0, 0, 0, 0, 0);
    t[door.agent := days[door.day := Totals(prior.calls + x.calls, prior.cost + x.cost, prior.input + x.input,
                                            prior.cacheRead + x.cacheRead, prior.output + x.output)]]
  }

  lemma HasSnoc(cs: seq<Charge>, c: Charge, agent: string, day: nat)
    ensures HasAgent(cs + [c], agent) <==> HasAgent(cs, agent) || Selects(OfAgent(agent), c)
    ensures HasDay(cs + [c], agent, day) <==> HasDay(cs, agent, day) || Selects(Cell(agent, day), c)
  {
    var cs' := cs + [c];
    assert cs'[|cs|] == c;
    assert forall i | 0 <= i < |cs| :: cs'[i] == cs[i];
  }

  lemma TotalsSnoc(cs: seq<Charge>, c: Charge, f: Scope)
    ensures TotalsOf(cs + [c], f) ==
      Totals(Sum(Calls, cs, f) + Share(Calls, f, c), Sum(Cost, cs, f) + Share(Cost, f, c),
             Sum(Input, cs, f) + Share(Input, f, c), Sum(CacheRead, cs, f) + Share(CacheRead, f, c),
             Sum(Output, cs, f) + Share(Output, f, c))
  {
    SumSnoc(Calls, cs, c, f);
    SumSnoc(Cost, cs, c, f);
    SumSnoc(Input, cs, c, f);
    SumSnoc(CacheRead, cs, c, f);
    SumSnoc(Output, cs, c, f);
  }

  lemma {:induction false} SumNone(m: Column, cs: seq<Charge>, f: Scope)
    requires forall i | 0 <= i < |cs| :: !Selects(f, cs[i])
    ensures Sum(m, cs, f) == 0
    decreases |cs|
  {
    if cs != [] {
      SumNone(m, cs[..|cs| - 1], f);
    }
  }

  lemma TotalsNone(cs: seq<Charge>, agent: string, day: nat)
    requires !HasDay(cs, agent, day)
    ensures TotalsOf(cs, Cell(agent, day)) == Totals(0, 0, 0, 0, 0)
  {
    SumNone(Calls, cs, Cell(agent, day));
    SumNone(Cost, cs, Cell(agent, day));
    SumNone(Input, cs, Cell(agent, day));
    SumNone(CacheRead, cs, Cell(agent, day));
    SumNone(Output, cs, Cell(agent, day));
  }

  lemma DayHasAgent(cs: seq<Charge>, agent: string, day: nat)
    requires HasDay(cs, agent, day)
    ensures HasAgent(cs, agent)
  {
    var i :| 0 <= i < |cs| && Selects(Cell(agent, day), cs[i]);
    assert Selects(OfAgent(agent), cs[i]);
  }

  /** The tally's entry for a day, nothing when there is none, is the total so far. */
  lemma Prior(t: Tally, cs: seq<Charge>, a: string, d: nat)
    requires Tallied(t, cs)
    ensures TotalsOf(cs, Cell(a, d)) == if a in t && d in t[a] then t[a][d] else Totals(0, 0, 0, 0, 0)
  {
    if !(a in t && d in t[a]) {
      if HasDay(cs, a, d) {
        DayHasAgent(cs, a, d);
      } else {
        TotalsNone(cs, a, d);
      }
    }
  }

  lemma BumpTallied(t: Tally, cs: seq<Charge>, door: Door, x: Totals)
    requires Tallied(t, cs)
    ensures Tallied(Bump(t, door, x), cs + [Charge(Some(door), x)])
  {
    var t', cs' := Bump(t, door, x), cs + [Charge(Some(door), x)];
    forall a ensures a in t' <==> HasAgent(cs', a) {
      HasSnoc(cs, Charge(Some(door), x), a, 0);
    }
    forall a, d | a in t' ensures d in t'[a] <==> HasDay(cs', a, d) {
      BumpDays(t, cs, door, x, a, d);
    }
    forall a, d | a in t' && d in t'[a] ensures t'[a][d] == TotalsOf(cs', Cell(a, d)) {
      BumpTotals(t, cs, door, x, a, d);
    }
  }

  lemma BumpDays(t: Tally, cs: seq<Charge>, door: Door, x: Totals, a: string, d: nat)
    requires Tallied(t, cs) && a in Bump(t, door, x)
    ensures d in Bump(t, door, x)[a] <==> HasDay(cs + [Charge(Some(door), x)], a, d)
  {
    HasSnoc(cs, Charge(Some(door), x), a, d);
    if a !in t && HasDay(cs, a, d) {
      DayHasAgent(cs, a, d);
    }
  }

  lemma BumpTotals(t: Tally, cs: seq<Charge>, door: Door, x: Totals, a: string, d: nat)
    requires Tallied(t, cs) && a in Bump(t, door, x) && d in Bump(t, door, x)[a]
    ensures Bump(t, door, x)[a][d] == TotalsOf(cs + [Charge(Some(door), x)], Cell(a, d))
  {
    Prior(t, cs, a, d);
    TotalsSnoc(cs, Charge(Some(door), x), Cell(a, d));
  }

  lemma SkipTallied(t: Tally, cs: seq<Charge>, x: Totals)
    requires Tallied(t, cs)
    ensures Tallied(t, cs + [Charge(None, x)])
  {
    var c := Charge(None, x);
    forall a ensures HasAgent(cs + [c], a) <==> HasAgent(cs, a) {
      HasSnoc(cs, c, a, 0);
    }
    forall a, d: nat
      ensures HasDay(cs + [c], a, d) <==> HasDay(cs, a, d)
      ensures TotalsOf(cs + [c], Cell(a, d)) == TotalsOf(cs, Cell(a, d))
    {
      HasSnoc(cs, c, a, d);
      TotalsSnoc(cs, c, Cell(a, d));
    }
  }

  lemma ChargesSnoc(rows: seq<SpendRow>, i: nat)
    requires i < |rows|
    ensures Charges(rows[..i + 1]) == Charges(rows[..i]) + [ChargeOf(rows[i])]
    ensures Others(rows[..i + 1]) == Others(rows[..i]) + OwnOther(rows[i])
  {
    assert rows[..i + 1][..i] == rows[..i];
  }

  ghost predicate GatheredSoFar(t: Tally, other: seq<OtherRow>, rows: seq<SpendRow>) {
    InRange(Charges(rows)) && Tallied(t, Charges(rows)) && other == Others(rows)
  }

  /** One round of the loop over the spend rows: `None` when the row's date cannot be formed. */
  method GatherRow(t: Tally, other: seq<OtherRow>, rows: seq<SpendRow>, i: nat)
    returns (r: Option<(Tally, seq<OtherRow>)>)
    requires i < |rows| && GatheredSoFar(t, other, rows[..i])
    ensures r.None? ==> !InRange(Charges(rows))
    ensures r.Some? ==> GatheredSoFar(r.value.0, r.value.1, rows[..i + 1])
  {
    match ParseDoor(rows[i].session)
    case None =>
      SkipGathered(t, other, rows, i);
      return Some((t, other + [OtherOf(rows[i])]));
    case Some(door) =>
      if door.day > MAX_DAY {
        assert Charges(rows)[i] == ChargeOf(rows[i]);
        return None;
      }
      BumpGathered(t, other, rows, i, door);
      return Some((Bump(t, door, ChargeOf(rows[i]).amount), other));
  }

  lemma RangeSnoc(cs: seq<Charge>, c: Charge)
    requires InRange(cs) && (c.door.Some? ==> c.door.value.day <= MAX_DAY)
    ensures InRange(cs + [c])
  {
  }

  lemma SkipGathered(t: Tally, other: seq<OtherRow>, rows: seq<SpendRow>, i: nat)
    requires i < |rows| && GatheredSoFar(t, other, rows[..i]) && ParseDoor(rows[i].session) == None
    ensures GatheredSoFar(t, other + [OtherOf(rows[i])], rows[..i + 1])
  {
    ChargesSnoc(rows, i);
    RangeSnoc(Charges(rows[..i]), ChargeOf(rows[i]));
    SkipTallied(t, Charges(rows[..i]), ChargeOf(rows[i]).amount);
  }

  lemma BumpGathered(t: Tally, other: seq<OtherRow>, rows: seq<SpendRow>, i: nat, door: Door)
    requires i < |rows| && GatheredSoFar(t, other, rows[..i])
    requires ParseDoor(rows[i].session) == Some(door) && door.day <= MAX_DAY
    ensures GatheredSoFar(Bump(t, door, ChargeOf(rows[i]).amount), other, rows[..i + 1])
  {
    ChargesSnoc(rows, i);
    RangeSnoc(Charges(rows[..i]), ChargeOf(rows[i]));
    BumpTallied(t, Charges(rows[..i]), door, ChargeOf(rows[i]).amount);
  }

  method Gather(rows: seq<SpendRow>) returns (r: Option<(Tally, seq<OtherRow>)>)
    ensures r.None? ==> !InRange(Charges(rows))
    ensures r.Some? ==> GatheredSoFar(r.value.0, r.value.1, rows)
  {
    var t: Tally := map[];
    var other: seq<OtherRow> := [];
    for i := 0 to |rows|
      invariant GatheredSoFar(t, other, rows[..i])
    {
      var next := GatherRow(t, other, rows, i);
      if next.None? {
        return None;
      }
      t, other := next.value.0, next.value.1;
    }
    assert rows[..|rows|] == rows;
    return Some((t, other));
  }

  ghost predicate Granted(m: map<string, Grant>, gs: seq<WireGrant>) {
    forall a :: LastGrant(gs, a) == if a in m then Some(m[a]) else None
  }

  method CollectGrants(gs: seq<WireGrant>) returns (r: Option<map<string, Grant>>)
    ensures r.Some? <==> forall i | 0 <= i < |gs| :: gs[i].classification in CLASSIFICATIONS
    ensures r.Some? ==> Granted(r.value, gs)
  {
    var m: map<string, Grant> := map[];
    for i := 0 to |gs|
      invariant forall j | 0 <= j < i :: gs[j].classification in CLASSIFICATIONS
      invariant Granted(m, gs[..i])
    {
      if gs[i].classification !in CLASSIFICATIONS {
        return None;
      }
      assert gs[..i + 1][..i] == gs[..i];
      m := m[gs[i].agent := GrantOf(gs[i])];
    }
    assert gs[..|gs|] == gs;
    return Some(m);
  }

  method CollectModels(models: seq<Model>) returns (r: Option<seq<Model>>)
    ensures r == if forall i | 0 <= i < |models| :: models[i].ceiling in CLASSIFICATIONS then Some(models) else None
  {
    var out: seq<Model> := [];
    for i := 0 to |models|
      invariant out == models[..i] && forall j | 0 <= j < i :: models[j].ceiling in CLASSIFICATIONS
    {
      if models[i].ceiling !in CLASSIFICATIONS {
        return None;
      }
      out := out + [models[i]];
    }
    assert models[..|models|] == models;
    return Some(out);
  }

  method ListSpend(t: Tally, agent: string, ghost cs: seq<Charge>) returns (spend: seq<DaySpend>)
    requires Tallied(t, cs)
    ensures ShowsSpend(cs, agent, spend)
  {
    var days := if agent in t then t[agent] else map[];
    forall d ensures d in days <==> HasDay(cs, agent, d) {
      if HasDay(cs, agent, d) {
        DayHasAgent(cs, agent, d);
      }
    }
    var order := Sorted(Later, days.Keys);
    assert forall d :: d in order <==> d in days;
    spend := seq(|order|, i requires 0 <= i < |order| && order[i] in days => DaySpend(order[i], days[order[i]]));
    assert Days(spend) == order;
    forall j | 0 <= j < |spend| ensures spend[j].totals == TotalsOf(cs, Cell(agent, spend[j].day)) {
      assert order[j] in days && agent in t;
    }
  }

  method ListAgent(m: map<string, Grant>, t: Tally, name: string, ghost gs: seq<WireGrant>, ghost cs: seq<Charge>)
    returns (a: AgentAccess)
    requires Granted(m, gs) && Tallied(t, cs)
    ensures a.agent == name && ShowsAgent(gs, cs, a)
  {
    var spend := ListSpend(t, name, cs);
    a := AgentAccess(name, if name in m then Some(m[name]) else None, spend);
  }

  method ListNamed(m: map<string, Grant>, t: Tally, names: seq<string>, ghost gs: seq<WireGrant>,
                   ghost cs: seq<Charge>)
    returns (agents: seq<AgentAccess>)
    requires Granted(m, gs) && Tallied(t, cs)
    ensures Names(agents) == names && forall i | 0 <= i < |agents| :: ShowsAgent(gs, cs, agents[i])
  {
    agents := [];
    for i := 0 to |names|
      invariant |agents| == i
      invariant forall j | 0 <= j < i :: agents[j].agent == names[j] && ShowsAgent(gs, cs, agents[j])
    {
      var a := ListAgent(m, t, names[i], gs, cs);
      agents := agents + [a];
    }
  }

  method ListAgents(m: map<string, Grant>, t: Tally, ghost gs: seq<WireGrant>, ghost cs: seq<Charge>)
    returns (agents: seq<AgentAccess>)
    requires Granted(m, gs) && Tallied(t, cs)
    ensures ShowsAgents(gs, cs, agents)
  {
    NamesAreOrdered();
    var names := Sorted(NameLess, m.Keys + t.Keys);
    agents := ListNamed(m, t, names, gs, cs);
    forall name ensures name in names <==> LastGrant(gs, name).Some? || HasAgent(cs, name) {
      assert name in m.Keys + t.Keys <==> name in m || name in t;
    }
  }

  /**
   * Refused exactly for a refused reply or an unknown classification tag; otherwise every agent, day,
   * grant and other row is shown as `ShowsAgents` and `Others` say, unless a day is past all dates.
   */
  method ToModelAccessView(w: Wire) returns (r: Outcome)
    ensures r.Refused? <==> !Accepted(w)
    ensures r.DateOutOfRange? <==> Accepted(w) && !InRange(Charges(w.spend))
    ensures r.Shown? ==>
      && r.view.models == w.models && r.view.other == Others(w.spend)
      && ShowsAgents(w.grants, Charges(w.spend), r.view.agents)
  {
    if w.refused {
      return Refused;
    }
    var models := CollectModels(w.models);
    if models.None? {
      return Refused;
    }
    var grants := CollectGrants(w.grants);
    if grants.None? {
      return Refused;
    }
    var gathered := Gather(w.spend);
    if gathered.None? {
      return DateOutOfRange;
    }
    var agents := ListAgents(grants.value, gathered.value.0, w.grants, Charges(w.spend));
    return Shown(View(models.value, agents, gathered.value.1));
  }

  // ---- conservation -------------------------------------------------------------------------------

  function DaysTotal(m: Column, spend: seq<DaySpend>): (n: int) {
    if spend == [] then 0 else At(spend[0].totals, m) + DaysTotal(m, spend[1..])
  }

  /** A column summed over every agent and day of the view. */
  function AgentsTotal(m: Column, agents: seq<AgentAccess>): (n: int) {
    if agents == [] then 0 else DaysTotal(m, agents[0].spend) + AgentsTotal(m, agents[1..])
  }

  function Cells(agent: string, days: seq<nat>): (fs: seq<Scope>)
    ensures |fs| == |days| && forall i | 0 <= i < |fs| :: fs[i] == Cell(agent, days[i])
  {
    seq(|days|, i requires 0 <= i < |days| => Cell(agent, days[i]))
  }

  function Agents(names: seq<string>): (fs: seq<Scope>)
    ensures |fs| == |names| && forall i | 0 <= i < |fs| :: fs[i] == OfAgent(names[i])
  {
    seq(|names|, i requires 0 <= i < |names| => OfAgent(names[i]))
  }

  lemma {:induction false} DaysTotalIsSum(m: Column, cs: seq<Charge>, agent: string, spend: seq<DaySpend>)
    requires forall j | 0 <= j < |spend| :: spend[j].totals == TotalsOf(cs, Cell(agent, spend[j].day))
    ensures DaysTotal(m, spend) == SumAll(m, cs, Cells(agent, Days(spend)))
    decreases |spend|
  {
    if spend != [] {
      var fs := Cells(agent, Days(spend));
      assert Days(spend)[1..] == Days(spend[1..]);
      assert fs[1..] == Cells(agent, Days(spend[1..]));
      assert At(spend[0].totals, m) == Sum(m, cs, fs[0]);
      DaysTotalIsSum(m, cs, agent, spend[1..]);
    }
  }

  /** An agent's days add up to everything charged to the agent. */
  lemma AgentConserved(m: Column, cs: seq<Charge>, agent: string, spend: seq<DaySpend>)
    requires ShowsSpend(cs, agent, spend)
    ensures DaysTotal(m, spend) == Sum(m, cs, OfAgent(agent))
  {
    var days, fs := Days(spend), Cells(agent, Days(spend));
    DaysTotalIsSum(m, cs, agent, spend);
    forall k | 0 <= k < |cs| ensures Splits(fs, OfAgent(agent), cs[k]) {
      if Selects(OfAgent(agent), cs[k]) {
        var day := cs[k].door.value.day;
        assert Selects(Cell(agent, day), cs[k]);
        assert HasDay(cs, agent, day);
        var i :| 0 <= i < |days| && days[i] == day;
        assert Selects(fs[i], cs[k]);
      }
    }
    SplitSum(m, cs, fs, OfAgent(agent));
  }

  lemma {:induction false} AgentsTotalIsSum(m: Column, cs: seq<Charge>, agents: seq<AgentAccess>)
    requires forall i | 0 <= i < |agents| :: ShowsSpend(cs, agents[i].agent, agents[i].spend)
    ensures AgentsTotal(m, agents) == SumAll(m, cs, Agents(Names(agents)))
    decreases |agents|
  {
    if agents != [] {
      var fs := Agents(Names(agents));
      assert Names(agents)[1..] == Names(agents[1..]);
      assert fs[1..] == Agents(Names(agents[1..]));
      AgentConserved(m, cs, agents[0].agent, agents[0].spend);
      AgentsTotalIsSum(m, cs, agents[1..]);
    }
  }

  lemma NamesSplit(names: seq<string>, c: Charge)
    requires forall i, j | 0 <= i < j < |names| :: names[i] != names[j]
    requires c.door.Some? ==> c.door.value.agent in names
    ensures Splits(Agents(names), AnyDoor, c)
  {
    if c.door.Some? {
      var i :| 0 <= i < |names| && names[i] == c.door.value.agent;
      assert Selects(Agents(names)[i], c);
    }
  }

  lemma NamesDistinct(names: seq<string>)
    requires Ascending(NameLess, names)
    ensures forall i, j | 0 <= i < j < |names| :: names[i] != names[j]
  {
    NamesAreOrdered();
    forall i, j | 0 <= i < j < |names| ensures names[i] != names[j] {
      assert NameLess(names[i], names[j]);
    }
  }

  /** Every column of the agent-door rows is conserved: the view's agent-days add up to it. */
  lemma DoorSpendConserved(m: Column, gs: seq<WireGrant>, cs: seq<Charge>, agents: seq<AgentAccess>)
    requires ShowsAgents(gs, cs, agents)
    ensures AgentsTotal(m, agents) == Sum(m, cs, AnyDoor)
  {
    var names := Names(agents);
    AgentsTotalIsSum(m, cs, agents);
    NamesDistinct(names);
    forall k | 0 <= k < |cs| ensures Splits(Agents(names), AnyDoor, cs[k]) {
      if cs[k].door.Some? {
        assert Selects(OfAgent(cs[k].door.value.agent), cs[k]);
        assert HasAgent(cs, cs[k].door.value.agent);
      }
      NamesSplit(names, cs[k]);
    }
    SplitSum(m, cs, Agents(names), AnyDoor);
  }

  function OtherCalls(os: seq<OtherRow>): (n: int) {
    if os == [] then 0 else OtherCalls(os[..|os| - 1]) + os[|os| - 1].calls
  }

  function OtherCost(os: seq<OtherRow>): (n: int) {
    if os == [] then 0 else OtherCost(os[..|os| - 1]) + os[|os| - 1].cost
  }

  lemma OtherSnoc(os: seq<OtherRow>, r: SpendRow)
    ensures OtherCalls(os + OwnOther(r)) == OtherCalls(os) + if ChargeOf(r).door.None? then r.calls else 0
    ensures OtherCost(os + OwnOther(r)) == OtherCost(os) + if ChargeOf(r).door.None? then r.cost else 0
  {
    if ParseDoor(r.session).None? {
      assert (os + [OtherOf(r)])[..|os|] == os;
    } else {
      assert os + [] == os;
    }
  }

  function RowCalls(rows: seq<SpendRow>): (n: int) {
    if rows == [] then 0 else RowCalls(rows[..|rows| - 1]) + rows[|rows| - 1].calls
  }

  function RowCost(rows: seq<SpendRow>): (n: int) {
    if rows == [] then 0 else RowCost(rows[..|rows| - 1]) + rows[|rows| - 1].cost
  }

  lemma {:induction false} DoorsAndOthers(rows: seq<SpendRow>)
    ensures Sum(Calls, Charges(rows), AnyDoor) + OtherCalls(Others(rows)) == RowCalls(rows)
    ensures Sum(Cost, Charges(rows), AnyDoor) + OtherCost(Others(rows)) == RowCost(rows)
    decreases |rows|
  {
    if rows != [] {
      var n := |rows| - 1;
      var init, r := rows[..n], rows[n];
      DoorsAndOthers(init);
      assert rows[..n + 1] == rows;
      ChargesSnoc(rows, n);
      SumSnoc(Calls, Charges(init), ChargeOf(r), AnyDoor);
      SumSnoc(Cost, Charges(init), ChargeOf(r), AnyDoor);
      OtherSnoc(Others(init), r);
    }
  }

  /** Calls and cost: all agent-days and the other spend together are exactly the wire's rows. */
  lemma SpendConserved(w: Wire, v: View)
    requires v.other == Others(w.spend) && ShowsAgents(w.grants, Charges(w.spend), v.agents)
    ensures AgentsTotal(Calls, v.agents) + OtherCalls(v.other) == RowCalls(w.spend)
    ensures AgentsTotal(Cost, v.agents) + OtherCost(v.other) == RowCost(w.spend)
  {
    DoorSpendConserved(Calls, w.grants, Charges(w.spend), v.agents);
    DoorSpendConserved(Cost, w.grants, Charges(w.spend), v.agents);
    DoorsAndOthers(w.spend);
  }

  // ---- order of the rows --------------------------------------------------------------------------

  lemma ChargesWithout(rows: seq<SpendRow>, i: nat)
    requires i < |rows|
    ensures multiset(Charges(rows)) == multiset(Charges(rows[..i] + rows[i + 1..])) + multiset{ChargeOf(rows[i])}
  {
    var cs := Charges(rows);
    assert cs == cs[..i] + [cs[i]] + cs[i + 1..];
    assert Charges(rows[..i] + rows[i + 1..]) == cs[..i] + cs[i + 1..];
  }

  lemma {:induction false} ChargesPermuted(rows: seq<SpendRow>, rows': seq<SpendRow>)
    requires multiset(rows) == multiset(rows')
    ensures multiset(Charges(rows)) == multiset(Charges(rows'))
    decreases |rows|
  {
    if rows == [] {
      assert |multiset(rows')| == |rows'|;
    } else {
      var n := |rows| - 1;
      var i := LastElsewhere(rows, rows');
      ChargesPermuted(rows[..n], rows'[..i] + rows'[i + 1..]);
      ChargesWithout(rows, n);
      assert rows[..n] + rows[n + 1..] == rows[..n];
      ChargesWithout(rows', i);
    }
  }

  lemma PermutedMembers(cs: seq<Charge>, cs': seq<Charge>, agent: string, day: nat)
    requires multiset(cs) == multiset(cs')
    ensures HasAgent(cs, agent) ==> HasAgent(cs', agent)
    ensures HasDay(cs, agent, day) ==> HasDay(cs', agent, day)
  {
    forall i | 0 <= i < |cs| ensures cs[i] in cs' {
      assert cs[i] in multiset(cs');
    }
  }

  lemma TotalsPermuted(cs: seq<Charge>, cs': seq<Charge>, f: Scope)
    requires multiset(cs) == multiset(cs')
    ensures TotalsOf(cs, f) == TotalsOf(cs', f)
  {
    SumPermuted(Calls, cs, cs', f);
    SumPermuted(Cost, cs, cs', f);
    SumPermuted(Input, cs, cs', f);
    SumPermuted(CacheRead, cs, cs', f);
    SumPermuted(Output, cs, cs', f);
  }

  lemma SpendIsUnique(cs: seq<Charge>, cs': seq<Charge>, agent: string, s: seq<DaySpend>, s': seq<DaySpend>)
    requires multiset(cs) == multiset(cs') && ShowsSpend(cs, agent, s) && ShowsSpend(cs', agent, s')
    ensures s == s'
  {
    forall d ensures d in Days(s) <==> d in Days(s') {
      PermutedMembers(cs, cs', agent, d);
      PermutedMembers(cs', cs, agent, d);
    }
    AscendingIsUnique(Later, Days(s), Days(s'));
    forall j | 0 <= j < |s| ensures s[j] == s'[j] {
      assert Days(s)[j] == Days(s')[j];
      TotalsPermuted(cs, cs', Cell(agent, s[j].day));
    }
  }

  /** The agents of the view do not depend on the order of the spend rows. */
  lemma AgentsIgnoreRowOrder(w: Wire, rows': seq<SpendRow>, agents: seq<AgentAccess>, agents': seq<AgentAccess>)
    requires multiset(w.spend) == multiset(rows')
    requires ShowsAgents(w.grants, Charges(w.spend), agents) && ShowsAgents(w.grants, Charges(rows'), agents')
    ensures agents == agents'
  {
    var cs, cs' := Charges(w.spend), Charges(rows');
    ChargesPermuted(w.spend, rows');
    forall name ensures name in Names(agents) <==> name in Names(agents') {
      PermutedMembers(cs, cs', name, 0);
      PermutedMembers(cs', cs, name, 0);
    }
    NamesAreOrdered();
    AscendingIsUnique(NameLess, Names(agents), Names(agents'));
    forall i | 0 <= i < |agents| ensures agents[i] == agents'[i] {
      assert Names(agents)[i] == Names(agents')[i];
      SpendIsUnique(cs, cs', agents[i].agent, agents[i].spend, agents'[i].spend);
    }
  }

  // ---- the view by the rows -----------------------------------------------------------------------

  /** What a row adds to a column; input tokens are the uncached ones and those written to the cache. */
  function ColumnOf(m: Column, r: SpendRow): (n: int) {
    match m
    case Calls => r.calls
    case Cost => r.cost
    case Input => r.uncachedInput + r.cacheWrite
    case CacheRead => r.cacheRead
    case Output => r.output
  }

  /** The row was charged to the agent on the day. */
  predicate Charged(r: SpendRow, agent: string, day: nat) {
    ParseDoor(r.session) == Some(Door(agent, day))
  }

  /** A column over the rows of one agent and day. */
  function DayColumn(m: Column, rows: seq<SpendRow>, agent: string, day: nat): (n: int) {
    if rows == [] then 0
    else
      var r := rows[|rows| - 1];
      DayColumn(m, rows[..|rows| - 1], agent, day) + if Charged(r, agent, day) then ColumnOf(m, r) else 0
  }

  /** A column over all rows that came through the agent door. */
  function DoorColumn(m: Column, rows: seq<SpendRow>): (n: int) {
    if rows == [] then 0
    else
      var r := rows[|rows| - 1];
      DoorColumn(m, rows[..|rows| - 1]) + if ParseDoor(r.session).Some? then ColumnOf(m, r) else 0
  }

  lemma ColumnIs(m: Column, r: SpendRow)
    ensures At(ChargeOf(r).amount, m) == ColumnOf(m, r) && ChargeOf(r).door == ParseDoor(r.session)
  {
  }

  lemma ChargesFront(rows: seq<SpendRow>)
    requires rows != []
    ensures var n := |rows| - 1;
            Charges(rows)[..n] == Charges(rows[..n]) && Charges(rows)[n] == ChargeOf(rows[n])
  {
  }

  lemma {:induction false} DaySumIsColumn(m: Column, rows: seq<SpendRow>, agent: string, day: nat)
    ensures Sum(m, Charges(rows), Cell(agent, day)) == DayColumn(m, rows, agent, day)
    decreases |rows|
  {
    if rows != [] {
      DaySumIsColumn(m, rows[..|rows| - 1], agent, day);
      ChargesFront(rows);
      ColumnIs(m, rows[|rows| - 1]);
    }
  }

  lemma {:induction false} DoorSumIsColumn(m: Column, rows: seq<SpendRow>)
    ensures Sum(m, Charges(rows), AnyDoor) == DoorColumn(m, rows)
    decreases |rows|
  {
    if rows != [] {
      DoorSumIsColumn(m, rows[..|rows| - 1]);
      ChargesFront(rows);
      ColumnIs(m, rows[|rows| - 1]);
    }
  }

  /** Every total shown is the sum of its column over the wire's rows of that agent and day. */
  lemma ShownTotalsAreRows(w: Wire, agents: seq<AgentAccess>, i: nat, j: nat)
    requires ShowsAgents(w.grants, Charges(w.spend), agents) && i < |agents| && j < |agents[i].spend|
    ensures var a, d := agents[i].agent, agents[i].spend[j];
            && d.totals.calls == DayColumn(Calls, w.spend, a, d.day)
            && d.totals.cost == DayColumn(Cost, w.spend, a, d.day)
            && d.totals.input == DayColumn(Input, w.spend, a, d.day)
            && d.totals.cacheRead == DayColumn(CacheRead, w.spend, a, d.day)
            && d.totals.output == DayColumn(Output, w.spend, a, d.day)
  {
    var a, d := agents[i].agent, agents[i].spend[j];
    assert ShowsAgent(w.grants, Charges(w.spend), agents[i]);
    DaySumIsColumn(Calls, w.spend, a, d.day);
    DaySumIsColumn(Cost, w.spend, a, d.day);
    DaySumIsColumn(Input, w.spend, a, d.day);
    DaySumIsColumn(CacheRead, w.spend, a, d.day);
    DaySumIsColumn(Output, w.spend, a, d.day);
  }

  /** Every column, tokens included, is conserved from the wire's agent-door rows to the view. */
  lemma ColumnsConserved(m: Column, w: Wire, agents: seq<AgentAccess>)
    requires ShowsAgents(w.grants, Charges(w.spend), agents)
    ensures AgentsTotal(m, agents) == DoorColumn(m, w.spend)
  {
    DoorSpendConserved(m, w.grants, Charges(w.spend), agents);
    DoorSumIsColumn(m, w.spend);
  }

  ghost predicate SomeCharged(rows: seq<SpendRow>, agent: string, day: nat) {
    exists n :: 0 <= n < |rows| && Charged(rows[n], agent, day)
  }

  /** Days are listed newest first, each of them a day some row of the agent was charged on. */
  lemma DaysNewestFirst(w: Wire, agents: seq<AgentAccess>, i: nat)
    requires ShowsAgents(w.grants, Charges(w.spend), agents) && i < |agents|
    ensures var spend := agents[i].spend;
            && (forall j, k | 0 <= j < k < |spend| :: spend[j].day > spend[k].day)
            && (forall j | 0 <= j < |spend| :: SomeCharged(w.spend, agents[i].agent, spend[j].day))
  {
    var cs, spend := Charges(w.spend), agents[i].spend;
    assert ShowsAgent(w.grants, cs, agents[i]);
    forall j, k | 0 <= j < k < |spend| ensures spend[j].day > spend[k].day {
      assert Later(Days(spend)[j], Days(spend)[k]);
    }
    forall j | 0 <= j < |spend|
      ensures SomeCharged(w.spend, agents[i].agent, spend[j].day)
    {
      assert Days(spend)[j] in Days(spend);
      var n :| 0 <= n < |cs| && Selects(Cell(agents[i].agent, spend[j].day), cs[n]);
      assert Charged(w.spend[n], agents[i].agent, spend[j].day);
    }
  }

  /** The grant shown is the last the wire lists for the agent, list by list. */
  ghost predicate GrantedBy(gs: seq<WireGrant>, i: int, agent: string, g: Grant) {
    && 0 <= i < |gs| && gs[i].agent == agent && (forall j | i < j < |gs| :: gs[j].agent != agent)
    && g.models == gs[i].models && g.tools == gs[i].tools && g.readScopes == gs[i].readScopes
    && g.workspaces == gs[i].workspaces && g.classification == gs[i].classification
  }

  lemma {:induction false} LastGrantExactly(gs: seq<WireGrant>, agent: string, g: Grant)
    ensures LastGrant(gs, agent) == Some(g) <==> exists i :: GrantedBy(gs, i, agent, g)
    decreases |gs|
  {
    if gs != [] {
      var n := |gs| - 1;
      if gs[n].agent == agent {
        assert GrantedBy(gs, n, agent, GrantOf(gs[n]));
        forall i | GrantedBy(gs, i, agent, g) ensures i == n {}
      } else {
        LastGrantExactly(gs[..n], agent, g);
        forall i ensures GrantedBy(gs, i, agent, g) <==> GrantedBy(gs[..n], i, agent, g) {}
      }
    }
  }

  /** A row outside the agent door is shown as it stands, in its place. */
  lemma OthersSnoc(rows: seq<SpendRow>, r: SpendRow)
    ensures var os := Others(rows + [r]);
            if ParseDoor(r.session).Some? then os == Others(rows)
            else
              && |os| == |Others(rows)| + 1 && os[..|os| - 1] == Others(rows)
              && var o := os[|os| - 1];
              && o.session == r.session && o.principal == r.principal && o.model == r.model
              && o.calls == r.calls && o.cost == r.cost
  {
    assert (rows + [r])[..|rows|] == rows;
  }

  predicate IsTag(x: string) {
    x == "unclassified" || x == "internal" || x == "confidential" || x == "restricted" || x == "secret"
  }

  /** A reply is refused for its own refusal or a tag outside the five classifications. */
  lemma AcceptedExactly(w: Wire)
    ensures Accepted(w) <==>
      && !w.refused && (forall i | 0 <= i < |w.models| :: IsTag(w.models[i].ceiling))
      && (forall i | 0 <= i < |w.grants| :: IsTag(w.grants[i].classification))
  {
    forall x ensures x in CLASSIFICATIONS <==> IsTag(x) {}
  }
}
