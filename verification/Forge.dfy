/**
 * The signed policy bundle: authored policies flattened into rules and contributors, and the distribute
 * that signs all of them or nothing.
 */
module Forge {
  import opened Bytes
  import opened Policies
  import opened Lists
  import Semver

  // ---- composition --------------------------------------------------------------------------------

  datatype BundleRule = BundleRule(
    policyId: string, policyVersion: string,
    sourceKind: string, sourceSelectorKind: string, sourceSelectorValue: string,
    destinationKind: string, destinationSelectorKind: string, destinationSelectorValue: string,
    action: string, protocols: seq<string>, ports: string, logging: string)

  datatype Contributor = Contributor(policy: string, version: Semver.Version)

  datatype Composed = Composed(rules: seq<BundleRule>, contributors: seq<Contributor>)

  function Flat(p: Row, r: Rule): (b: BundleRule) {
    BundleRule(p.id, p.version, r.source.kind, r.source.selectorKind, r.source.selectorValue,
               r.destination.kind, r.destination.selectorKind, r.destination.selectorValue, r.action,
               p.authored.network.protocols, p.authored.network.ports, p.authored.logging)
  }

  function FlatAll(p: Row, rules: seq<Rule>): (bs: seq<BundleRule>)
    ensures |bs| == |rules| && forall i | 0 <= i < |rules| :: bs[i] == Flat(p, rules[i])
  {
    if rules == [] then [] else FlatAll(p, rules[..|rules| - 1]) + [Flat(p, rules[|rules| - 1])]
  }

  function FlatPolicy(p: Row): (bs: seq<BundleRule>) {
    FlatAll(p, p.authored.rules)
  }

  function ContributorOf(p: Row): (c: Option<Contributor>) {
    match Semver.Parse(p.version)
    case Some(v) => Some(Contributor(p.id, v))
    case None => None
  }

  function Gathered(parts: seq<seq<BundleRule>>, contributors: seq<Option<Contributor>>): (r: Option<Composed>) {
    match All(contributors)
    case Some(cs) => Some(Composed(Flatten(parts), cs))
    case None => None
  }

  /** The rules and contributors of the policies, in order; `None` when a version does not parse. */
  function Compose(ps: seq<Row>): (r: Option<Composed>) {
    Gathered(Map(FlatPolicy, ps), Map(ContributorOf, ps))
  }

  method ComposeRules(p: Row, before: seq<BundleRule>) returns (rules: seq<BundleRule>)
    ensures rules == before + FlatPolicy(p)
  {
    rules := before;
    for j := 0 to |p.authored.rules|
      invariant rules == before + FlatAll(p, p.authored.rules[..j])
    {
      assert p.authored.rules[..j + 1][..j] == p.authored.rules[..j];
      rules := rules + [Flat(p, p.authored.rules[j])];
    }
    assert p.authored.rules[..|p.authored.rules|] == p.authored.rules;
  }

  lemma AllPrefix<T>(os: seq<Option<T>>, xs: seq<T>, o: Option<T>)
    requires All(os) == Some(xs)
    ensures All(os + [o]) == if o.Some? then Some(xs + [o.value]) else None
  {
    assert (os + [o])[..|os|] == os;
  }

  method ComposeBundleRules(ps: seq<Row>) returns (r: Option<Composed>)
    ensures r == Compose(ps)
  {
    var rules: seq<BundleRule> := [];
    var contributors: seq<Contributor> := [];
    for i := 0 to |ps|
      invariant ComposedSoFar(ps, i, rules, contributors)
    {
      var contributor := ContributorOf(ps[i]);
      if contributor.None? {
        MissingContributor(ps, i);
        return None;
      }
      OneMore(ps, i, rules, contributors);
      contributors := contributors + [contributor.value];
      rules := ComposeRules(ps[i], rules);
    }
    assert ps[..|ps|] == ps;
    return Some(Composed(rules, contributors));
  }

  /** The rules and contributors of the first `i` policies. */
  ghost predicate ComposedSoFar(ps: seq<Row>, i: nat, rules: seq<BundleRule>, contributors: seq<Contributor>)
    requires i <= |ps|
  {
    rules == Flatten(Map(FlatPolicy, ps[..i])) && All(Map(ContributorOf, ps[..i])) == Some(contributors)
  }

  lemma OneMore(ps: seq<Row>, i: nat, rules: seq<BundleRule>, contributors: seq<Contributor>)
    requires i < |ps| && ComposedSoFar(ps, i, rules, contributors) && ContributorOf(ps[i]).Some?
    ensures ComposedSoFar(ps, i + 1, rules + FlatPolicy(ps[i]), contributors + [ContributorOf(ps[i]).value])
  {
    MapPrefix(ContributorOf, ps, i);
    AllPrefix(Map(ContributorOf, ps[..i]), contributors, ContributorOf(ps[i]));
    MapPrefix(FlatPolicy, ps, i);
    FlattenSnoc(Map(FlatPolicy, ps[..i]), FlatPolicy(ps[i]));
  }

  lemma MissingContributor(ps: seq<Row>, i: nat)
    requires i < |ps| && ContributorOf(ps[i]).None?
    ensures Compose(ps).None?
  {
    assert Map(ContributorOf, ps)[i].None?;
  }

  /** A version of three dotted numbers. */
  ghost predicate Dotted(version: string) {
    exists a, b, c :: Semver.IsSemver(version, a, b, c)
  }

  lemma ContributorNeedsVersion(p: Row)
    ensures ContributorOf(p).Some? <==> Dotted(p.version)
  {
    Semver.ParseExact(p.version);
  }

  /** Composition fails exactly when some version is not three dotted numbers. */
  lemma ComposeFails(ps: seq<Row>)
    ensures Compose(ps).None? <==> exists i :: 0 <= i < |ps| && !Dotted(ps[i].version)
  {
    var cs := Map(ContributorOf, ps);
    forall i | 0 <= i < |ps| ensures cs[i].Some? <==> Dotted(ps[i].version) {
      ContributorNeedsVersion(ps[i]);
    }
    assert All(cs).Some? <==> forall i | 0 <= i < |cs| :: cs[i].Some?;
  }

  function Join(a: Option<Composed>, b: Option<Composed>): (r: Option<Composed>) {
    if a.None? || b.None? then None
    else Some(Composed(a.value.rules + b.value.rules, a.value.contributors + b.value.contributors))
  }

  /** Composing a concatenation is the concatenation of the compositions. */
  lemma ComposeConcat(ps: seq<Row>, qs: seq<Row>)
    ensures Compose(ps + qs) == Join(Compose(ps), Compose(qs))
  {
    MapConcat(FlatPolicy, ps, qs);
    MapConcat(ContributorOf, ps, qs);
    FlattenConcat(Map(FlatPolicy, ps), Map(FlatPolicy, qs));
    AllConcat(Map(ContributorOf, ps), Map(ContributorOf, qs));
  }

  // ---- rules and the policies they come from ------------------------------------------------------

  /** Where the rules of policy `i` begin among the flat rules. */
  function RuleOffset(ps: seq<Row>, i: nat): (n: nat)
    requires i <= |ps|
  {
    Offset(Map(FlatPolicy, ps), i)
  }

  /** A flat rule, field by field: the policy it names, the rule's two ends and action, and the policy's
      network qualifier and logging level. */
  predicate IsFlat(b: BundleRule, p: Row, r: Rule) {
    && b.policyId == p.id && b.policyVersion == p.version
    && b.sourceKind == r.source.kind && b.sourceSelectorKind == r.source.selectorKind
    && b.sourceSelectorValue == r.source.selectorValue
    && b.destinationKind == r.destination.kind && b.destinationSelectorKind == r.destination.selectorKind
    && b.destinationSelectorValue == r.destination.selectorValue
    && b.action == r.action && b.protocols == p.authored.network.protocols
    && b.ports == p.authored.network.ports && b.logging == p.authored.logging
  }

  lemma FlatIs(p: Row, r: Rule)
    ensures IsFlat(Flat(p, r), p, r)
  {
  }

  lemma PartAt(p: Row, j: nat)
    requires j < |p.authored.rules|
    ensures |FlatPolicy(p)| == |p.authored.rules| && FlatPolicy(p)[j] == Flat(p, p.authored.rules[j])
  {
  }

  lemma RulesAreFlat(ps: seq<Row>, composed: Composed)
    requires Compose(ps) == Some(composed)
    ensures composed.rules == Flatten(Map(FlatPolicy, ps))
  {
  }

  /** The contributors are the policies, in order. */
  lemma ContributorAt(ps: seq<Row>, composed: Composed, i: nat)
    requires Compose(ps) == Some(composed) && i < |ps|
    ensures |composed.contributors| == |ps| && ContributorOf(ps[i]) == Some(composed.contributors[i])
  {
    var os := Map(ContributorOf, ps);
    assert All(os) == Some(composed.contributors);
    assert os[i] == ContributorOf(ps[i]);
  }

  /** Rule `j` of policy `i` is flat rule `RuleOffset(i) + j`. */
  lemma RuleAt(ps: seq<Row>, composed: Composed, i: nat, j: nat)
    requires Compose(ps) == Some(composed) && i < |ps| && j < |ps[i].authored.rules|
    ensures RuleOffset(ps, i) + j < |composed.rules|
    ensures composed.rules[RuleOffset(ps, i) + j] == Flat(ps[i], ps[i].authored.rules[j])
    ensures IsFlat(composed.rules[RuleOffset(ps, i) + j], ps[i], ps[i].authored.rules[j])
  {
    RulesAreFlat(ps, composed);
    FlatRuleAt(ps, Map(FlatPolicy, ps), i, j);
    FlatIs(ps[i], ps[i].authored.rules[j]);
  }

  lemma FlatRuleAt(ps: seq<Row>, parts: seq<seq<BundleRule>>, i: nat, j: nat)
    requires |parts| == |ps| && i < |ps| && parts[i] == FlatPolicy(ps[i]) && j < |ps[i].authored.rules|
    ensures Offset(parts, i) + j < |Flatten(parts)|
    ensures Flatten(parts)[Offset(parts, i) + j] == Flat(ps[i], ps[i].authored.rules[j])
  {
    PartAt(ps[i], j);
    FlattenAt(parts, i, j);
  }

  /** The flat rules are in policy order, then rule order, with no two pairs at one place. */
  lemma RulesKeepOrder(ps: seq<Row>, i: nat, j: nat, i': nat, j': nat)
    requires i < |ps| && j < |ps[i].authored.rules| && i' < |ps| && j' < |ps[i'].authored.rules|
    ensures RuleOffset(ps, i) + j < RuleOffset(ps, i') + j' <==> i < i' || (i == i' && j < j')
  {
    FlattenOnce(Map(FlatPolicy, ps), i, j, i', j');
  }

  lemma RulePlace(ps: seq<Row>, composed: Composed, k: nat) returns (i: nat, j: nat)
    requires Compose(ps) == Some(composed) && k < |composed.rules|
    ensures i < |ps| && j < |ps[i].authored.rules| && k == RuleOffset(ps, i) + j
    ensures composed.rules[k] == Flat(ps[i], ps[i].authored.rules[j])
  {
    RulesAreFlat(ps, composed);
    i, j := FlattenOrigin(Map(FlatPolicy, ps), k);
    FlatRuleAt(ps, Map(FlatPolicy, ps), i, j);
  }

  /** The contributor is the policy version the rule names. */
  predicate Names(b: BundleRule, c: Contributor) {
    c.policy == b.policyId && Semver.Parse(b.policyVersion) == Some(c.version)
  }

  lemma NamesContributor(p: Row, r: Rule, b: BundleRule, c: Contributor)
    requires ContributorOf(p) == Some(c) && b == Flat(p, r)
    ensures Names(b, c)
  {
  }

  /** Every flat rule comes from a policy's rule, and names that policy among the contributors. */
  lemma RuleOrigin(ps: seq<Row>, composed: Composed, k: nat) returns (i: nat, j: nat)
    requires Compose(ps) == Some(composed) && k < |composed.rules|
    ensures i < |ps| && j < |ps[i].authored.rules| && k == RuleOffset(ps, i) + j
    ensures IsFlat(composed.rules[k], ps[i], ps[i].authored.rules[j])
    ensures i < |composed.contributors| && Names(composed.rules[k], composed.contributors[i])
  {
    i, j := RulePlace(ps, composed, k);
    RuleContributor(ps, composed, i, j, k);
    FlatIs(ps[i], ps[i].authored.rules[j]);
  }

  lemma RuleContributor(ps: seq<Row>, composed: Composed, i: nat, j: nat, k: nat)
    requires Compose(ps) == Some(composed) && k < |composed.rules| && i < |ps| && j < |ps[i].authored.rules|
    requires composed.rules[k] == Flat(ps[i], ps[i].authored.rules[j])
    ensures i < |composed.contributors| && Names(composed.rules[k], composed.contributors[i])
  {
    ContributorAt(ps, composed, i);
    NamesContributor(ps[i], ps[i].authored.rules[j], composed.rules[k], composed.contributors[i]);
  }

  // ---- distribute ---------------------------------------------------------------------------------

  const LEASE_WINDOW_MS: int := 24 * 60 * 60 * 1000

  datatype Posture = Posture(domain: string, posture: string)

  datatype Zone = Zone(id: string, effectivePostures: seq<Posture>)

  datatype BundleDraft = BundleDraft(
    version: int, allowOrdinaryInternet: bool, rules: seq<BundleRule>, contributors: seq<Contributor>,
    vtz: string, members: seq<string>, issuedAt: int, notAfter: int)

  /** The posture the zone ends up with for a domain: the last one listed. */
  function PostureOf(ps: seq<Posture>, domain: string): (r: Option<string>) {
    if ps == [] then None
    else if ps[|ps| - 1].domain == domain then Some(ps[|ps| - 1].posture)
    else PostureOf(ps[..|ps| - 1], domain)
  }

  function DraftForZone(zone: Zone, commitVersion: int, members: seq<string>, c: Composed, now: int): (d: BundleDraft)
  {
    BundleDraft(commitVersion, PostureOf(zone.effectivePostures, "ordinary-network") == Some("permit-deny-risky"),
                c.rules, c.contributors, zone.id, members, now, now + LEASE_WINDOW_MS)
  }

  lemma {:induction false} PostureIsLast(ps: seq<Posture>, domain: string, posture: string)
    ensures PostureOf(ps, domain) == Some(posture) <==>
      exists i :: 0 <= i < |ps| && ps[i] == Posture(domain, posture)
        && forall j | i < j < |ps| :: ps[j].domain != domain
    decreases |ps|
  {
    if ps != [] {
      var n := |ps| - 1;
      if ps[n].domain == domain {
        assert ps[n].posture == posture ==> ps[n] == Posture(domain, posture);
      } else {
        PostureIsLast(ps[..n], domain, posture);
        assert forall i | 0 <= i < n :: ps[..n][i] == ps[i];
      }
    }
  }

  /** Ordinary internet opens only on an explicit permit that nothing later in the list overrides. */
  lemma OpenNeedsPermit(zone: Zone, v: int, members: seq<string>, c: Composed, now: int)
    ensures DraftForZone(zone, v, members, c, now).allowOrdinaryInternet <==>
      exists i :: 0 <= i < |zone.effectivePostures|
        && zone.effectivePostures[i] == Posture("ordinary-network", "permit-deny-risky")
        && forall j | i < j < |zone.effectivePostures| :: zone.effectivePostures[j].domain != "ordinary-network"
  {
    PostureIsLast(zone.effectivePostures, "ordinary-network", "permit-deny-risky");
  }

  datatype DistributeError = ZoneUnknown | UnknownTag | UnparseableVersion | SignerRefused | CommitRefused

  /** The rows of the effective records, or `None` when one does not project. */
  function Rows(records: seq<WireRecord>): (r: Option<seq<Row>>) {
    All(Map(RowOf, records))
  }

  method ProjectAll(records: seq<WireRecord>) returns (r: Option<seq<Row>>)
    ensures r == Rows(records)
  {
    var policies: seq<Row> := [];
    for i := 0 to |records|
      invariant All(Map(RowOf, records[..i])) == Some(policies)
    {
      var row := ToPolicyRow(records[i]);
      MapPrefix(RowOf, records, i);
      AllPrefix(Map(RowOf, records[..i]), policies, row);
      if row.None? {
        assert Map(RowOf, records)[i].None?;
        return None;
      }
      policies := policies + [row.value];
    }
    assert records[..|records|] == records;
    return Some(policies);
  }

  /** The draft a distribute signs, or why there is none. */
  function DraftFor(zone: Option<Zone>, commitVersion: int, records: seq<WireRecord>, members: seq<string>, now: int)
    : (r: Drafted)
  {
    if zone.None? then NotDrafted(ZoneUnknown)
    else
      match Rows(records)
      case None => NotDrafted(UnknownTag)
      case Some(rows) =>
        match Compose(rows)
        case None => NotDrafted(UnparseableVersion)
        case Some(c) => Ready(DraftForZone(zone.value, commitVersion, members, c, now))
  }

  datatype Drafted = Ready(draft: BundleDraft) | NotDrafted(error: DistributeError)

  /** A draft is ready exactly when every record has known tags and a version of three numbers, and then
      has one contributor per record. */
  lemma AllOrNothing(zone: Zone, v: int, records: seq<WireRecord>, members: seq<string>, now: int)
    ensures DraftFor(Some(zone), v, records, members, now).Ready? <==>
      forall i | 0 <= i < |records| :: Readable(records[i]) && Dotted(records[i].version)
    ensures var d := DraftFor(Some(zone), v, records, members, now);
            d.Ready? ==>
              && Rows(records).Some? && |Rows(records).value| == |records|
              && Compose(Rows(records).value) == Some(Composed(d.draft.rules, d.draft.contributors))
              && |d.draft.contributors| == |records|
  {
    RowsAreAll(records);
    RowsAreReadable(records);
    if Rows(records).Some? {
      ComposeFails(Rows(records).value);
    }
  }

  lemma RowsAreReadable(records: seq<WireRecord>)
    ensures forall i | 0 <= i < |records| :: RowOf(records[i]).Some? <==> Readable(records[i])
  {
    forall i | 0 <= i < |records| ensures RowOf(records[i]).Some? <==> Readable(records[i]) {
      RowExactly(records[i]);
    }
  }

  /** Why there is no draft: an unknown zone first, then a record with an unknown tag, then a version that
      is not three numbers. */
  lemma RefusedExactly(zone: Option<Zone>, v: int, records: seq<WireRecord>, members: seq<string>, now: int)
    ensures var d := DraftFor(zone, v, records, members, now);
            && (d == NotDrafted(ZoneUnknown) <==> zone == None)
            && (d == NotDrafted(UnknownTag) <==>
                  zone.Some? && exists i :: 0 <= i < |records| && !Readable(records[i]))
            && (d == NotDrafted(UnparseableVersion) <==>
                  && zone.Some? && (forall i | 0 <= i < |records| :: Readable(records[i]))
                  && exists i :: 0 <= i < |records| && !Dotted(records[i].version))
  {
    RowsAreAll(records);
    RowsAreReadable(records);
    if Rows(records).Some? {
      ComposeFails(Rows(records).value);
    }
  }

  /** The draft's own fields: the store's commit version, the zone and the chosen members, and a lease of
      24 hours from now. */
  lemma DraftIsScoped(zone: Zone, v: int, records: seq<WireRecord>, members: seq<string>, now: int)
    requires DraftFor(Some(zone), v, records, members, now).Ready?
    ensures var d := DraftFor(Some(zone), v, records, members, now).draft;
            && d.version == v && d.vtz == zone.id && d.members == members
            && d.issuedAt == now && d.notAfter == now + 86_400_000
  {
  }

  // ---- from the engine's records to the signed rules ----------------------------------------------

  /** How many rules the first `i` records have. */
  function RulesBefore(records: seq<WireRecord>, i: nat): (n: nat)
    requires i <= |records|
  {
    if i == 0 then 0 else RulesBefore(records, i - 1) + |records[i - 1].spec.rules|
  }

  /** A bundle rule carries a rule of a record, field by field. */
  predicate FromRecord(b: BundleRule, record: WireRecord, w: WireRule) {
    && b.policyId == record.id && b.policyVersion == record.version
    && b.sourceKind == w.sourceKind && b.sourceSelectorKind == w.sourceSelectorKind
    && b.sourceSelectorValue == w.sourceSelectorValue
    && b.destinationKind == w.destinationKind && b.destinationSelectorKind == w.destinationSelectorKind
    && b.destinationSelectorValue == w.destinationSelectorValue && b.action == w.action
    && ShowsAxis(record.spec.protocols, b.protocols) && ShowsAxis(record.spec.ports, b.ports)
    && b.logging == record.spec.logging
  }

  lemma FlatFromRecord(b: BundleRule, record: WireRecord, row: Row, j: nat)
    requires ShowsRow(record, row) && j < |record.spec.rules| && IsFlat(b, row, row.authored.rules[j])
    ensures FromRecord(b, record, record.spec.rules[j])
  {
    assert ShowsRule(record.spec.rules[j], row.authored.rules[j]);
  }

  lemma RowShown(records: seq<WireRecord>, rows: seq<Row>, i: nat)
    requires Rows(records) == Some(rows) && i < |records|
    ensures |rows| == |records| && ShowsRow(records[i], rows[i])
  {
    RowExactly(records[i]);
    assert Map(RowOf, records)[i] == Some(rows[i]);
  }

  lemma {:induction false} OffsetsByLength(records: seq<WireRecord>, parts: seq<seq<BundleRule>>, i: nat)
    requires i <= |records| == |parts| && forall k | 0 <= k < |parts| :: |parts[k]| == |records[k].spec.rules|
    ensures Offset(parts, i) == RulesBefore(records, i)
    decreases i
  {
    if i > 0 {
      OffsetsByLength(records, parts, i - 1);
    }
  }

  lemma OffsetIsRulesBefore(records: seq<WireRecord>, rows: seq<Row>, i: nat)
    requires Rows(records) == Some(rows) && i <= |records| == |rows|
    ensures RuleOffset(rows, i) == RulesBefore(records, i)
  {
    var parts := Map(FlatPolicy, rows);
    forall k | 0 <= k < |parts| ensures |parts[k]| == |records[k].spec.rules| {
      RowShown(records, rows, k);
      FlatLength(rows[k]);
    }
    OffsetsByLength(records, parts, i);
  }

  lemma FlatLength(p: Row)
    ensures |FlatPolicy(p)| == |p.authored.rules|
  {
  }

  /** All or nothing, rule by rule: rule `j` of record `i` is in the signed draft, after the rules of the
      records before it, with every field the record gives it; and its contributor is that record. */
  lemma BundleCarries(zone: Zone, v: int, records: seq<WireRecord>, members: seq<string>, now: int, i: nat, j: nat)
    requires DraftFor(Some(zone), v, records, members, now).Ready?
    requires i < |records| && j < |records[i].spec.rules|
    ensures var d, k := DraftFor(Some(zone), v, records, members, now).draft, RulesBefore(records, i) + j;
            && k < |d.rules| && FromRecord(d.rules[k], records[i], records[i].spec.rules[j])
            && i < |d.contributors| && d.contributors[i].policy == records[i].id
            && Semver.Parse(records[i].version) == Some(d.contributors[i].version)
  {
    AllOrNothing(zone, v, records, members, now);
    var d, rows := DraftFor(Some(zone), v, records, members, now).draft, Rows(records).value;
    RowCarries(records, rows, Composed(d.rules, d.contributors), i, j);
  }

  lemma RowCarries(records: seq<WireRecord>, rows: seq<Row>, composed: Composed, i: nat, j: nat)
    requires Rows(records) == Some(rows) && Compose(rows) == Some(composed)
    requires i < |records| && j < |records[i].spec.rules|
    ensures var k := RulesBefore(records, i) + j;
            && k < |composed.rules| && FromRecord(composed.rules[k], records[i], records[i].spec.rules[j])
            && i < |composed.contributors| && composed.contributors[i].policy == records[i].id
            && Semver.Parse(records[i].version) == Some(composed.contributors[i].version)
  {
    RowShown(records, rows, i);
    OffsetIsRulesBefore(records, rows, i);
    RuleAt(rows, composed, i, j);
    var k := RulesBefore(records, i) + j;
    FlatFromRecord(composed.rules[k], records[i], rows[i], j);
    RuleContributor(rows, composed, i, j, k);
  }

  lemma RowsAreAll(records: seq<WireRecord>)
    ensures Rows(records).Some? <==> forall i | 0 <= i < |records| :: RowOf(records[i]).Some?
    ensures Rows(records).Some? ==> |Rows(records).value| == |records|
    ensures Rows(records).Some? ==>
      forall i | 0 <= i < |records| :: Rows(records).value[i].version == records[i].version
  {
    var os := Map(RowOf, records);
    assert All(os).Some? <==> forall i | 0 <= i < |os| :: os[i].Some?;
    forall i | 0 <= i < |records| ensures os[i].Some? ==> os[i].value.version == records[i].version {
      RowVersion(records[i]);
    }
  }

  lemma RowVersion(record: WireRecord)
    ensures RowOf(record).Some? ==> RowOf(record).value.version == record.version
  {
  }

  /** The engine's bundle store, which keeps what was committed. */
  class Carrier {
    var committed: seq<seq<byte>>

    constructor ()
      ensures committed == []
    {
      committed := [];
    }

    /** One signed bundle over every effective policy, or no change and a reason. */
    method Distribute(zone: Option<Zone>, commitVersion: int, records: seq<WireRecord>, members: seq<string>,
                      now: int, sign: BundleDraft -> Option<seq<byte>>, accepts: seq<byte> -> bool)
      returns (r: Option<DistributeError>)
      modifies this
      ensures match DraftFor(zone, commitVersion, records, members, now)
              case NotDrafted(e) => r == Some(e) && committed == old(committed)
              case Ready(draft) =>
                if sign(draft).None? then r == Some(SignerRefused) && committed == old(committed)
                else if !accepts(sign(draft).value) then r == Some(CommitRefused) && committed == old(committed)
                else r == None && committed == old(committed) + [sign(draft).value]
    {
      if zone.None? {
        return Some(ZoneUnknown);
      }
      var policies := ProjectAll(records);
      if policies.None? {
        return Some(UnknownTag);
      }
      var composed := ComposeBundleRules(policies.value);
      if composed.None? {
        return Some(UnparseableVersion);
      }
      var signed := sign(DraftForZone(zone.value, commitVersion, members, composed.value, now));
      if signed.None? {
        return Some(SignerRefused);
      }
      if !accepts(signed.value) {
        return Some(CommitRefused);
      }
      committed := committed + [signed.value];
      return None;
    }
  }
}
