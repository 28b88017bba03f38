/**
 * Policy drafts on their way to the engine and back: the wire spec with its empty axes left out, the
 * CBOR record in field order, and the row projected from the record that returns.
 */
module Policies {
  import opened Bytes
  import opened Cbor
  import opened CborRoundTrip
  import opened Lists
  import CborDecode
  import Doubles
  import Utf8

  // ---- closed tag sets ----------------------------------------------------------------------------

  const ACTIONS: seq<string> := ["permit", "monitor", "quarantine", "deny"]
  const LOGGING: seq<string> := ["full", "sampled", "off"]
  const PROTOCOLS: seq<string> := ["tcp", "udp", "https", "ssh"]
  const LIFECYCLES: seq<string> := ["draft", "published"]
  const DAYS: seq<string> := ["mon", "tue", "wed", "thu", "fri", "sat", "sun"]
  const CLASSIFICATIONS: seq<string> := ["unclassified", "internal", "confidential", "restricted", "secret"]
  const OBJECT_KINDS: seq<string> :=
    ["user", "group", "agent", "service", "server", "application", "uri", "network", "registry_key",
     "certificate", "script", "data_store"]
  const SELECTOR_KINDS: seq<string> := ["exact", "glob", "group_ref", "cidr"]

  predicate Plain(tags: seq<string>) {
    forall i | 0 <= i < |tags| :: !HasBom(tags[i])
  }

  lemma TagsArePlain()
    ensures Plain(ACTIONS) && Plain(LOGGING) && Plain(PROTOCOLS) && Plain(LIFECYCLES) && Plain(DAYS)
    ensures Plain(CLASSIFICATIONS) && Plain(OBJECT_KINDS) && Plain(SELECTOR_KINDS)
  {
  }

  // ---- entities -----------------------------------------------------------------------------------

  datatype Endpoint = Endpoint(kind: string, selectorKind: string, selectorValue: string)

  datatype Rule = Rule(source: Endpoint, destination: Endpoint, action: string)

  datatype WireRule = WireRule(
    sourceKind: string, sourceSelectorKind: string, sourceSelectorValue: string,
    destinationKind: string, destinationSelectorKind: string, destinationSelectorValue: string,
    action: string)

  /** An Applied-To member; on the wire an agent of `None` is left out. */
  datatype Member = Member(endpointCn: string, agent: Option<string>)

  datatype Network = Network(protocols: seq<string>, ports: string)

  /** A number in its one form: an integral double other than -0 is an integer. */
  predicate IsNumber(v: Value) {
    v.Int? || (v.Float? && NumberOf(v.bits) == v)
  }

  type Number = v: Value | IsNumber(v) witness Int(0)

  datatype Restrictions = Restrictions(
    scheduleDays: seq<string>, scheduleStartMinute: Option<Number>, scheduleEndMinute: Option<Number>,
    activeFrom: Option<Number>, activeUntil: Option<Number>, geo: seq<string>, tags: seq<string>)

  datatype Draft = Draft(
    vtz: string, name: string, description: string, rules: seq<Rule>, network: Network,
    restrictions: Restrictions, logging: string, appliedTo: seq<Member>, maxClassification: string)

  datatype WireSpec = WireSpec(
    vtz: string, name: string, description: string, rules: seq<WireRule>,
    protocols: Option<seq<string>>, ports: Option<string>, scheduleDays: Option<seq<string>>,
    scheduleStartMinute: Option<Number>, scheduleEndMinute: Option<Number>, activeFrom: Option<Number>,
    activeUntil: Option<Number>, geo: Option<seq<string>>, restrictionTags: Option<seq<string>>,
    logging: string, appliedTo: Option<seq<Member>>, maxClassification: string,
    defaultPostures: Option<seq<DomainPosture>>)

  /** A domain's default posture, which a spec may carry and no draft sets. */
  datatype DomainPosture = DomainPosture(domain: string, posture: string, floor: bool)

  /** The engine's record: the spec's fields and the three the store owns. */
  datatype WireRecord = WireRecord(id: string, version: string, lifecycle: string, spec: WireSpec)

  /** A policy row: the store's fields and the authored ones. */
  datatype Row = Row(id: string, version: string, lifecycle: string, authored: Draft)

  // ---- what the draft's static types demand -------------------------------------------------------

  predicate KnownTags(tags: seq<string>, xs: seq<string>) {
    forall i | 0 <= i < |xs| :: xs[i] in tags
  }

  predicate KnownEndpoint(e: Endpoint) {
    e.kind in OBJECT_KINDS && e.selectorKind in SELECTOR_KINDS
  }

  predicate KnownRule(r: Rule) {
    KnownEndpoint(r.source) && KnownEndpoint(r.destination) && r.action in ACTIONS
  }

  /** Every tag of the draft is one of its closed set, as `PolicyDraft` types it. */
  predicate Typed(d: Draft) {
    && (forall i | 0 <= i < |d.rules| :: KnownRule(d.rules[i]))
    && KnownTags(PROTOCOLS, d.network.protocols)
    && KnownTags(DAYS, d.restrictions.scheduleDays)
    && d.logging in LOGGING
    && d.maxClassification in CLASSIFICATIONS
  }

  // ---- draft to spec ------------------------------------------------------------------------------

  function RuleToWire(r: Rule): (w: WireRule) {
    WireRule(r.source.kind, r.source.selectorKind, r.source.selectorValue,
             r.destination.kind, r.destination.selectorKind, r.destination.selectorValue, r.action)
  }

  /** An empty axis is left out. */
  function Axis<T>(xs: seq<T>): (o: Option<seq<T>>) {
    if xs == [] then None else Some(xs)
  }

  function SpecOf(d: Draft): (s: WireSpec) {
    var r := d.restrictions;
    WireSpec(d.vtz, d.name, d.description, Map(RuleToWire, d.rules), Axis(d.network.protocols),
             Axis(d.network.ports), Axis(r.scheduleDays), r.scheduleStartMinute, r.scheduleEndMinute,
             r.activeFrom, r.activeUntil, Axis(r.geo), Axis(r.tags), d.logging, Axis(d.appliedTo),
             d.maxClassification, None)
  }

  /** A wire rule carries the rule field by field. */
  predicate CarriesRule(r: Rule, w: WireRule) {
    && w.sourceKind == r.source.kind && w.sourceSelectorKind == r.source.selectorKind
    && w.sourceSelectorValue == r.source.selectorValue
    && w.destinationKind == r.destination.kind && w.destinationSelectorKind == r.destination.selectorKind
    && w.destinationSelectorValue == r.destination.selectorValue && w.action == r.action
  }

  predicate CarriesRules(rs: seq<Rule>, ws: seq<WireRule>) {
    |ws| == |rs| && forall i | 0 <= i < |rs| :: CarriesRule(rs[i], ws[i])
  }

  /** A list is left out exactly when it is empty. */
  predicate CarriesAxis<T(==)>(xs: seq<T>, o: Option<seq<T>>) {
    if xs == [] then o == None else o == Some(xs)
  }

  predicate CarriesRestrictions(r: Restrictions, s: WireSpec) {
    && s.scheduleStartMinute == r.scheduleStartMinute && s.scheduleEndMinute == r.scheduleEndMinute
    && s.activeFrom == r.activeFrom && s.activeUntil == r.activeUntil
    && CarriesAxis(r.scheduleDays, s.scheduleDays) && CarriesAxis(r.geo, s.geo)
    && CarriesAxis(r.tags, s.restrictionTags)
  }

  /** The spec carries the draft field by field, and no default postures. */
  predicate Carries(d: Draft, s: WireSpec) {
    && s.vtz == d.vtz && s.name == d.name && s.description == d.description
    && s.logging == d.logging && s.maxClassification == d.maxClassification
    && CarriesAxis(d.network.protocols, s.protocols) && CarriesAxis(d.network.ports, s.ports)
    && CarriesAxis(d.appliedTo, s.appliedTo) && s.defaultPostures == None
    && CarriesRestrictions(d.restrictions, s) && CarriesRules(d.rules, s.rules)
  }

  lemma SpecCarries(d: Draft)
    ensures Carries(d, SpecOf(d))
  {
  }

  method ToWirePolicySpec(d: Draft) returns (spec: WireSpec)
    ensures spec == SpecOf(d) && Carries(d, spec)
  {
    SpecCarries(d);
    spec := WireSpec(d.vtz, d.name, d.description, Map(RuleToWire, d.rules), None, None, None, None, None,
                     None, None, None, None, d.logging, None, d.maxClassification, None);
    if |d.network.protocols| > 0 { spec := spec.(protocols := Some(d.network.protocols)); }
    if d.network.ports != "" { spec := spec.(ports := Some(d.network.ports)); }
    spec := SetRestrictions(spec, d.restrictions);
    if |d.appliedTo| > 0 { spec := spec.(appliedTo := Some(d.appliedTo)); }
  }

  method SetRestrictions(spec0: WireSpec, r: Restrictions) returns (spec: WireSpec)
    requires && spec0.scheduleDays == None && spec0.scheduleStartMinute == None && spec0.scheduleEndMinute == None
             && spec0.activeFrom == None && spec0.activeUntil == None
             && spec0.geo == None && spec0.restrictionTags == None
    ensures spec == spec0.(
      scheduleDays := Axis(r.scheduleDays), scheduleStartMinute := r.scheduleStartMinute,
      scheduleEndMinute := r.scheduleEndMinute, activeFrom := r.activeFrom, activeUntil := r.activeUntil,
      geo := Axis(r.geo), restrictionTags := Axis(r.tags))
  {
    spec := spec0;
    if |r.scheduleDays| > 0 { spec := spec.(scheduleDays := Some(r.scheduleDays)); }
    if r.scheduleStartMinute.Some? { spec := spec.(scheduleStartMinute := r.scheduleStartMinute); }
    if r.scheduleEndMinute.Some? { spec := spec.(scheduleEndMinute := r.scheduleEndMinute); }
    if r.activeFrom.Some? { spec := spec.(activeFrom := r.activeFrom); }
    if r.activeUntil.Some? { spec := spec.(activeUntil := r.activeUntil); }
    if |r.geo| > 0 { spec := spec.(geo := Some(r.geo)); }
    if |r.tags| > 0 { spec := spec.(restrictionTags := Some(r.tags)); }
  }

  // ---- spec to CBOR record ------------------------------------------------------------------------

  /** A property that may be left out. */
  datatype Field = Field(key: string, value: Option<Value>)

  function Present(fs: seq<Field>): (es: seq<Entry>) {
    if fs == [] then [] else Own(fs[0]) + Present(fs[1..])
  }

  function Own(f: Field): (es: seq<Entry>) {
    if f.value.Some? then [Entry(f.key, f.value.value)] else []
  }

  function Required(key: string, s: string): (f: Field) {
    Field(key, Some(Text(s)))
  }

  function OptionalNumber(key: string, o: Option<Number>): (f: Field) {
    Field(key, if o.Some? then Some(o.value) else None)
  }

  function OptionalText(key: string, o: Option<string>): (f: Field) {
    Field(key, if o.Some? && o.value != "" then Some(Text(o.value)) else None)
  }

  function TextValue(s: string): (v: Value) { Text(s) }

  function OptionalTexts(key: string, o: Option<seq<string>>): (f: Field) {
    Field(key, if o.Some? && o.value != [] then Some(Arr(Map(TextValue, o.value))) else None)
  }

  function RuleFields(r: WireRule): (fs: seq<Field>) {
    [ Required("source_kind", r.sourceKind),
      Required("source_selector_kind", r.sourceSelectorKind),
      Required("source_selector_value", r.sourceSelectorValue),
      Required("destination_kind", r.destinationKind),
      Required("destination_selector_kind", r.destinationSelectorKind),
      Required("destination_selector_value", r.destinationSelectorValue),
      Required("action", r.action) ]
  }

  function RuleToCbor(r: WireRule): (v: Value) { Obj(Present(RuleFields(r))) }

  function MemberFields(m: Member): (fs: seq<Field>) {
    [ Required("endpoint_cn", m.endpointCn),
      AgentField(m) ]
  }

  function AgentField(m: Member): (f: Field) {
    Field("agent", if m.agent.Some? then Some(Text(m.agent.value)) else None)
  }

  function MemberToCbor(m: Member): (v: Value) { Obj(Present(MemberFields(m))) }

  function PostureFields(p: DomainPosture): (fs: seq<Field>) {
    [ Required("domain", p.domain), Required("posture", p.posture), Field("floor", Some(Bool(p.floor))) ]
  }

  function PostureToCbor(p: DomainPosture): (v: Value) { Obj(Present(PostureFields(p))) }

  function SpecFields(s: WireSpec): (fs: seq<Field>) {
    [ Required("vtz", s.vtz),
      Required("name", s.name),
      Required("description", s.description),
      RulesField(s.rules),
      OptionalTexts("protocols", s.protocols),
      OptionalText("ports", s.ports),
      OptionalTexts("schedule_days", s.scheduleDays),
      OptionalNumber("schedule_start_minute", s.scheduleStartMinute),
      OptionalNumber("schedule_end_minute", s.scheduleEndMinute),
      OptionalNumber("active_from", s.activeFrom),
      OptionalNumber("active_until", s.activeUntil),
      OptionalTexts("geo", s.geo),
      OptionalTexts("restriction_tags", s.restrictionTags),
      Required("logging", s.logging),
      MembersField(s.appliedTo),
      Required("max_classification", s.maxClassification),
      PosturesField(s.defaultPostures) ]
  }

  function RulesField(rs: seq<WireRule>): (f: Field) {
    Field("rules", Some(Arr(Map(RuleToCbor, rs))))
  }

  function MembersField(o: Option<seq<Member>>): (f: Field) {
    Field("applied_to", if o.Some? && o.value != [] then Some(Arr(Map(MemberToCbor, o.value))) else None)
  }

  function PosturesField(o: Option<seq<DomainPosture>>): (f: Field) {
    Field("default_postures", if o.Some? && o.value != [] then Some(Arr(Map(PostureToCbor, o.value))) else None)
  }

  function SpecToCbor(s: WireSpec): (v: Value) { Obj(Present(SpecFields(s))) }

  // ---- fields with distinct names -----------------------------------------------------------------

  /** Distinct names that are neither array indices nor `__proto__` and carry no byte order mark. */
  ghost predicate GoodNames(fs: seq<Field>) {
    && (forall i | 0 <= i < |fs| :: !IsIndex(fs[i].key) && fs[i].key != PROTO && !HasBom(fs[i].key))
    && (forall i, j | 0 <= i < j < |fs| :: fs[i].key != fs[j].key)
  }

  function Get(es: seq<Entry>, k: string): (o: Option<Value>) {
    if es == [] then None else if es[0].key == k then Some(es[0].value) else Get(es[1..], k)
  }

  lemma {:induction false} GetAbsent(fs: seq<Field>, k: string)
    requires forall i | 0 <= i < |fs| :: fs[i].key != k
    ensures Get(Present(fs), k) == None
    decreases |fs|
  {
    if fs != [] {
      GetAbsent(fs[1..], k);
      assert fs[0].value.Some? ==> Present(fs)[1..] == Present(fs[1..]);
      assert fs[0].value.None? ==> Present(fs) == Present(fs[1..]);
    }
  }

  lemma {:induction false} GetPresent(fs: seq<Field>, i: nat)
    requires GoodNames(fs) && i < |fs|
    ensures Get(Present(fs), fs[i].key) == fs[i].value
    decreases |fs|
  {
    assert fs[0].value.Some? ==> Present(fs)[1..] == Present(fs[1..]);
    assert fs[0].value.None? ==> Present(fs) == Present(fs[1..]);
    if i == 0 {
      GetAbsent(fs[1..], fs[0].key);
    } else {
      assert fs[0].key != fs[i].key;
      GetPresent(fs[1..], i - 1);
    }
  }

  /** The fields after a trip through the codec. */
  function Returned(fs: seq<Field>): (r: seq<Field>)
    ensures |r| == |fs| && forall i | 0 <= i < |fs| :: r[i] == ReturnedField(fs[i])
  {
    Map(ReturnedField, fs)
  }

  function ReturnedField(f: Field): (r: Field) {
    Field(f.key, if f.value.Some? then Some(ReadBack(f.value.value)) else None)
  }

  lemma {:induction false} ReturnedPresent(fs: seq<Field>)
    requires GoodNames(fs)
    ensures ReadBackEntries(Present(fs)) == Present(Returned(fs))
    decreases |fs|
  {
    if fs != [] {
      ReturnedPresent(fs[1..]);
      assert Returned(fs)[1..] == Returned(fs[1..]);
      assert fs[0].value.Some? ==> Present(fs)[1..] == Present(fs[1..]);
      assert fs[0].value.None? ==> Present(fs) == Present(fs[1..]);
    }
  }

  lemma {:induction false} PresentKeys(fs: seq<Field>, j: nat) returns (i: nat)
    requires j < |Present(fs)|
    ensures i < |fs| && Present(fs)[j].key == fs[i].key
    decreases |fs|
  {
    if fs[0].value.None? {
      assert Present(fs) == Present(fs[1..]);
      i := PresentKeys(fs[1..], j);
      i := i + 1;
    } else if j == 0 {
      i := 0;
    } else {
      assert Present(fs)[1..] == Present(fs[1..]);
      i := PresentKeys(fs[1..], j - 1);
      i := i + 1;
    }
  }

  lemma {:induction false} PresentOrdered(fs: seq<Field>)
    requires GoodNames(fs)
    ensures Ordered(Present(fs)) && !HasKey(Present(fs), PROTO)
    decreases |fs|
  {
    if fs != [] {
      PresentOrdered(fs[1..]);
      if fs[0].value.None? {
        assert Present(fs) == Present(fs[1..]);
      } else {
        var es := Present(fs);
        assert es[1..] == Present(fs[1..]);
        HasKeyTail(es, PROTO);
        forall i, j | 0 <= i < j < |es| ensures es[i].key != es[j].key && !Before(es[j].key, es[i].key) {
          assert es[j] == es[1..][j - 1];
          var n := PresentKeys(fs[1..], j - 1);
          assert es[j].key == fs[n + 1].key;
          if i > 0 {
            assert es[i] == es[1..][i - 1];
          }
        }
      }
    }
  }

  lemma {:induction false} ObjReturns(es: seq<Entry>, back: seq<Entry>)
    requires ReadBackEntries(es) == back && Rebuilt(back) == Obj(back)
    ensures ReadBack(Obj(es)) == Obj(back)
  {
  }

  lemma ReturnedNames(fs: seq<Field>)
    requires GoodNames(fs)
    ensures GoodNames(Returned(fs))
  {
  }

  /** What comes back of a record with good names: the same properties, each read back. */
  lemma RecordReturns(fs: seq<Field>)
    requires GoodNames(fs)
    ensures ReadBack(Obj(Present(fs))) == Obj(Present(Returned(fs))) && GoodNames(Returned(fs))
  {
    ReturnedNames(fs);
    ReturnedPresent(fs);
    PresentOrdered(Returned(fs));
    RebuiltInOrder(Present(Returned(fs)));
    ObjReturns(Present(fs), Present(Returned(fs)));
  }

  /** The properties `es` are the fields, each read back. */
  ghost predicate Returns(fs: seq<Field>, es: seq<Entry>) {
    forall f | f in fs :: Get(es, f.key) == ReturnedField(f).value
  }

  lemma PropertiesReturn(fs: seq<Field>)
    requires GoodNames(fs)
    ensures ReadBack(Obj(Present(fs))).Obj? && Returns(fs, ReadBack(Obj(Present(fs))).entries)
  {
    RecordReturns(fs);
    forall f | f in fs ensures Get(Present(Returned(fs)), f.key) == ReturnedField(f).value {
      var i :| 0 <= i < |fs| && fs[i] == f;
      GetPresent(Returned(fs), i);
    }
  }

  // ---- the record as its declared type ------------------------------------------------------------
  // `None` is a value of another shape; an absent or null optional property is `Some(None)`.

  function AsText(v: Value): (r: Option<string>) {
    if v.Text? then Some(v.s) else None
  }

  function AsNumber(v: Value): (r: Option<Number>) {
    if IsNumber(v) then Some(v) else None
  }

  function AsList<T>(f: Value -> Option<T>, v: Value): (r: Option<seq<T>>) {
    if v.Arr? then All(Map(f, v.items)) else None
  }

  function Mandatory<T>(f: Value -> Option<T>, o: Option<Value>): (r: Option<T>) {
    if o.Some? then f(o.value) else None
  }

  function Optional<T>(f: Value -> Option<T>, o: Option<Value>): (r: Option<Option<T>>) {
    if o.None? || o.value.Null? then Some(None)
    else match f(o.value)
      case Some(x) => Some(Some(x))
      case None => None
  }

  function AsRule(v: Value): (r: Option<WireRule>) {
    if !v.Obj? then None
    else
      var a := Mandatory(AsText, Get(v.entries, "source_kind"));
      var b := Mandatory(AsText, Get(v.entries, "source_selector_kind"));
      var c := Mandatory(AsText, Get(v.entries, "source_selector_value"));
      var d := Mandatory(AsText, Get(v.entries, "destination_kind"));
      var e := Mandatory(AsText, Get(v.entries, "destination_selector_kind"));
      var f := Mandatory(AsText, Get(v.entries, "destination_selector_value"));
      var g := Mandatory(AsText, Get(v.entries, "action"));
      if a.Some? && b.Some? && c.Some? && d.Some? && e.Some? && f.Some? && g.Some?
      then Some(WireRule(a.value, b.value, c.value, d.value, e.value, f.value, g.value)) else None
  }

  function AsMember(v: Value): (r: Option<Member>) {
    if !v.Obj? then None
    else
      var cn := Mandatory(AsText, Get(v.entries, "endpoint_cn"));
      var agent := Optional(AsText, Get(v.entries, "agent"));
      if cn.Some? && agent.Some? then Some(Member(cn.value, agent.value)) else None
  }

  function AsBool(v: Value): (r: Option<bool>) {
    if v.Bool? then Some(v.b) else None
  }

  function AsPosture(v: Value): (r: Option<DomainPosture>) {
    if !v.Obj? then None
    else
      var domain := Mandatory(AsText, Get(v.entries, "domain"));
      var posture := Mandatory(AsText, Get(v.entries, "posture"));
      var floor := Mandatory(AsBool, Get(v.entries, "floor"));
      if domain.Some? && posture.Some? && floor.Some?
      then Some(DomainPosture(domain.value, posture.value, floor.value)) else None
  }

  function AsPostures(v: Value): (r: Option<seq<DomainPosture>>) { AsList(AsPosture, v) }

  function AsTexts(v: Value): (r: Option<seq<string>>) { AsList(AsText, v) }

  function AsRules(v: Value): (r: Option<seq<WireRule>>) { AsList(AsRule, v) }

  function AsMembers(v: Value): (r: Option<seq<Member>>) { AsList(AsMember, v) }

  function AsSpec(v: Value): (r: Option<WireSpec>) {
    if !v.Obj? then None
    else
      var vtz := Mandatory(AsText, Get(v.entries, "vtz"));
      var name := Mandatory(AsText, Get(v.entries, "name"));
      var description := Mandatory(AsText, Get(v.entries, "description"));
      var rules := Mandatory(AsRules, Get(v.entries, "rules"));
      var protocols := Optional(AsTexts, Get(v.entries, "protocols"));
      var ports := Optional(AsText, Get(v.entries, "ports"));
      var days := Optional(AsTexts, Get(v.entries, "schedule_days"));
      var start := Optional(AsNumber, Get(v.entries, "schedule_start_minute"));
      var end := Optional(AsNumber, Get(v.entries, "schedule_end_minute"));
      var from := Optional(AsNumber, Get(v.entries, "active_from"));
      var until := Optional(AsNumber, Get(v.entries, "active_until"));
      var geo := Optional(AsTexts, Get(v.entries, "geo"));
      var tags := Optional(AsTexts, Get(v.entries, "restriction_tags"));
      var logging := Mandatory(AsText, Get(v.entries, "logging"));
      var appliedTo := Optional(AsMembers, Get(v.entries, "applied_to"));
      var max := Mandatory(AsText, Get(v.entries, "max_classification"));
      var postures := Optional(AsPostures, Get(v.entries, "default_postures"));
      if && vtz.Some? && name.Some? && description.Some? && rules.Some? && protocols.Some? && ports.Some?
         && days.Some? && start.Some? && end.Some? && from.Some? && until.Some? && geo.Some? && tags.Some?
         && logging.Some? && appliedTo.Some? && max.Some? && postures.Some?
      then Some(WireSpec(vtz.value, name.value, description.value, rules.value, protocols.value, ports.value,
                         days.value, start.value, end.value, from.value, until.value, geo.value, tags.value,
                         logging.value, appliedTo.value, max.value, postures.value))
      else None
  }

  // ---- what the codec does to a spec --------------------------------------------------------------

  function StripAll(xs: seq<string>): (r: seq<string>)
    ensures |r| == |xs|
  {
    Map(Utf8.StripBom, xs)
  }

  function StripRule(r: WireRule): (w: WireRule) {
    WireRule(Utf8.StripBom(r.sourceKind), Utf8.StripBom(r.sourceSelectorKind), Utf8.StripBom(r.sourceSelectorValue),
             Utf8.StripBom(r.destinationKind), Utf8.StripBom(r.destinationSelectorKind),
             Utf8.StripBom(r.destinationSelectorValue), Utf8.StripBom(r.action))
  }

  function MapOption<T, U>(f: T -> U, o: Option<T>): (r: Option<U>) {
    if o.Some? then Some(f(o.value)) else None
  }

  function StripMember(m: Member): (r: Member) {
    Member(Utf8.StripBom(m.endpointCn), MapOption(Utf8.StripBom, m.agent))
  }

  function StripMembers(ms: seq<Member>): (r: seq<Member>) { Map(StripMember, ms) }

  function StripPosture(p: DomainPosture): (r: DomainPosture) {
    DomainPosture(Utf8.StripBom(p.domain), Utf8.StripBom(p.posture), p.floor)
  }

  function StripPostures(ps: seq<DomainPosture>): (r: seq<DomainPosture>) { Map(StripPosture, ps) }

  lemma TimeIsNumber(t: Number)
    ensures IsNumber(ReadBack(t))
  {
    if t.Float? {
      CborDecode.NumberIsSettled(t.bits);
    }
  }

  function ReadBackTime(t: Number): (r: Number) {
    TimeIsNumber(t);
    ReadBack(t)
  }

  /** The spec that returns: texts lose a leading byte order mark, integers keep 64 bits and -0 is 0. */
  function StripSpec(s: WireSpec): (r: WireSpec) {
    WireSpec(Utf8.StripBom(s.vtz), Utf8.StripBom(s.name), Utf8.StripBom(s.description), Map(StripRule, s.rules),
             MapOption(StripAll, s.protocols), MapOption(Utf8.StripBom, s.ports), MapOption(StripAll, s.scheduleDays),
             MapOption(ReadBackTime, s.scheduleStartMinute), MapOption(ReadBackTime, s.scheduleEndMinute),
             MapOption(ReadBackTime, s.activeFrom), MapOption(ReadBackTime, s.activeUntil),
             MapOption(StripAll, s.geo), MapOption(StripAll, s.restrictionTags), Utf8.StripBom(s.logging),
             MapOption(StripMembers, s.appliedTo), Utf8.StripBom(s.maxClassification),
             MapOption(StripPostures, s.defaultPostures))
  }

  lemma {:induction false} ItemsReturn(items: seq<Value>)
    ensures ReadBackItems(items) == Map(ReadBack, items)
    decreases |items|
  {
    if items != [] {
      ItemsReturn(items[1..]);
    }
  }

  lemma ListReturns<T, U>(f: Value -> Option<U>, g: T -> Value, k: T -> U, xs: seq<T>)
    requires forall x :: f(ReadBack(g(x))) == Some(k(x))
    ensures AsList(f, ReadBack(Arr(Map(g, xs)))) == Some(Map(k, xs))
  {
    var items := Map(g, xs);
    var back := ReadBackItems(items);
    ItemsReturn(items);
    forall i | 0 <= i < |xs| ensures f(back[i]) == Some(Map(k, xs)[i]) {
      assert back[i] == ReadBack(g(xs[i]));
    }
    AllMapped(f, back, Map(k, xs));
  }

  lemma TextsReturn(xs: seq<string>)
    ensures AsTexts(ReadBack(Arr(Map(TextValue, xs)))) == Some(StripAll(xs))
  {
    ListReturns(AsText, TextValue, Utf8.StripBom, xs);
  }

  /** A function that recovers each field's place from its name shows the names distinct. */
  lemma NamesBySlot(fs: seq<Field>, keys: seq<string>, slot: string -> int)
    requires |fs| == |keys| && forall i | 0 <= i < |fs| :: fs[i].key == keys[i]
    requires forall i | 0 <= i < |keys| :: keys[i] != "" && 'a' <= keys[i][0] <= 'z' && slot(keys[i]) == i
    ensures GoodNames(fs)
  {
    forall i, j | 0 <= i < j < |fs| ensures fs[i].key != fs[j].key {
      assert slot(keys[i]) == i && slot(keys[j]) == j;
    }
  }

  const RULE_KEYS: seq<string> := [
    "source_kind", "source_selector_kind", "source_selector_value", "destination_kind",
    "destination_selector_kind", "destination_selector_value", "action"]

  function RuleSlot(k: string): (i: int) {
    var n := |k|;
    if n == 11 then 0 else if n == 20 then 1 else if n == 21 then 2 else if n == 16 then 3
    else if n == 25 then 4 else if n == 26 then 5 else 6
  }

  const SPEC_KEYS: seq<string> := [
    "vtz", "name", "description", "rules", "protocols", "ports", "schedule_days", "schedule_start_minute",
    "schedule_end_minute", "active_from", "active_until", "geo", "restriction_tags", "logging", "applied_to",
    "max_classification", "default_postures"]

  function SpecSlot(k: string): (i: int) {
    var n := |k|;
    if n == 0 then -1
    else if n == 3 then if k[0] == 'v' then 0 else 11
    else if n == 4 then 1
    else if n == 5 then if k[0] == 'r' then 3 else 5
    else if n == 7 then 13
    else if n == 9 then 4
    else if n == 10 then 14
    else if n == 11 then if k[0] == 'd' then 2 else 9
    else if n == 12 then 10
    else if n == 13 then 6
    else if n == 16 then if k[0] == 'r' then 12 else 16
    else if n == 18 then 15
    else if n == 19 then 8
    else 7
  }

  predicate GoodKey(k: string, i: int) {
    k != "" && 'a' <= k[0] <= 'z' && SpecSlot(k) == i
  }

  lemma EarlySpecKeys()
    ensures |SPEC_KEYS| == 17 && forall i | 0 <= i < 9 :: GoodKey(SPEC_KEYS[i], i)
  {
  }

  lemma LateSpecKeys()
    ensures |SPEC_KEYS| == 17 && forall i | 9 <= i < 17 :: GoodKey(SPEC_KEYS[i], i)
  {
  }

  lemma SpecKeys(s: WireSpec)
    ensures |SpecFields(s)| == |SPEC_KEYS| && forall i | 0 <= i < 17 :: SpecFields(s)[i].key == SPEC_KEYS[i]
  {
  }

  lemma SpecNames(s: WireSpec)
    ensures GoodNames(SpecFields(s))
  {
    SpecKeys(s);
    EarlySpecKeys();
    LateSpecKeys();
    forall i | 0 <= i < 17 ensures GoodKey(SPEC_KEYS[i], i) {}
    NamesBySlot(SpecFields(s), SPEC_KEYS, SpecSlot);
  }

  lemma RuleNames(r: WireRule)
    ensures GoodNames(RuleFields(r))
  {
    NamesBySlot(RuleFields(r), RULE_KEYS, RuleSlot);
  }

  // ---- single fields ------------------------------------------------------------------------------

  predicate NonEmpty<T>(o: Option<seq<T>>) {
    o.Some? ==> o.value != []
  }

  lemma TextReturns(fs: seq<Field>, es: seq<Entry>, k: string, x: string)
    requires Returns(fs, es) && Required(k, x) in fs
    ensures Mandatory(AsText, Get(es, k)) == Some(Utf8.StripBom(x))
  {
    assert Get(es, Required(k, x).key) == ReturnedField(Required(k, x)).value;
  }

  lemma OptionalTextReturns(fs: seq<Field>, es: seq<Entry>, k: string, o: Option<string>)
    requires Returns(fs, es) && OptionalText(k, o) in fs && NonEmpty(o)
    ensures Optional(AsText, Get(es, k)) == Some(MapOption(Utf8.StripBom, o))
  {
    assert Get(es, OptionalText(k, o).key) == ReturnedField(OptionalText(k, o)).value;
  }

  lemma NumberReturns(fs: seq<Field>, es: seq<Entry>, k: string, o: Option<Number>)
    requires Returns(fs, es) && OptionalNumber(k, o) in fs
    ensures Optional(AsNumber, Get(es, k)) == Some(MapOption(ReadBackTime, o))
  {
    assert Get(es, OptionalNumber(k, o).key) == ReturnedField(OptionalNumber(k, o)).value;
  }

  lemma OptionalTextsReturn(fs: seq<Field>, es: seq<Entry>, k: string, o: Option<seq<string>>)
    requires Returns(fs, es) && OptionalTexts(k, o) in fs && NonEmpty(o)
    ensures Optional(AsTexts, Get(es, k)) == Some(MapOption(StripAll, o))
  {
    assert Get(es, OptionalTexts(k, o).key) == ReturnedField(OptionalTexts(k, o)).value;
    if o.Some? {
      TextsReturn(o.value);
    }
  }

  // ---- rules, members and postures ----------------------------------------------------------------

  predicate ReadsSource(es: seq<Entry>, w: WireRule) {
    && Mandatory(AsText, Get(es, "source_kind")) == Some(w.sourceKind)
    && Mandatory(AsText, Get(es, "source_selector_kind")) == Some(w.sourceSelectorKind)
    && Mandatory(AsText, Get(es, "source_selector_value")) == Some(w.sourceSelectorValue)
    && Mandatory(AsText, Get(es, "action")) == Some(w.action)
  }

  predicate ReadsDestination(es: seq<Entry>, w: WireRule) {
    && Mandatory(AsText, Get(es, "destination_kind")) == Some(w.destinationKind)
    && Mandatory(AsText, Get(es, "destination_selector_kind")) == Some(w.destinationSelectorKind)
    && Mandatory(AsText, Get(es, "destination_selector_value")) == Some(w.destinationSelectorValue)
  }

  lemma AssembledRule(es: seq<Entry>, w: WireRule)
    requires ReadsSource(es, w) && ReadsDestination(es, w)
    ensures AsRule(Obj(es)) == Some(w)
  {
  }

  lemma SourceReturns(r: WireRule, es: seq<Entry>)
    requires Returns(RuleFields(r), es)
    ensures ReadsSource(es, StripRule(r))
  {
    var fs := RuleFields(r);
    assert fs[0] in fs && fs[1] in fs && fs[2] in fs && fs[6] in fs;
    TextReturns(fs, es, "source_kind", r.sourceKind);
    TextReturns(fs, es, "source_selector_kind", r.sourceSelectorKind);
    TextReturns(fs, es, "source_selector_value", r.sourceSelectorValue);
    TextReturns(fs, es, "action", r.action);
  }

  lemma DestinationReturns(r: WireRule, es: seq<Entry>)
    requires Returns(RuleFields(r), es)
    ensures ReadsDestination(es, StripRule(r))
  {
    var fs := RuleFields(r);
    assert fs[3] in fs && fs[4] in fs && fs[5] in fs;
    TextReturns(fs, es, "destination_kind", r.destinationKind);
    TextReturns(fs, es, "destination_selector_kind", r.destinationSelectorKind);
    TextReturns(fs, es, "destination_selector_value", r.destinationSelectorValue);
  }

  lemma RuleReturns(r: WireRule)
    ensures AsRule(ReadBack(RuleToCbor(r))) == Some(StripRule(r))
  {
    RuleNames(r);
    PropertiesReturn(RuleFields(r));
    var es := ReadBack(RuleToCbor(r)).entries;
    SourceReturns(r, es);
    DestinationReturns(r, es);
    AssembledRule(es, StripRule(r));
  }

  lemma AgentReturns(fs: seq<Field>, es: seq<Entry>, m: Member)
    requires Returns(fs, es) && AgentField(m) in fs
    ensures Optional(AsText, Get(es, "agent")) == Some(MapOption(Utf8.StripBom, m.agent))
  {
    assert Get(es, AgentField(m).key) == ReturnedField(AgentField(m)).value;
  }

  lemma MemberReturns(m: Member)
    ensures AsMember(ReadBack(MemberToCbor(m))) == Some(StripMember(m))
  {
    var fs := MemberFields(m);
    PropertiesReturn(fs);
    var es := ReadBack(MemberToCbor(m)).entries;
    assert fs[0] in fs && fs[1] in fs;
    TextReturns(fs, es, "endpoint_cn", m.endpointCn);
    AgentReturns(fs, es, m);
  }

  lemma PostureNames(p: DomainPosture)
    ensures GoodNames(PostureFields(p))
  {
  }

  lemma PostureReturns(p: DomainPosture)
    ensures AsPosture(ReadBack(PostureToCbor(p))) == Some(StripPosture(p))
  {
    var fs := PostureFields(p);
    PostureNames(p);
    PropertiesReturn(fs);
    var es := ReadBack(PostureToCbor(p)).entries;
    assert fs[0] in fs && fs[1] in fs && fs[2] in fs;
    TextReturns(fs, es, "domain", p.domain);
    TextReturns(fs, es, "posture", p.posture);
    assert Get(es, fs[2].key) == ReturnedField(fs[2]).value;
  }

  lemma RulesReturn(rs: seq<WireRule>)
    ensures AsRules(ReadBack(Arr(Map(RuleToCbor, rs)))) == Some(Map(StripRule, rs))
  {
    forall r: WireRule ensures AsRule(ReadBack(RuleToCbor(r))) == Some(StripRule(r)) { RuleReturns(r); }
    ListReturns(AsRule, RuleToCbor, StripRule, rs);
  }

  lemma MembersReturn(ms: seq<Member>)
    ensures AsMembers(ReadBack(Arr(Map(MemberToCbor, ms)))) == Some(StripMembers(ms))
  {
    forall m: Member ensures AsMember(ReadBack(MemberToCbor(m))) == Some(StripMember(m)) { MemberReturns(m); }
    ListReturns(AsMember, MemberToCbor, StripMember, ms);
  }

  lemma PosturesReturn(ps: seq<DomainPosture>)
    ensures AsPostures(ReadBack(Arr(Map(PostureToCbor, ps)))) == Some(StripPostures(ps))
  {
    forall p: DomainPosture ensures AsPosture(ReadBack(PostureToCbor(p))) == Some(StripPosture(p)) {
      PostureReturns(p);
    }
    ListReturns(AsPosture, PostureToCbor, StripPosture, ps);
  }

  lemma RulesFieldReturns(fs: seq<Field>, es: seq<Entry>, rs: seq<WireRule>)
    requires Returns(fs, es) && RulesField(rs) in fs
    ensures Mandatory(AsRules, Get(es, "rules")) == Some(Map(StripRule, rs))
  {
    assert Get(es, RulesField(rs).key) == ReturnedField(RulesField(rs)).value;
    RulesReturn(rs);
  }

  lemma MembersFieldReturns(fs: seq<Field>, es: seq<Entry>, o: Option<seq<Member>>)
    requires Returns(fs, es) && MembersField(o) in fs && NonEmpty(o)
    ensures Optional(AsMembers, Get(es, "applied_to")) == Some(MapOption(StripMembers, o))
  {
    assert Get(es, MembersField(o).key) == ReturnedField(MembersField(o)).value;
    if o.Some? {
      MembersReturn(o.value);
    }
  }

  lemma PosturesFieldReturns(fs: seq<Field>, es: seq<Entry>, o: Option<seq<DomainPosture>>)
    requires Returns(fs, es) && PosturesField(o) in fs && NonEmpty(o)
    ensures Optional(AsPostures, Get(es, "default_postures")) == Some(MapOption(StripPostures, o))
  {
    assert Get(es, PosturesField(o).key) == ReturnedField(PosturesField(o)).value;
    if o.Some? {
      PosturesReturn(o.value);
    }
  }

  // ---- the spec -----------------------------------------------------------------------------------

  /** No optional list or text of the spec is present but empty. */
  predicate Normal(s: WireSpec) {
    && NonEmpty(s.protocols) && NonEmpty(s.ports) && NonEmpty(s.scheduleDays) && NonEmpty(s.geo)
    && NonEmpty(s.restrictionTags) && NonEmpty(s.appliedTo) && NonEmpty(s.defaultPostures)
  }

  predicate ReadsNames(es: seq<Entry>, r: WireSpec) {
    && Mandatory(AsText, Get(es, "vtz")) == Some(r.vtz)
    && Mandatory(AsText, Get(es, "name")) == Some(r.name)
    && Mandatory(AsText, Get(es, "description")) == Some(r.description)
  }

  predicate ReadsTexts(es: seq<Entry>, r: WireSpec) {
    && Mandatory(AsText, Get(es, "logging")) == Some(r.logging)
    && Mandatory(AsText, Get(es, "max_classification")) == Some(r.maxClassification)
    && Optional(AsText, Get(es, "ports")) == Some(r.ports)
  }

  predicate ReadsTimes(es: seq<Entry>, r: WireSpec) {
    && Optional(AsNumber, Get(es, "schedule_start_minute")) == Some(r.scheduleStartMinute)
    && Optional(AsNumber, Get(es, "schedule_end_minute")) == Some(r.scheduleEndMinute)
    && Optional(AsNumber, Get(es, "active_from")) == Some(r.activeFrom)
    && Optional(AsNumber, Get(es, "active_until")) == Some(r.activeUntil)
  }

  predicate ReadsLists(es: seq<Entry>, r: WireSpec) {
    && Mandatory(AsRules, Get(es, "rules")) == Some(r.rules)
    && Optional(AsMembers, Get(es, "applied_to")) == Some(r.appliedTo)
    && Optional(AsPostures, Get(es, "default_postures")) == Some(r.defaultPostures)
  }

  predicate ReadsTags(es: seq<Entry>, r: WireSpec) {
    && Optional(AsTexts, Get(es, "protocols")) == Some(r.protocols)
    && Optional(AsTexts, Get(es, "schedule_days")) == Some(r.scheduleDays)
    && Optional(AsTexts, Get(es, "geo")) == Some(r.geo)
    && Optional(AsTexts, Get(es, "restriction_tags")) == Some(r.restrictionTags)
  }

  lemma Assembled(es: seq<Entry>, r: WireSpec)
    requires ReadsNames(es, r) && ReadsTexts(es, r) && ReadsTimes(es, r)
    requires ReadsLists(es, r) && ReadsTags(es, r)
    ensures AsSpec(Obj(es)) == Some(r)
  {
  }

  lemma SpecNamesReturn(s: WireSpec, es: seq<Entry>)
    requires Returns(SpecFields(s), es)
    ensures ReadsNames(es, StripSpec(s))
  {
    var fs := SpecFields(s);
    assert fs[0] in fs && fs[1] in fs && fs[2] in fs;
    TextReturns(fs, es, "vtz", s.vtz);
    TextReturns(fs, es, "name", s.name);
    TextReturns(fs, es, "description", s.description);
  }

  lemma SpecTextsReturn(s: WireSpec, es: seq<Entry>)
    requires Normal(s) && Returns(SpecFields(s), es)
    ensures ReadsTexts(es, StripSpec(s))
  {
    var fs := SpecFields(s);
    assert fs[5] in fs && fs[13] in fs && fs[15] in fs;
    OptionalTextReturns(fs, es, "ports", s.ports);
    TextReturns(fs, es, "logging", s.logging);
    TextReturns(fs, es, "max_classification", s.maxClassification);
  }

  lemma SpecTimesReturn(s: WireSpec, es: seq<Entry>)
    requires Returns(SpecFields(s), es)
    ensures ReadsTimes(es, StripSpec(s))
  {
    var fs := SpecFields(s);
    assert fs[7] in fs && fs[8] in fs && fs[9] in fs && fs[10] in fs;
    NumberReturns(fs, es, "schedule_start_minute", s.scheduleStartMinute);
    NumberReturns(fs, es, "schedule_end_minute", s.scheduleEndMinute);
    NumberReturns(fs, es, "active_from", s.activeFrom);
    NumberReturns(fs, es, "active_until", s.activeUntil);
  }

  lemma SpecListsReturn(s: WireSpec, es: seq<Entry>)
    requires Normal(s) && Returns(SpecFields(s), es)
    ensures ReadsLists(es, StripSpec(s))
  {
    var fs := SpecFields(s);
    assert fs[3] in fs && fs[14] in fs && fs[16] in fs;
    RulesFieldReturns(fs, es, s.rules);
    MembersFieldReturns(fs, es, s.appliedTo);
    PosturesFieldReturns(fs, es, s.defaultPostures);
  }

  lemma SpecTagsReturn(s: WireSpec, es: seq<Entry>)
    requires Normal(s) && Returns(SpecFields(s), es)
    ensures ReadsTags(es, StripSpec(s))
  {
    var fs := SpecFields(s);
    assert fs[4] in fs && fs[6] in fs && fs[11] in fs && fs[12] in fs;
    OptionalTextsReturn(fs, es, "protocols", s.protocols);
    OptionalTextsReturn(fs, es, "schedule_days", s.scheduleDays);
    OptionalTextsReturn(fs, es, "geo", s.geo);
    OptionalTextsReturn(fs, es, "restriction_tags", s.restrictionTags);
  }

  /** Every spec without present-but-empty axes survives the record, the codec and the read by name. */
  lemma SpecReturns(s: WireSpec)
    requires Normal(s)
    ensures AsSpec(ReadBack(SpecToCbor(s))) == Some(StripSpec(s))
  {
    SpecNames(s);
    PropertiesReturn(SpecFields(s));
    var es := ReadBack(SpecToCbor(s)).entries;
    SpecNamesReturn(s, es);
    SpecTextsReturn(s, es);
    SpecTimesReturn(s, es);
    SpecListsReturn(s, es);
    SpecTagsReturn(s, es);
    Assembled(es, StripSpec(s));
  }

  // ---- the record, name by name -------------------------------------------------------------------

  lemma PropertyIs(fs: seq<Field>, i: nat, f: Field)
    requires GoodNames(fs) && i < |fs| && fs[i] == f
    ensures Get(Present(fs), f.key) == f.value
  {
    GetPresent(fs, i);
  }

  /** Every field of `fs` has its value under its name. */
  ghost predicate Named(fs: seq<Field>, es: seq<Entry>) {
    forall f | f in fs :: Get(es, f.key) == f.value
  }

  lemma AllNamed(fs: seq<Field>)
    requires GoodNames(fs)
    ensures Named(fs, Present(fs))
  {
    forall i | 0 <= i < |fs| ensures Get(Present(fs), fs[i].key) == fs[i].value {
      GetPresent(fs, i);
    }
  }

  lemma TextNamed(fs: seq<Field>, es: seq<Entry>, k: string, x: string)
    requires Named(fs, es) && Required(k, x) in fs
    ensures Get(es, k) == Some(Text(x))
  {
    assert Get(es, Required(k, x).key) == Required(k, x).value;
  }

  lemma NumberNamed(fs: seq<Field>, es: seq<Entry>, k: string, o: Option<Number>)
    requires Named(fs, es) && OptionalNumber(k, o) in fs
    ensures Get(es, k) == NumberOr(o)
  {
    assert Get(es, OptionalNumber(k, o).key) == OptionalNumber(k, o).value;
  }

  lemma TextListNamed(fs: seq<Field>, es: seq<Entry>, k: string, o: Option<seq<string>>)
    requires Named(fs, es) && OptionalTexts(k, o) in fs
    ensures ListIs(Get(es, k), o, IsText)
  {
    assert Get(es, OptionalTexts(k, o).key) == OptionalTexts(k, o).value;
  }

  function TextOr(o: Option<string>): (r: Option<Value>) {
    if o.Some? && o.value != "" then Some(Text(o.value)) else None
  }

  function NumberOr(o: Option<Number>): (r: Option<Value>) {
    if o.Some? then Some(o.value) else None
  }

  /** A list property: absent when left out or empty, else an array of its items. */
  ghost predicate ListIs<T>(o: Option<Value>, xs: Option<seq<T>>, holds: (Value, T) -> bool) {
    if xs.None? || xs.value == [] then o == None
    else
      && o.Some? && o.value.Arr? && |o.value.items| == |xs.value|
      && forall i | 0 <= i < |xs.value| :: holds(o.value.items[i], xs.value[i])
  }

  predicate IsText(v: Value, s: string) {
    v == Text(s)
  }

  predicate IsRule(v: Value, r: WireRule) {
    v.Obj? &&
    var es := v.entries;
    && Get(es, "source_kind") == Some(Text(r.sourceKind))
    && Get(es, "source_selector_kind") == Some(Text(r.sourceSelectorKind))
    && Get(es, "source_selector_value") == Some(Text(r.sourceSelectorValue))
    && Get(es, "destination_kind") == Some(Text(r.destinationKind))
    && Get(es, "destination_selector_kind") == Some(Text(r.destinationSelectorKind))
    && Get(es, "destination_selector_value") == Some(Text(r.destinationSelectorValue))
    && Get(es, "action") == Some(Text(r.action))
  }

  /** A scope member; an agent of `None` has no property. */
  predicate IsMember(v: Value, m: Member) {
    v.Obj? &&
    var es := v.entries;
    && Get(es, "endpoint_cn") == Some(Text(m.endpointCn))
    && Get(es, "agent") == if m.agent.Some? then Some(Text(m.agent.value)) else None
  }

  predicate IsPosture(v: Value, p: DomainPosture) {
    v.Obj? &&
    var es := v.entries;
    && Get(es, "domain") == Some(Text(p.domain)) && Get(es, "posture") == Some(Text(p.posture))
    && Get(es, "floor") == Some(Bool(p.floor))
  }

  lemma RuleNamed(r: WireRule)
    ensures IsRule(RuleToCbor(r), r)
  {
    var fs := RuleFields(r);
    RuleNames(r);
    PropertyIs(fs, 0, Required("source_kind", r.sourceKind));
    PropertyIs(fs, 1, Required("source_selector_kind", r.sourceSelectorKind));
    PropertyIs(fs, 2, Required("source_selector_value", r.sourceSelectorValue));
    PropertyIs(fs, 3, Required("destination_kind", r.destinationKind));
    PropertyIs(fs, 4, Required("destination_selector_kind", r.destinationSelectorKind));
    PropertyIs(fs, 5, Required("destination_selector_value", r.destinationSelectorValue));
    PropertyIs(fs, 6, Required("action", r.action));
  }

  lemma MemberNamed(m: Member)
    ensures IsMember(MemberToCbor(m), m)
  {
    assert GoodNames(MemberFields(m));
    PropertyIs(MemberFields(m), 0, Required("endpoint_cn", m.endpointCn));
    PropertyIs(MemberFields(m), 1, AgentField(m));
  }

  lemma PostureNamed(p: DomainPosture)
    ensures IsPosture(PostureToCbor(p), p)
  {
    var fs := PostureFields(p);
    PostureNames(p);
    PropertyIs(fs, 0, Required("domain", p.domain));
    PropertyIs(fs, 1, Required("posture", p.posture));
    PropertyIs(fs, 2, Field("floor", Some(Bool(p.floor))));
  }

  predicate TextsNamed(s: WireSpec, es: seq<Entry>) {
    && Get(es, "vtz") == Some(Text(s.vtz)) && Get(es, "name") == Some(Text(s.name))
    && Get(es, "description") == Some(Text(s.description)) && Get(es, "ports") == TextOr(s.ports)
    && Get(es, "logging") == Some(Text(s.logging))
    && Get(es, "max_classification") == Some(Text(s.maxClassification))
  }

  predicate TimesNamed(s: WireSpec, es: seq<Entry>) {
    && Get(es, "schedule_start_minute") == NumberOr(s.scheduleStartMinute)
    && Get(es, "schedule_end_minute") == NumberOr(s.scheduleEndMinute)
    && Get(es, "active_from") == NumberOr(s.activeFrom) && Get(es, "active_until") == NumberOr(s.activeUntil)
  }

  ghost predicate TagsNamed(s: WireSpec, es: seq<Entry>) {
    && ListIs(Get(es, "protocols"), s.protocols, IsText)
    && ListIs(Get(es, "schedule_days"), s.scheduleDays, IsText)
    && ListIs(Get(es, "geo"), s.geo, IsText)
    && ListIs(Get(es, "restriction_tags"), s.restrictionTags, IsText)
  }

  ghost predicate ListsNamed(s: WireSpec, es: seq<Entry>) {
    && (Get(es, "rules") == Some(Arr([])) || ListIs(Get(es, "rules"), Some(s.rules), IsRule))
    && (s.rules == [] <==> Get(es, "rules") == Some(Arr([])))
    && ListIs(Get(es, "applied_to"), s.appliedTo, IsMember)
    && ListIs(Get(es, "default_postures"), s.defaultPostures, IsPosture)
  }

  /** The engine's record, name by name and in its field order. */
  ghost predicate SpecNamed(s: WireSpec, es: seq<Entry>) {
    && TextsNamed(s, es) && TimesNamed(s, es) && TagsNamed(s, es) && ListsNamed(s, es)
    && (forall a | 0 <= a < |es| :: es[a].key in SPEC_KEYS)
    && Ascends(es, SpecSlot, 0)
  }

  lemma TextsAreNamed(s: WireSpec, es: seq<Entry>)
    requires Named(SpecFields(s), es)
    ensures TextsNamed(s, es)
  {
    var fs := SpecFields(s);
    assert fs[0] in fs && fs[1] in fs && fs[2] in fs && fs[5] in fs && fs[13] in fs && fs[15] in fs;
    TextNamed(fs, es, "vtz", s.vtz);
    TextNamed(fs, es, "name", s.name);
    TextNamed(fs, es, "description", s.description);
    assert Get(es, OptionalText("ports", s.ports).key) == OptionalText("ports", s.ports).value;
    TextNamed(fs, es, "logging", s.logging);
    TextNamed(fs, es, "max_classification", s.maxClassification);
  }

  lemma TimesAreNamed(s: WireSpec, es: seq<Entry>)
    requires Named(SpecFields(s), es)
    ensures TimesNamed(s, es)
  {
    var fs := SpecFields(s);
    assert fs[7] in fs && fs[8] in fs && fs[9] in fs && fs[10] in fs;
    NumberNamed(fs, es, "schedule_start_minute", s.scheduleStartMinute);
    NumberNamed(fs, es, "schedule_end_minute", s.scheduleEndMinute);
    NumberNamed(fs, es, "active_from", s.activeFrom);
    NumberNamed(fs, es, "active_until", s.activeUntil);
  }

  lemma TagsAreNamed(s: WireSpec, es: seq<Entry>)
    requires Named(SpecFields(s), es)
    ensures TagsNamed(s, es)
  {
    var fs := SpecFields(s);
    assert fs[4] in fs && fs[6] in fs && fs[11] in fs && fs[12] in fs;
    TextListNamed(fs, es, "protocols", s.protocols);
    TextListNamed(fs, es, "schedule_days", s.scheduleDays);
    TextListNamed(fs, es, "geo", s.geo);
    TextListNamed(fs, es, "restriction_tags", s.restrictionTags);
  }

  lemma RulesNamed(es: seq<Entry>, rs: seq<WireRule>)
    requires Get(es, "rules") == RulesField(rs).value
    ensures Get(es, "rules") == Some(Arr([])) || ListIs(Get(es, "rules"), Some(rs), IsRule)
    ensures rs == [] <==> Get(es, "rules") == Some(Arr([]))
  {
    forall i | 0 <= i < |rs| ensures IsRule(Map(RuleToCbor, rs)[i], rs[i]) {
      RuleNamed(rs[i]);
    }
  }

  lemma MembersNamed(es: seq<Entry>, o: Option<seq<Member>>)
    requires Get(es, "applied_to") == MembersField(o).value
    ensures ListIs(Get(es, "applied_to"), o, IsMember)
  {
    if o.Some? {
      forall i | 0 <= i < |o.value| ensures IsMember(Map(MemberToCbor, o.value)[i], o.value[i]) {
        MemberNamed(o.value[i]);
      }
    }
  }

  lemma PosturesNamed(es: seq<Entry>, o: Option<seq<DomainPosture>>)
    requires Get(es, "default_postures") == PosturesField(o).value
    ensures ListIs(Get(es, "default_postures"), o, IsPosture)
  {
    if o.Some? {
      forall i | 0 <= i < |o.value| ensures IsPosture(Map(PostureToCbor, o.value)[i], o.value[i]) {
        PostureNamed(o.value[i]);
      }
    }
  }

  lemma ListsAreNamed(s: WireSpec, es: seq<Entry>)
    requires Named(SpecFields(s), es)
    ensures ListsNamed(s, es)
  {
    var fs := SpecFields(s);
    assert fs[3] in fs && fs[14] in fs && fs[16] in fs;
    assert Get(es, RulesField(s.rules).key) == RulesField(s.rules).value;
    assert Get(es, MembersField(s.appliedTo).key) == MembersField(s.appliedTo).value;
    assert Get(es, PosturesField(s.defaultPostures).key) == PosturesField(s.defaultPostures).value;
    RulesNamed(es, s.rules);
    MembersNamed(es, s.appliedTo);
    PosturesNamed(es, s.defaultPostures);
  }

  /** Places at or after `from`, in strictly ascending order. */
  ghost predicate Ascends(es: seq<Entry>, slot: string -> int, from: int) {
    && (forall a | 0 <= a < |es| :: from <= slot(es[a].key))
    && (forall a, b | 0 <= a < b < |es| :: slot(es[a].key) < slot(es[b].key))
  }

  lemma AscendsCons(e: Entry, es: seq<Entry>, slot: string -> int, from: int)
    requires Ascends(es, slot, from + 1) && slot(e.key) == from
    ensures Ascends([e] + es, slot, from)
  {
  }

  lemma {:induction false} PresentAscends(fs: seq<Field>, slot: string -> int, from: int)
    requires forall i | 0 <= i < |fs| :: slot(fs[i].key) == from + i
    ensures Ascends(Present(fs), slot, from)
    decreases |fs|
  {
    if fs != [] {
      PresentAscends(fs[1..], slot, from + 1);
      if fs[0].value.Some? {
        AscendsCons(Entry(fs[0].key, fs[0].value.value), Present(fs[1..]), slot, from);
      } else {
        assert Present(fs) == Present(fs[1..]);
      }
    }
  }

  lemma SlotOfField(s: WireSpec, i: nat)
    requires i < 17
    ensures |SpecFields(s)| == 17 && SpecFields(s)[i].key == SPEC_KEYS[i] && SpecSlot(SPEC_KEYS[i]) == i
  {
    SpecKeys(s);
    EarlySpecKeys();
    LateSpecKeys();
    assert GoodKey(SPEC_KEYS[i], i);
  }

  lemma SpecInOrder(s: WireSpec)
    ensures forall a | 0 <= a < |SpecEntries(s)| :: SpecEntries(s)[a].key in SPEC_KEYS
    ensures Ascends(SpecEntries(s), SpecSlot, 0)
  {
    SlotOfField(s, 0);
    forall i | 0 <= i < 17 ensures SpecSlot(SpecFields(s)[i].key) == i {
      SlotOfField(s, i);
    }
    PresentAscends(SpecFields(s), SpecSlot, 0);
    forall a | 0 <= a < |SpecEntries(s)| ensures SpecEntries(s)[a].key in SPEC_KEYS {
      var i := PresentKeys(SpecFields(s), a);
      SlotOfField(s, i);
    }
  }

  function SpecEntries(s: WireSpec): (es: seq<Entry>) {
    Present(SpecFields(s))
  }

  lemma SpecFieldsNamed(s: WireSpec)
    ensures Named(SpecFields(s), SpecEntries(s))
  {
    SpecNames(s);
    AllNamed(SpecFields(s));
  }

  /** The record of a spec has its fields under the engine's names, in the engine's order. */
  lemma SpecIsNamed(s: WireSpec)
    ensures SpecNamed(s, SpecEntries(s))
  {
    SpecFieldsNamed(s);
    TextsAreNamed(s, SpecEntries(s));
    TimesAreNamed(s, SpecEntries(s));
    TagsAreNamed(s, SpecEntries(s));
    ListsAreNamed(s, SpecEntries(s));
    SpecInOrder(s);
  }

  // ---- building the record in place ---------------------------------------------------------------

  lemma {:induction false} PresentSplit(a: seq<Field>, b: seq<Field>)
    ensures Present(a + b) == Present(a) + Present(b)
    decreases |a|
  {
    if a == [] {
      assert a + b == b && Present(a) + Present(b) == Present(b);
    } else {
      assert (a + b)[1..] == a[1..] + b && (a + b)[0] == a[0];
      PresentSplit(a[1..], b);
      Concat3(Own(a[0]), Present(a[1..]), Present(b));
    }
  }

  lemma Assigned(fs: seq<Field>, k: nat)
    requires GoodNames(fs) && k < |fs|
    ensures Present(fs[..k + 1]) == Present(fs[..k]) + Own(fs[k])
    ensures var f := fs[k]; f.value.Some? ==>
              Assign(Unguarded, Record(Present(fs[..k]), Standard), f.key, f.value.value)
              == Record(Present(fs[..k + 1]), Standard)
  {
    var f, es := fs[k], Present(fs[..k]);
    assert fs[..k + 1] == fs[..k] + [f];
    PresentSplit(fs[..k], [f]);
    assert Present([f]) == Own(f);
    PresentOrdered(fs[..k + 1]);
    if f.value.Some? {
      PutAtEnd(es, Entry(f.key, f.value.value));
      StandardAssign(Unguarded, es, f.key, f.value.value);
    }
  }

  /** `out[key] = value` for each field that is present, in turn. */
  method AssignFields(fs: seq<Field>) returns (out: Record)
    requires GoodNames(fs)
    ensures out == Record(Present(fs), Standard)
  {
    out := EMPTY;
    for k := 0 to |fs|
      invariant out == Record(Present(fs[..k]), Standard)
    {
      Assigned(fs, k);
      if fs[k].value.Some? {
        out := Assign(Unguarded, out, fs[k].key, fs[k].value.value);
      }
    }
    assert fs[..|fs|] == fs;
  }

  /** The record is assigned in the engine's field order, and its property order is that order. */
  method PolicySpecToCbor(s: WireSpec) returns (v: Value)
    ensures v == SpecToCbor(s) && v.Obj? && SpecNamed(s, v.entries)
  {
    SpecNames(s);
    SpecIsNamed(s);
    var out := AssignFields(SpecFields(s));
    v := RecordValue(out);
  }

  // ---- record to row ------------------------------------------------------------------------------

  function OrEmpty<T>(o: Option<seq<T>>): (r: seq<T>) {
    if o.Some? then o.value else []
  }

  function RuleFromWire(w: WireRule): (r: Rule) {
    Rule(Endpoint(w.sourceKind, w.sourceSelectorKind, w.sourceSelectorValue),
         Endpoint(w.destinationKind, w.destinationSelectorKind, w.destinationSelectorValue), w.action)
  }

  /** The authored fields of a record, with the omitted axes restored. */
  function DraftOf(s: WireSpec): (d: Draft) {
    Draft(s.vtz, s.name, s.description, Map(RuleFromWire, s.rules),
          Network(OrEmpty(s.protocols), OrEmpty(s.ports)),
          Restrictions(OrEmpty(s.scheduleDays), s.scheduleStartMinute, s.scheduleEndMinute, s.activeFrom,
                       s.activeUntil, OrEmpty(s.geo), OrEmpty(s.restrictionTags)),
          s.logging, OrEmpty(s.appliedTo), s.maxClassification)
  }

  /** Fail closed: a row only when every tag of the record is known. */
  function RowOf(record: WireRecord): (r: Option<Row>) {
    if record.lifecycle in LIFECYCLES && Typed(DraftOf(record.spec))
    then Some(Row(record.id, record.version, record.lifecycle, DraftOf(record.spec)))
    else None
  }

  method NarrowTags(tags: seq<string>, xs: seq<string>) returns (r: Option<seq<string>>)
    ensures r == if KnownTags(tags, xs) then Some(xs) else None
  {
    var out: seq<string> := [];
    for i := 0 to |xs|
      invariant out == xs[..i] && KnownTags(tags, out)
    {
      if xs[i] !in tags {
        return None;
      }
      out := out + [xs[i]];
    }
    assert xs[..|xs|] == xs;
    return Some(out);
  }

  method NarrowRules(ws: seq<WireRule>) returns (r: Option<seq<Rule>>)
    ensures r.Some? <==> forall i | 0 <= i < |ws| :: KnownRule(RuleFromWire(ws[i]))
    ensures r.Some? ==> r.value == Map(RuleFromWire, ws)
  {
    var out: seq<Rule> := [];
    for i := 0 to |ws|
      invariant |out| == i
      invariant forall j | 0 <= j < i :: out[j] == RuleFromWire(ws[j]) && KnownRule(RuleFromWire(ws[j]))
    {
      var rule := RuleFromWire(ws[i]);
      if !KnownRule(rule) {
        return None;
      }
      out := out + [rule];
    }
    return Some(out);
  }

  // ---- which records have a row, tag by tag -------------------------------------------------------

  predicate IsKind(x: string) {
    || x == "user" || x == "group" || x == "agent" || x == "service" || x == "server" || x == "application"
    || x == "uri" || x == "network" || x == "registry_key" || x == "certificate" || x == "script"
    || x == "data_store"
  }

  predicate IsSelector(x: string) {
    x == "exact" || x == "glob" || x == "group_ref" || x == "cidr"
  }

  predicate IsAction(x: string) {
    x == "permit" || x == "monitor" || x == "quarantine" || x == "deny"
  }

  predicate IsProtocol(x: string) {
    x == "tcp" || x == "udp" || x == "https" || x == "ssh"
  }

  predicate IsDay(x: string) {
    x == "mon" || x == "tue" || x == "wed" || x == "thu" || x == "fri" || x == "sat" || x == "sun"
  }

  predicate IsClassification(x: string) {
    x == "unclassified" || x == "internal" || x == "confidential" || x == "restricted" || x == "secret"
  }

  predicate ReadableRule(w: WireRule) {
    && IsKind(w.sourceKind) && IsSelector(w.sourceSelectorKind)
    && IsKind(w.destinationKind) && IsSelector(w.destinationSelectorKind) && IsAction(w.action)
  }

  /** Every tag of the record is one the Console knows. */
  predicate Readable(record: WireRecord) {
    var s := record.spec;
    && (record.lifecycle == "draft" || record.lifecycle == "published")
    && (s.logging == "full" || s.logging == "sampled" || s.logging == "off")
    && IsClassification(s.maxClassification)
    && (s.protocols.Some? ==> forall i | 0 <= i < |s.protocols.value| :: IsProtocol(s.protocols.value[i]))
    && (s.scheduleDays.Some? ==> forall i | 0 <= i < |s.scheduleDays.value| :: IsDay(s.scheduleDays.value[i]))
    && (forall i | 0 <= i < |s.rules| :: ReadableRule(s.rules[i]))
  }

  lemma TagsAre(x: string)
    ensures x in ACTIONS <==> IsAction(x)
    ensures x in LOGGING <==> x == "full" || x == "sampled" || x == "off"
    ensures x in LIFECYCLES <==> x == "draft" || x == "published"
    ensures x in PROTOCOLS <==> IsProtocol(x)
    ensures x in SELECTOR_KINDS <==> IsSelector(x)
  {
  }

  lemma LongTagsAre(x: string)
    ensures x in DAYS <==> IsDay(x)
    ensures x in CLASSIFICATIONS <==> IsClassification(x)
  {
  }

  lemma KindsAre(x: string)
    ensures x in OBJECT_KINDS <==> IsKind(x)
  {
  }

  lemma KnownIsReadable(w: WireRule)
    ensures KnownRule(RuleFromWire(w)) <==> ReadableRule(w)
  {
    KindsAre(w.sourceKind);
    KindsAre(w.destinationKind);
    TagsAre(w.sourceSelectorKind);
    TagsAre(w.destinationSelectorKind);
    TagsAre(w.action);
  }

  lemma RulesReadable(ws: seq<WireRule>)
    ensures (forall i | 0 <= i < |ws| :: KnownRule(Map(RuleFromWire, ws)[i]))
            <==> forall i | 0 <= i < |ws| :: ReadableRule(ws[i])
  {
    var rules := Map(RuleFromWire, ws);
    forall i | 0 <= i < |ws| ensures KnownRule(rules[i]) <==> ReadableRule(ws[i]) {
      assert rules[i] == RuleFromWire(ws[i]);
      KnownIsReadable(ws[i]);
    }
  }

  lemma ProtocolsReadable(xs: seq<string>)
    ensures KnownTags(PROTOCOLS, xs) <==> forall i | 0 <= i < |xs| :: IsProtocol(xs[i])
  {
    forall i | 0 <= i < |xs| ensures xs[i] in PROTOCOLS <==> IsProtocol(xs[i]) {
      TagsAre(xs[i]);
    }
  }

  lemma DaysReadable(xs: seq<string>)
    ensures KnownTags(DAYS, xs) <==> forall i | 0 <= i < |xs| :: IsDay(xs[i])
  {
    forall i | 0 <= i < |xs| ensures xs[i] in DAYS <==> IsDay(xs[i]) {
      LongTagsAre(xs[i]);
    }
  }

  /** A rule of the row, field by field. */
  predicate ShowsRule(w: WireRule, r: Rule) {
    && r.source.kind == w.sourceKind && r.source.selectorKind == w.sourceSelectorKind
    && r.source.selectorValue == w.sourceSelectorValue
    && r.destination.kind == w.destinationKind && r.destination.selectorKind == w.destinationSelectorKind
    && r.destination.selectorValue == w.destinationSelectorValue && r.action == w.action
  }

  predicate ShowsRules(ws: seq<WireRule>, rs: seq<Rule>) {
    |rs| == |ws| && forall i | 0 <= i < |ws| :: ShowsRule(ws[i], rs[i])
  }

  /** A list that may be left out, as the row shows it. */
  predicate ShowsAxis<T(==)>(o: Option<seq<T>>, xs: seq<T>) {
    match o
    case Some(ys) => xs == ys
    case None => xs == []
  }

  /** Times and lists that restrict a policy. */
  predicate ShowsRestrictions(s: WireSpec, r: Restrictions) {
    && r.scheduleStartMinute == s.scheduleStartMinute && r.scheduleEndMinute == s.scheduleEndMinute
    && r.activeFrom == s.activeFrom && r.activeUntil == s.activeUntil
    && ShowsAxis(s.scheduleDays, r.scheduleDays) && ShowsAxis(s.geo, r.geo) && ShowsAxis(s.restrictionTags, r.tags)
  }

  predicate ShowsDraft(s: WireSpec, d: Draft) {
    && d.vtz == s.vtz && d.name == s.name && d.description == s.description
    && d.logging == s.logging && d.maxClassification == s.maxClassification
    && ShowsAxis(s.protocols, d.network.protocols) && ShowsAxis(s.ports, d.network.ports)
    && ShowsAxis(s.appliedTo, d.appliedTo)
    && ShowsRestrictions(s, d.restrictions) && ShowsRules(s.rules, d.rules)
  }

  predicate ShowsRow(record: WireRecord, row: Row) {
    && row.id == record.id && row.version == record.version && row.lifecycle == record.lifecycle
    && ShowsDraft(record.spec, row.authored)
  }

  lemma DraftShows(s: WireSpec)
    ensures ShowsDraft(s, DraftOf(s))
  {
  }

  lemma TypedIsReadable(record: WireRecord)
    ensures record.lifecycle in LIFECYCLES && Typed(DraftOf(record.spec)) <==> Readable(record)
  {
    var s := record.spec;
    TagsAre(record.lifecycle);
    TagsAre(s.logging);
    LongTagsAre(s.maxClassification);
    ProtocolsReadable(OrEmpty(s.protocols));
    DaysReadable(OrEmpty(s.scheduleDays));
    RulesReadable(s.rules);
  }

  /** A record has a row exactly when every tag of it is known, and the row shows its fields one by one. */
  lemma RowExactly(record: WireRecord)
    ensures RowOf(record).Some? <==> Readable(record)
    ensures RowOf(record).Some? ==> ShowsRow(record, RowOf(record).value)
  {
    TypedIsReadable(record);
    DraftShows(record.spec);
  }

  method ToPolicyRow(record: WireRecord) returns (r: Option<Row>)
    ensures r == RowOf(record)
    ensures r.Some? <==> Readable(record)
    ensures r.Some? ==> ShowsRow(record, r.value)
  {
    RowExactly(record);
    var s := record.spec;
    var protocols := NarrowTags(PROTOCOLS, OrEmpty(s.protocols));
    var days := NarrowTags(DAYS, OrEmpty(s.scheduleDays));
    if record.lifecycle !in LIFECYCLES || s.logging !in LOGGING || s.maxClassification !in CLASSIFICATIONS
       || protocols.None? || days.None? {
      return None;
    }
    var rules := NarrowRules(s.rules);
    if rules.None? {
      return None;
    }
    return Some(Row(record.id, record.version, record.lifecycle,
      Draft(s.vtz, s.name, s.description, rules.value, Network(protocols.value, OrEmpty(s.ports)),
            Restrictions(days.value, s.scheduleStartMinute, s.scheduleEndMinute, s.activeFrom, s.activeUntil,
                         OrEmpty(s.geo), OrEmpty(s.restrictionTags)),
            s.logging, OrEmpty(s.appliedTo), s.maxClassification)));
  }

  // ---- the whole trip -----------------------------------------------------------------------------

  function StripEndpoint(e: Endpoint): (r: Endpoint) {
    e.(selectorValue := Utf8.StripBom(e.selectorValue))
  }

  function StripPolicyRule(r: Rule): (s: Rule) {
    r.(source := StripEndpoint(r.source), destination := StripEndpoint(r.destination))
  }

  /** The draft that returns: free text loses a leading byte order mark, times keep 64 bits and
      -0 becomes 0. */
  function StripDraft(d: Draft): (r: Draft) {
    Draft(Utf8.StripBom(d.vtz), Utf8.StripBom(d.name), Utf8.StripBom(d.description), Map(StripPolicyRule, d.rules),
          d.network.(ports := Utf8.StripBom(d.network.ports)), StripRestrictions(d.restrictions), d.logging,
          StripMembers(d.appliedTo), d.maxClassification)
  }

  function StripRestrictions(r: Restrictions): (s: Restrictions) {
    Restrictions(r.scheduleDays, MapOption(ReadBackTime, r.scheduleStartMinute),
                 MapOption(ReadBackTime, r.scheduleEndMinute), MapOption(ReadBackTime, r.activeFrom),
                 MapOption(ReadBackTime, r.activeUntil), StripAll(r.geo), StripAll(r.tags))
  }

  /** An integer of 64 bits, or a number that is neither an integer nor -0. */
  predicate Survives(t: Number) {
    match t
    case Int(i) => -TWO_64 <= i < TWO_64
    case Float(bits) => bits != Doubles.NEGATIVE_ZERO
  }

  predicate TimeSurvives(o: Option<Number>) {
    o.Some? ==> Survives(o.value)
  }

  predicate ExactRestrictions(r: Restrictions) {
    && TimeSurvives(r.scheduleStartMinute) && TimeSurvives(r.scheduleEndMinute)
    && TimeSurvives(r.activeFrom) && TimeSurvives(r.activeUntil) && Plain(r.geo) && Plain(r.tags)
  }

  predicate ExactRule(r: Rule) {
    !HasBom(r.source.selectorValue) && !HasBom(r.destination.selectorValue)
  }

  predicate ExactMember(m: Member) {
    !HasBom(m.endpointCn) && (m.agent.Some? ==> !HasBom(m.agent.value))
  }

  /** Whole times fit 64 bits, no time is -0 and no free text begins with a byte order mark. */
  predicate Exact(d: Draft) {
    && !HasBom(d.vtz) && !HasBom(d.name) && !HasBom(d.description) && !HasBom(d.network.ports)
    && (forall i | 0 <= i < |d.rules| :: ExactRule(d.rules[i]))
    && (forall i | 0 <= i < |d.appliedTo| :: ExactMember(d.appliedTo[i]))
    && ExactRestrictions(d.restrictions)
  }

  lemma StripFixed(s: string)
    ensures Utf8.StripBom(s) == s <==> !HasBom(s)
  {
  }

  lemma StripAllFixed(xs: seq<string>)
    ensures StripAll(xs) == xs <==> Plain(xs)
  {
    forall i | 0 <= i < |xs| ensures StripAll(xs)[i] == xs[i] <==> !HasBom(xs[i]) {
      StripFixed(xs[i]);
    }
  }

  lemma FloatFixed(bits: Doubles.Bits64)
    requires NumberOf(bits) == Float(bits)
    ensures ReadBackNumber(bits) == Float(bits) <==> bits != Doubles.NEGATIVE_ZERO
  {
    NumberFixed(bits);
    Doubles.NegativeZeroIsIntegral();
  }

  lemma NumberReadBack(t: Number)
    ensures ReadBackTime(t) == t <==> Survives(t)
  {
    match t
    case Int(i) => ReadBackIntFixed(i);
    case Float(bits) => FloatFixed(bits);
  }

  lemma TimeFixed(o: Option<Number>)
    ensures MapOption(ReadBackTime, o) == o <==> TimeSurvives(o)
  {
    if o.Some? {
      NumberReadBack(o.value);
    }
  }

  lemma RestrictionsFixed(r: Restrictions)
    ensures StripRestrictions(r) == r <==> ExactRestrictions(r)
  {
    TimeFixed(r.scheduleStartMinute);
    TimeFixed(r.scheduleEndMinute);
    TimeFixed(r.activeFrom);
    TimeFixed(r.activeUntil);
    StripAllFixed(r.geo);
    StripAllFixed(r.tags);
  }

  lemma MapFixed<T>(f: T -> T, ok: T -> bool, xs: seq<T>)
    requires forall x :: f(x) == x <==> ok(x)
    ensures Map(f, xs) == xs <==> forall i | 0 <= i < |xs| :: ok(xs[i])
  {
    if forall i | 0 <= i < |xs| :: ok(xs[i]) {
      assert forall i | 0 <= i < |xs| :: Map(f, xs)[i] == xs[i];
    }
  }

  lemma RulesFixed(rs: seq<Rule>)
    ensures Map(StripPolicyRule, rs) == rs <==> forall i | 0 <= i < |rs| :: ExactRule(rs[i])
  {
    MapFixed(StripPolicyRule, ExactRule, rs);
  }

  lemma MembersFixed(ms: seq<Member>)
    ensures StripMembers(ms) == ms <==> forall i | 0 <= i < |ms| :: ExactMember(ms[i])
  {
    MapFixed(StripMember, ExactMember, ms);
  }

  lemma DraftFixed(d: Draft)
    ensures StripDraft(d) == d <==> Exact(d)
  {
    StripFixed(d.vtz);
    StripFixed(d.name);
    StripFixed(d.description);
    StripFixed(d.network.ports);
    RulesFixed(d.rules);
    MembersFixed(d.appliedTo);
    RestrictionsFixed(d.restrictions);
  }

  lemma KnownTagsReturn(tags: seq<string>, xs: seq<string>)
    requires Plain(tags) && KnownTags(tags, xs)
    ensures StripAll(xs) == xs
  {
    StripAllFixed(xs);
  }

  lemma KnownRuleReturns(r: Rule)
    requires KnownRule(r)
    ensures RuleFromWire(StripRule(RuleToWire(r))) == StripPolicyRule(r)
  {
    TagsArePlain();
    StripFixed(r.source.kind);
    StripFixed(r.source.selectorKind);
    StripFixed(r.destination.kind);
    StripFixed(r.destination.selectorKind);
    StripFixed(r.action);
  }

  lemma KnownRulesReturn(rs: seq<Rule>)
    requires forall i | 0 <= i < |rs| :: KnownRule(rs[i])
    ensures Map(RuleFromWire, Map(StripRule, Map(RuleToWire, rs))) == Map(StripPolicyRule, rs)
  {
    forall i | 0 <= i < |rs| ensures RuleFromWire(StripRule(RuleToWire(rs[i]))) == StripPolicyRule(rs[i]) {
      KnownRuleReturns(rs[i]);
    }
  }

  lemma AxisReturns<T>(f: seq<T> -> seq<T>, xs: seq<T>)
    requires f([]) == []
    ensures OrEmpty(MapOption(f, Axis(xs))) == f(xs)
  {
  }

  lemma AuthoredReturns(d: Draft)
    requires Typed(d)
    ensures DraftOf(StripSpec(SpecOf(d))) == StripDraft(d)
  {
    TagsArePlain();
    KnownRulesReturn(d.rules);
    AxisReturns(StripAll, d.network.protocols);
    KnownTagsReturn(PROTOCOLS, d.network.protocols);
    AxisReturns(Utf8.StripBom, d.network.ports);
    AxisReturns(StripAll, d.restrictions.scheduleDays);
    KnownTagsReturn(DAYS, d.restrictions.scheduleDays);
    AxisReturns(StripAll, d.restrictions.geo);
    AxisReturns(StripAll, d.restrictions.tags);
    AxisReturns(StripMembers, d.appliedTo);
    StripFixed(d.logging);
    StripFixed(d.maxClassification);
  }

  lemma StripTyped(d: Draft)
    requires Typed(d)
    ensures Typed(StripDraft(d))
  {
  }

  /**
   * Compiled, encoded, decoded and projected with the store's own fields, a draft comes back as a row:
   * the omitted axes are restored, and the authored fields are the same exactly when its whole times fit
   * 64 bits, no time is -0 and no free text begins with a byte order mark.
   */
  lemma DraftReturns(h: Host, d: Draft, id: string, version: string, lifecycle: string)
    requires RoundsLikeDoubles(h) && |Encode(SpecToCbor(SpecOf(d)))| <= MAX_LEN
    requires Typed(d) && lifecycle in LIFECYCLES
    ensures var reply := Decode(h, Encode(SpecToCbor(SpecOf(d))));
            && reply.Success? && AsSpec(reply.value).Some?
            && var row := RowOf(WireRecord(id, version, lifecycle, AsSpec(reply.value).value));
            && row == Some(Row(id, version, lifecycle, StripDraft(d)))
            && (row == Some(Row(id, version, lifecycle, d)) <==> Exact(d))
  {
    var v := SpecToCbor(SpecOf(d));
    ItemReadBack(h, v, []);
    assert Encode(v) + [] == Encode(v);
    SpecReturns(SpecOf(d));
    AuthoredReturns(d);
    StripTyped(d);
    DraftFixed(d);
  }
}
