/** The destination classifier: brands by longest suffix at a label boundary, then the layered rules. */
module Classifier {
  import opened Bytes
  import Decimal

  datatype Category = Network | Saas | PrivateApps | DataStores

  datatype Classified = Classified(category: Category, name: string)

  datatype Rule = Rule(suffix: string, brand: Classified)

  // ---- the brand search ---------------------------------------------------------------------------

  predicate EndsWith(s: string, t: string) {
    |t| <= |s| && s[|s| - |t|..] == t
  }

  /** The suffix is the name, or ends it after a dot. */
  predicate Matches(name: string, suffix: string) {
    name == suffix || EndsWith(name, "." + suffix)
  }

  /** The best rule so far, given one more. */
  function Better(name: string, best: Option<Rule>, rule: Rule): (r: Option<Rule>) {
    if Matches(name, rule.suffix) && (best.None? || |rule.suffix| > |best.value.suffix|) then Some(rule) else best
  }

  function Brand(table: seq<Rule>, name: string): (r: Option<Rule>) {
    if table == [] then None else Better(name, Brand(table[..|table| - 1], name), table[|table| - 1])
  }

  method BrandOf(table: seq<Rule>, name: string) returns (best: Option<Rule>)
    ensures best == Brand(table, name)
  {
    best := None;
    for i := 0 to |table|
      invariant best == Brand(table[..i], name)
    {
      assert table[..i + 1][..i] == table[..i];
      if Matches(name, table[i].suffix) && (best.None? || |table[i].suffix| > |best.value.suffix|) {
        best := Some(table[i]);
      }
    }
    assert table[..|table|] == table;
  }

  /** `k` is the first of the longest matching rules. */
  ghost predicate IsFirstLongest(table: seq<Rule>, name: string, k: nat) {
    && k < |table| && Matches(name, table[k].suffix)
    && (forall i | 0 <= i < |table| && Matches(name, table[i].suffix) :: |table[i].suffix| <= |table[k].suffix|)
    && (forall i | 0 <= i < k && Matches(name, table[i].suffix) :: |table[i].suffix| < |table[k].suffix|)
  }

  /** The search finds the first of the longest matching rules, and nothing only when none matches. */
  lemma {:induction false} BrandIsLongest(table: seq<Rule>, name: string) returns (k: nat)
    ensures Brand(table, name).None? ==> forall i | 0 <= i < |table| :: !Matches(name, table[i].suffix)
    ensures Brand(table, name).Some? ==> IsFirstLongest(table, name, k) && Brand(table, name) == Some(table[k])
    decreases |table|
  {
    k := 0;
    if table != [] {
      var n := |table| - 1;
      k := BrandIsLongest(table[..n], name);
      assert forall i | 0 <= i < n :: table[..n][i] == table[i];
      if Brand(table, name) == Some(table[n]) && Brand(table[..n], name) != Brand(table, name) {
        k := n;
      }
    }
  }

  lemma SuffixByLength(name: string, a: string, b: string)
    requires Matches(name, a) && Matches(name, b) && |a| == |b|
    ensures a == b
  {
    TailOfMatch(name, a);
    TailOfMatch(name, b);
  }

  lemma TailOfMatch(name: string, a: string)
    requires Matches(name, a)
    ensures |a| <= |name| && name[|name| - |a|..] == a
  {
    if name != a {
      var t := "." + a;
      assert t[1..] == a;
      assert name[|name| - |a|..] == name[|name| - |t|..][1..];
    }
  }

  // ---- the order of the table ---------------------------------------------------------------------

  /** Rules with one suffix are one rule. */
  ghost predicate Consistent(table: seq<Rule>) {
    forall i, j | 0 <= i < |table| && 0 <= j < |table| && table[i].suffix == table[j].suffix :: table[i] == table[j]
  }

  lemma SameLongest(table: seq<Rule>, name: string, k: nat, r: Rule)
    requires Consistent(table) && IsFirstLongest(table, name, k) && r in table
    requires Matches(name, r.suffix) && |table[k].suffix| <= |r.suffix|
    ensures r == table[k]
  {
    var i :| 0 <= i < |table| && table[i] == r;
    SuffixByLength(name, table[i].suffix, table[k].suffix);
  }

  lemma PermutedRules(a: seq<Rule>, b: seq<Rule>, i: nat)
    requires multiset(a) == multiset(b) && i < |a|
    ensures a[i] in b
  {
    assert a[i] in multiset(a);
    assert a[i] in multiset(b);
  }

  lemma FoundInBoth(a: seq<Rule>, b: seq<Rule>, name: string)
    requires Consistent(a) && multiset(a) == multiset(b) && Brand(a, name).Some?
    ensures Brand(b, name) == Brand(a, name)
  {
    var k := BrandIsLongest(a, name);
    var m := BrandIsLongest(b, name);
    PermutedRules(a, b, k);
    var i :| 0 <= i < |b| && b[i] == a[k];
    assert Matches(name, b[i].suffix);
    PermutedRules(b, a, m);
    SameLongest(a, name, k, b[m]);
  }

  /** A consistent table answers the same in any order. */
  lemma BrandIgnoresOrder(a: seq<Rule>, b: seq<Rule>, name: string)
    requires Consistent(a) && multiset(a) == multiset(b)
    ensures Brand(a, name) == Brand(b, name)
  {
    if Brand(a, name).Some? {
      FoundInBoth(a, b, name);
    } else if Brand(b, name).Some? {
      var k := BrandIsLongest(b, name);
      var _ := BrandIsLongest(a, name);
      PermutedRules(b, a, k);
    }
  }

  lemma NotLonger(name: string, suffix: string)
    requires Matches(name, suffix)
    ensures |suffix| < |name| || suffix == name
  {
  }

  /** A name that is itself a suffix is answered by the first rule with that suffix. */
  lemma ExactName(table: seq<Rule>, f: nat)
    requires f < |table| && forall i | 0 <= i < f :: table[i].suffix != table[f].suffix
    ensures Brand(table, table[f].suffix) == Some(table[f])
  {
    var name := table[f].suffix;
    var k := BrandIsLongest(table, name);
    assert Matches(name, table[f].suffix);
    NotLonger(name, table[k].suffix);
    assert k == f;
  }

  lemma FirstWith(table: seq<Rule>, suffix: string, i: nat) returns (f: nat)
    requires i < |table| && table[i].suffix == suffix
    ensures f <= i && table[f].suffix == suffix && forall j | 0 <= j < f :: table[j].suffix != suffix
  {
    f := 0;
    while table[f].suffix != suffix
      invariant f <= i && forall j | 0 <= j < f :: table[j].suffix != suffix
      decreases i - f
    {
      f := f + 1;
    }
  }

  function Swapped(table: seq<Rule>, f: nat, k: nat): (r: seq<Rule>)
    requires f < |table| && k < |table|
  {
    table[f := table[k]][k := table[f]]
  }

  lemma SwappedIsPermutation(table: seq<Rule>, f: nat, k: nat)
    requires f < |table| && k < |table|
    ensures multiset(Swapped(table, f, k)) == multiset(table)
  {
  }

  /** A table with two different rules for one suffix has an order that changes an answer. */
  lemma OrderMatters(table: seq<Rule>, i: nat, j: nat) returns (other: seq<Rule>, name: string)
    requires i < |table| && j < |table| && table[i].suffix == table[j].suffix && table[i] != table[j]
    ensures multiset(other) == multiset(table) && Brand(other, name) != Brand(table, name)
  {
    name := table[i].suffix;
    var f := FirstWith(table, name, i);
    var f' := FirstWith(table, name, j);
    assert f == f';
    var k := if table[f] != table[i] then i else j;
    other := Swapped(table, f, k);
    SwappedIsPermutation(table, f, k);
    ExactName(table, f);
    ExactName(other, f);
  }

  /** The answers are independent of the order of the table exactly when it is consistent. */
  lemma OrderFreeExactly(table: seq<Rule>)
    ensures (forall other, name | multiset(other) == multiset(table) :: Brand(other, name) == Brand(table, name))
            <==> Consistent(table)
  {
    if Consistent(table) {
      forall other, name | multiset(other) == multiset(table) ensures Brand(other, name) == Brand(table, name) {
        BrandIgnoresOrder(table, other, name);
      }
    } else {
      var i, j :| 0 <= i < |table| && 0 <= j < |table| && table[i].suffix == table[j].suffix && table[i] != table[j];
      var other, name := OrderMatters(table, i, j);
    }
  }

  // ---- the shipped table --------------------------------------------------------------------------

  const INFRASTRUCTURE: seq<Rule> := [
    Rule("dns.google", Classified(Network, "Google DNS")),
    Rule("one.one.one.one", Classified(Network, "Cloudflare DNS")),
    Rule("quad9.net", Classified(Network, "Quad9 DNS")),
    Rule("opendns.com", Classified(Network, "OpenDNS")),
    Rule("cloudflare.com", Classified(Network, "Cloudflare")),
    Rule("fastly.net", Classified(Network, "Fastly")),
    Rule("akamaitechnologies.com", Classified(Network, "Akamai")),
    Rule("akamai.net", Classified(Network, "Akamai")),
    Rule("cloudfront.net", Classified(Network, "CloudFront")),
    Rule("googleusercontent.com", Classified(Network, "Google Cloud")),
    Rule("s3.amazonaws.com", Classified(DataStores, "Amazon S3"))
  ]

  const SAAS: seq<Rule> := [
    Rule("github.com", Classified(Saas, "GitHub")),
    Rule("github.io", Classified(Saas, "GitHub")),
    Rule("slack.com", Classified(Saas, "Slack")),
    Rule("salesforce.com", Classified(Saas, "Salesforce")),
    Rule("force.com", Classified(Saas, "Salesforce")),
    Rule("service-now.com", Classified(Saas, "ServiceNow")),
    Rule("zoom.us", Classified(Saas, "Zoom")),
    Rule("atlassian.net", Classified(Saas, "Atlassian")),
    Rule("atlassian.com", Classified(Saas, "Atlassian")),
    Rule("office365.com", Classified(Saas, "Microsoft 365")),
    Rule("outlook.com", Classified(Saas, "Microsoft 365"))
  ]

  const PLATFORMS: seq<Rule> := [
    Rule("sharepoint.com", Classified(Saas, "Microsoft 365")),
    Rule("amazonaws.com", Classified(Saas, "AWS")),
    Rule("azure.com", Classified(Saas, "Microsoft Azure")),
    Rule("azurewebsites.net", Classified(Saas, "Microsoft Azure")),
    Rule("googleapis.com", Classified(Saas, "Google APIs")),
    Rule("google.com", Classified(Saas, "Google")),
    Rule("1e100.net", Classified(Saas, "Google")),
    Rule("anthropic.com", Classified(Saas, "Anthropic")),
    Rule("openai.com", Classified(Saas, "OpenAI")),
    Rule("wikimedia.org", Classified(Network, "Wikipedia")),
    Rule("wikipedia.org", Classified(Network, "Wikipedia"))
  ]

  const BRAND_RULES: seq<Rule> := INFRASTRUCTURE + SAAS + PLATFORMS

  /** The place of each shipped suffix, told from its length and a letter or two. */
  function SlotOf(s: string): (i: int) {
    var n := |s|;
    if n == 7 then 17
    else if n == 9 then
      if s[0] == 'q' then 2 else if s[0] == 'g' then 12 else if s[0] == 's' then 13
      else if s[0] == 'f' then 15 else if s[0] == 'a' then 24 else 28
    else if n == 10 then
      if s[1] == 'n' then 0 else if s[1] == 'a' then 5 else if s[1] == 'k' then 7
      else if s[1] == 'i' then 11 else if s[1] == 'o' then 27 else 30
    else if n == 11 then if s[1] == 'p' then 3 else 21
    else if n == 13 then
      if s[4] == 's' then (if s[10] == 'n' then 18 else 19) else if s[4] == 'c' then 20
      else if s[4] == 'o' then 23 else if s[4] == 'r' then 29 else if s[4] == 'm' then 31 else 32
    else if n == 14 then
      if s[7] == 'a' then 4 else if s[7] == 'o' then 8 else if s[7] == 'r' then 14
      else if s[7] == 'i' then 22 else 26
    else if n == 15 then if s[0] == 'o' then 1 else 16
    else if n == 16 then 10
    else if n == 17 then 25
    else if n == 21 then 9
    else if n == 22 then 6
    else -1
  }

  lemma DistinctBySlot(table: seq<Rule>, slot: string -> int)
    requires forall i | 0 <= i < |table| :: slot(table[i].suffix) == i
    ensures Consistent(table)
  {
  }

  lemma InfrastructureSlots()
    ensures |INFRASTRUCTURE| == 11 && forall i | 0 <= i < 11 :: SlotOf(INFRASTRUCTURE[i].suffix) == i
  {
  }

  lemma SaasSlots()
    ensures |SAAS| == 11 && forall i | 0 <= i < 11 :: SlotOf(SAAS[i].suffix) == 11 + i
  {
  }

  lemma PlatformSlots()
    ensures |PLATFORMS| == 11 && forall i | 0 <= i < 11 :: SlotOf(PLATFORMS[i].suffix) == 22 + i
  {
  }

  lemma SlotsJoin(a: seq<Rule>, b: seq<Rule>, c: seq<Rule>)
    requires |a| == |b| == |c| == 11
    requires forall i | 0 <= i < 11 :: SlotOf(a[i].suffix) == i
    requires forall i | 0 <= i < 11 :: SlotOf(b[i].suffix) == 11 + i
    requires forall i | 0 <= i < 11 :: SlotOf(c[i].suffix) == 22 + i
    ensures Consistent(a + b + c)
  {
    DistinctBySlot(a + b + c, SlotOf);
  }

  /** The shipped table is consistent, so its answers do not depend on how it is ordered. */
  lemma ShippedTableIsConsistent()
    ensures Consistent(BRAND_RULES)
  {
    InfrastructureSlots();
    SaasSlots();
    PlatformSlots();
    SlotsJoin(INFRASTRUCTURE, SAAS, PLATFORMS);
  }

  // ---- the layered rules --------------------------------------------------------------------------

  const DATA_STORE_PORTS: map<nat, string> := map[
    1433 := "SQL Server", 1521 := "Oracle DB", 3306 := "MySQL", 5432 := "Postgres", 5984 := "CouchDB",
    6379 := "Redis", 9042 := "Cassandra", 9200 := "Elasticsearch", 11211 := "Memcached", 27017 := "MongoDB"]

  const PRIVATE_APP_PORTS: map<nat, string> := map[22 := "SSH", 445 := "Microsoft SMB", 3389 := "RDP", 5900 := "VNC"]

  /** What the classifier takes from its host: string case, trimming, and `Number` (`None` is not a number). */
  datatype Host = Host(lower: string -> string, upper: string -> string, trim: string -> string,
                       number: string -> Option<real>)

  function SplitDots(s: string): (parts: seq<string>)
    ensures parts != []
  {
    if s == "" then [""]
    else
      var rest := SplitDots(s[1..]);
      if s[0] == '.' then [""] + rest else [[s[0]] + rest[0]] + rest[1..]
  }

  predicate IsOctet(s: string) {
    1 <= |s| <= 3 && Decimal.AllDigits(s)
  }

  /** Four groups of one to three digits. */
  predicate IsIpv4(s: string) {
    var parts := SplitDots(s);
    |parts| == 4 && forall i | 0 <= i < 4 :: IsOctet(parts[i])
  }

  datatype Split = Split(ip: string, port: Option<nat>)

  function ColonAt(s: string): (i: nat)
    ensures i <= |s| && ':' !in s[..i] && (i < |s| ==> s[i] == ':')
  {
    if s == "" || s[0] == ':' then 0 else 1 + ColonAt(s[1..])
  }

  /** `IPv4:port` in its two parts; anything else whole. */
  function SplitEndpoint(address: string): (r: Split) {
    var i := ColonAt(address);
    if i < |address| && IsIpv4(address[..i]) && address[i + 1..] != "" && Decimal.AllDigits(address[i + 1..])
    then Split(address[..i], Some(Decimal.Value(address[i + 1..])))
    else Split(address, None)
  }

  predicate IsPrivateIp(h: Host, ip: string) {
    var octets := SplitDots(ip);
    |octets| == 4 &&
    var a, b := h.number(octets[0]), h.number(octets[1]);
    || a == Some(10.0) || a == Some(127.0)
    || (a == Some(172.0) && b.Some? && 16.0 <= b.value <= 31.0)
    || (a == Some(192.0) && b == Some(168.0))
    || (a == Some(169.0) && b == Some(254.0))
  }

  function NonBlank(labels: seq<string>): (r: seq<string>) {
    if labels == [] then [] else (if labels[0] != "" then [labels[0]] else []) + NonBlank(labels[1..])
  }

  const SECOND_LEVEL: seq<string> := ["co", "com", "net", "org", "ac", "gov"]

  /** The label left of the public suffix, capitalised. */
  function DomainName(h: Host, name: string): (r: Option<string>) {
    var labels := NonBlank(SplitDots(h.lower(name)));
    var n := |labels|;
    if n < 2 then None
    else
      var core := if n >= 3 && labels[n - 2] in SECOND_LEVEL then labels[n - 3] else labels[n - 2];
      if core == "" then None else Some(h.upper([core[0]]) + core[1..])
  }

  /** The classification of a host on an optional port, by its trimmed PTR name (empty when unresolved). */
  function ClassifyHost(h: Host, table: seq<Rule>, ip: string, port: Option<nat>, ptr: string): (r: Classified) {
    var app := if port.Some? && port.value in PRIVATE_APP_PORTS then Some(PRIVATE_APP_PORTS[port.value]) else None;
    if port.Some? && port.value in DATA_STORE_PORTS then Classified(DataStores, DATA_STORE_PORTS[port.value])
    else if ip == "169.254.169.254" then Classified(PrivateApps, "Cloud Metadata")
    else if "127." <= ip then Classified(PrivateApps, "Localhost")
    else if IsPrivateIp(h, ip) then
      Classified(PrivateApps,
        if app.Some? then app.value
        else if ptr == "" then ip
        else match DomainName(h, ptr) case Some(n) => n case None => ptr)
    else
      var brand := if ptr == "" then None else Brand(table, h.lower(ptr));
      if brand.Some? then brand.value.brand
      else if app.Some? then Classified(PrivateApps, app.value)
      else if ptr == "" then Classified(Network, ip)
      else match DomainName(h, ptr) case Some(n) => Classified(Network, n) case None => Classified(Network, ptr)
  }

  function Classify(h: Host, table: seq<Rule>, address: string, resolved: Option<string>): (r: Classified) {
    var s := SplitEndpoint(address);
    ClassifyHost(h, table, s.ip, s.port, if resolved.Some? then h.trim(resolved.value) else "")
  }

  lemma {:induction false} SplitCovers(s: string, k: nat)
    requires k < |s| && s[k] != '.'
    ensures exists i, j :: 0 <= i < |SplitDots(s)| && 0 <= j < |SplitDots(s)[i]| && SplitDots(s)[i][j] == s[k]
  {
    var rest, parts := SplitDots(s[1..]), SplitDots(s);
    if k == 0 {
      assert parts[0][0] == s[0];
    } else {
      SplitCovers(s[1..], k - 1);
      var i, j :| 0 <= i < |rest| && 0 <= j < |rest[i]| && rest[i][j] == s[k];
      if s[0] == '.' {
        assert parts[i + 1] == rest[i];
      } else if i == 0 {
        assert parts[0][j + 1] == rest[0][j];
      } else {
        assert parts[i] == rest[i];
      }
    }
  }

  lemma Ipv4HasNoColon(ip: string)
    requires IsIpv4(ip)
    ensures ':' !in ip
  {
    forall k | 0 <= k < |ip| ensures ip[k] != ':' {
      if ip[k] != '.' {
        SplitCovers(ip, k);
        var i, j :| 0 <= i < |SplitDots(ip)| && 0 <= j < |SplitDots(ip)[i]| && SplitDots(ip)[i][j] == ip[k];
        assert IsOctet(SplitDots(ip)[i]);
      }
    }
  }

  lemma {:induction false} ColonAfter(a: string, b: string)
    requires ':' !in a
    ensures ColonAt(a) == |a| && ColonAt(a + ":" + b) == |a|
    decreases |a|
  {
    var s := a + ":" + b;
    if a != "" {
      ColonAfter(a[1..], b);
      assert s[1..] == a[1..] + ":" + b && s[0] == a[0] && a[0] in a;
    }
  }

  /** An endpoint printed from an IPv4 address and a port is split back into them. */
  lemma SplitReads(ip: string, digits: string)
    requires IsIpv4(ip) && digits != "" && Decimal.AllDigits(digits)
    ensures SplitEndpoint(ip) == Split(ip, None)
    ensures SplitEndpoint(ip + ":" + digits) == Split(ip, Some(Decimal.Value(digits)))
  {
    Ipv4HasNoColon(ip);
    ColonAfter(ip, digits);
    var s := ip + ":" + digits;
    assert s[..|ip|] == ip && s[|ip| + 1..] == digits;
  }

  predicate KnownPort(port: nat) {
    port in DATA_STORE_PORTS || port in PRIVATE_APP_PORTS
  }

  /** On a port in neither table, an IPv4 endpoint classifies as its bare address does. */
  lemma PortIsNoise(h: Host, table: seq<Rule>, ip: string, digits: string, resolved: Option<string>)
    requires IsIpv4(ip) && digits != "" && Decimal.AllDigits(digits) && !KnownPort(Decimal.Value(digits))
    ensures Classify(h, table, ip + ":" + digits, resolved) == Classify(h, table, ip, resolved)
  {
    SplitReads(ip, digits);
  }

  /** A data-store port decides alone, on any IPv4 address and whatever its name. */
  lemma StorePortDecides(h: Host, table: seq<Rule>, ip: string, digits: string, resolved: Option<string>)
    requires IsIpv4(ip) && digits != "" && Decimal.AllDigits(digits) && Decimal.Value(digits) in DATA_STORE_PORTS
    ensures Classify(h, table, ip + ":" + digits, resolved)
            == Classified(DataStores, DATA_STORE_PORTS[Decimal.Value(digits)])
  {
    SplitReads(ip, digits);
  }

  /** On a public address a brand outranks a private-app port, and any order of a consistent table finds it. */
  lemma BrandOutranksAppPort(h: Host, table: seq<Rule>, other: seq<Rule>, ip: string, digits: string, name: string)
    requires IsIpv4(ip) && IsPublic(h, ip) && digits != "" && Decimal.AllDigits(digits)
    requires Decimal.Value(digits) !in DATA_STORE_PORTS && h.trim(name) != ""
    requires Consistent(table) && multiset(other) == multiset(table) && Brand(table, h.lower(h.trim(name))).Some?
    ensures Classify(h, other, ip + ":" + digits, Some(name)) == Brand(table, h.lower(h.trim(name))).value.brand
  {
    SplitReads(ip, digits);
    BrandIgnoresOrder(table, other, h.lower(h.trim(name)));
  }

  predicate IsPublic(h: Host, ip: string) {
    ip != "169.254.169.254" && !("127." <= ip) && !IsPrivateIp(h, ip)
  }

  /** A local, metadata or private IPv4 endpoint is a private app exactly when its port is no data store's. */
  lemma LocalIsPrivateExactly(h: Host, table: seq<Rule>, ip: string, digits: string, resolved: Option<string>)
    requires IsIpv4(ip) && !IsPublic(h, ip) && digits != "" && Decimal.AllDigits(digits)
    ensures Classify(h, table, ip + ":" + digits, resolved).category == PrivateApps
            <==> Decimal.Value(digits) !in DATA_STORE_PORTS
  {
    SplitReads(ip, digits);
  }

  /** For an unresolved public IPv4 address the port is noise exactly when it is in neither table. */
  lemma PortIsNoiseExactly(h: Host, table: seq<Rule>, ip: string, digits: string)
    requires IsIpv4(ip) && IsPublic(h, ip) && digits != "" && Decimal.AllDigits(digits)
    ensures Classify(h, table, ip + ":" + digits, None) == Classify(h, table, ip, None)
            <==> !KnownPort(Decimal.Value(digits))
  {
    SplitReads(ip, digits);
  }

  // ---- labels -------------------------------------------------------------------------------------

  predicate DotFree(s: string) {
    '.' !in s
  }

  /** Labels joined by dots. */
  function JoinDots(labels: seq<string>): (s: string)
    requires labels != []
  {
    if |labels| == 1 then labels[0] else labels[0] + ("." + JoinDots(labels[1..]))
  }

  lemma {:induction false} SplitOne(part: string)
    requires DotFree(part)
    ensures SplitDots(part) == [part]
  {
    if part != "" {
      SplitOne(part[1..]);
      assert part == [part[0]] + part[1..];
    }
  }

  lemma {:induction false} SplitFirst(part: string, rest: string)
    requires DotFree(part)
    ensures SplitDots(part + ("." + rest)) == [part] + SplitDots(rest)
    decreases |part|
  {
    var s := part + ("." + rest);
    if part == "" {
      assert s[1..] == rest;
    } else {
      assert s[1..] == part[1..] + ("." + rest) && s[0] == part[0];
      SplitFirst(part[1..], rest);
      assert part == [part[0]] + part[1..];
    }
  }

  /** Splitting undoes joining. */
  lemma {:induction false} SplitJoined(labels: seq<string>)
    requires labels != [] && forall i | 0 <= i < |labels| :: DotFree(labels[i])
    ensures SplitDots(JoinDots(labels)) == labels
  {
    if |labels| == 1 {
      SplitOne(labels[0]);
    } else {
      SplitFirst(labels[0], JoinDots(labels[1..]));
      SplitJoined(labels[1..]);
      assert labels == [labels[0]] + labels[1..];
    }
  }

  lemma {:induction false} AllNonBlank(labels: seq<string>)
    requires forall i | 0 <= i < |labels| :: labels[i] != ""
    ensures NonBlank(labels) == labels
  {
    if labels != [] {
      AllNonBlank(labels[1..]);
      assert labels == [labels[0]] + labels[1..];
    }
  }

  predicate IsWide(x: string) {
    x == "co" || x == "com" || x == "net" || x == "org" || x == "ac" || x == "gov"
  }

  lemma WideExactly(x: string)
    ensures x in SECOND_LEVEL <==> IsWide(x)
  {
  }

  /** The label before the public suffix: the last but one, or the last but two when that one is wide. */
  function Core(labels: seq<string>): (r: string)
    requires |labels| >= 2
  {
    var n := |labels|;
    if n >= 3 && IsWide(labels[n - 2]) then labels[n - 3] else labels[n - 2]
  }

  lemma LabelsOf(h: Host, name: string, labels: seq<string>)
    requires labels != [] && h.lower(name) == JoinDots(labels)
    requires forall i | 0 <= i < |labels| :: labels[i] != "" && DotFree(labels[i])
    ensures NonBlank(SplitDots(h.lower(name))) == labels
  {
    SplitJoined(labels);
    AllNonBlank(labels);
  }

  /** A name is shown as the label before its public suffix, which is its last label, or its last two when
      the one before is co, com, net, org, ac or gov; with its first letter raised. */
  lemma {:induction false} NameIsShown(h: Host, name: string, labels: seq<string>)
    requires labels != [] && h.lower(name) == JoinDots(labels)
    requires forall i | 0 <= i < |labels| :: labels[i] != "" && DotFree(labels[i])
    ensures |labels| < 2 ==> DomainName(h, name) == None
    ensures |labels| >= 2 ==>
              Core(labels) != "" && DomainName(h, name) == Some(h.upper([Core(labels)[0]]) + Core(labels)[1..])
  {
    LabelsOf(h, name, labels);
    ShownByLabels(h, name, labels);
  }

  lemma {:induction false} ShownByLabels(h: Host, name: string, labels: seq<string>)
    requires NonBlank(SplitDots(h.lower(name))) == labels && forall i | 0 <= i < |labels| :: labels[i] != ""
    ensures |labels| < 2 ==> DomainName(h, name) == None
    ensures |labels| >= 2 ==>
              Core(labels) != "" && DomainName(h, name) == Some(h.upper([Core(labels)[0]]) + Core(labels)[1..])
  {
    if |labels| >= 2 {
      WideExactly(labels[|labels| - 2]);
    }
  }

  // ---- addresses ----------------------------------------------------------------------------------

  /** The dotted form of four numbers. */
  function Dotted(a: nat, b: nat, c: nat, d: nat): (ip: string) {
    JoinDots([Decimal.Print(a), Decimal.Print(b), Decimal.Print(c), Decimal.Print(d)])
  }

  /** The host reads a numeral as its number. */
  predicate Reads(h: Host, n: nat) {
    h.number(Decimal.Print(n)) == Some(n as real)
  }

  lemma NumeralIsDotFree(n: nat)
    ensures DotFree(Decimal.Print(n))
  {
    var s := Decimal.Print(n);
    forall i | 0 <= i < |s| ensures s[i] != '.' {
      assert Decimal.IsDigit(s[i]);
    }
  }

  lemma DottedSplits(a: nat, b: nat, c: nat, d: nat)
    ensures SplitDots(Dotted(a, b, c, d))
            == [Decimal.Print(a), Decimal.Print(b), Decimal.Print(c), Decimal.Print(d)]
  {
    NumeralIsDotFree(a);
    NumeralIsDotFree(b);
    NumeralIsDotFree(c);
    NumeralIsDotFree(d);
    SplitJoined([Decimal.Print(a), Decimal.Print(b), Decimal.Print(c), Decimal.Print(d)]);
  }

  /** 10/8, 127/8, 172.16/12, 192.168/16 and 169.254/16. */
  predicate PrivateRange(a: nat, b: nat) {
    a == 10 || a == 127 || (a == 172 && 16 <= b <= 31) || (a == 192 && b == 168) || (a == 169 && b == 254)
  }

  /** Which addresses are private, by number. */
  lemma PrivateExactly(h: Host, a: nat, b: nat, c: nat, d: nat)
    requires Reads(h, a) && Reads(h, b)
    ensures IsPrivateIp(h, Dotted(a, b, c, d)) <==> PrivateRange(a, b)
  {
    DottedSplits(a, b, c, d);
  }

  lemma FirstLabelIs(ip: string, part: string)
    requires DotFree(part) && part + "." <= ip
    ensures SplitDots(ip)[0] == part
  {
    var rest := ip[|part| + 1..];
    assert ip == part + ("." + rest);
    SplitFirst(part, rest);
  }

  lemma NumeralOf127(a: nat)
    requires Decimal.Print(a) == "127"
    ensures a == 127
  {
    Decimal.PrintValue(a);
    assert "127"[..2] == "12" && "12"[..1] == "1" && "1"[..0] == "";
    assert Decimal.Value("1") == 1;
    assert Decimal.Value("12") == 12;
  }

  lemma LoopbackIsPrivate(a: nat, b: nat, c: nat, d: nat)
    requires "127." <= Dotted(a, b, c, d)
    ensures a == 127
  {
    DottedSplits(a, b, c, d);
    assert "127" + "." == "127.";
    FirstLabelIs(Dotted(a, b, c, d), "127");
    NumeralOf127(a);
  }

  lemma Numeral169()
    ensures Decimal.Print(169) == "169" && Decimal.Print(254) == "254"
  {
    assert Decimal.Print(1) == "1" && Decimal.Print(2) == "2";
    assert Decimal.Print(16) == "16" && Decimal.Print(25) == "25";
  }

  lemma PrintInjective(a: nat, b: nat)
    requires Decimal.Print(a) == Decimal.Print(b)
    ensures a == b
  {
    Decimal.PrintValue(a);
    Decimal.PrintValue(b);
  }

  lemma FirstTwoLabels(ip: string, x: string, y: string, rest: string)
    requires DotFree(x) && DotFree(y) && ip == x + ("." + (y + ("." + rest)))
    ensures |SplitDots(ip)| >= 2 && SplitDots(ip)[0] == x && SplitDots(ip)[1] == y
  {
    SplitFirst(x, y + ("." + rest));
    SplitFirst(y, rest);
  }

  lemma MetadataIsPrivate(ip: string, a: nat, b: nat, c: nat, d: nat)
    requires ip == Dotted(a, b, c, d) == "169.254.169.254"
    ensures a == 169 && b == 254
  {
    Numeral169();
    DottedSplits(a, b, c, d);
    MetadataParts(ip);
    PrintInjective(a, 169);
    PrintInjective(b, 254);
  }

  lemma MetadataParts(ip: string)
    requires ip == "169.254.169.254"
    ensures |SplitDots(ip)| >= 2 && SplitDots(ip)[0] == "169" && SplitDots(ip)[1] == "254"
  {
    assert ip == "169" + ("." + ("254" + ("." + "169.254")));
    FirstTwoLabels(ip, "169", "254", "169.254");
  }

  /** Public addresses are those outside the private ranges. */
  lemma PublicExactly(h: Host, a: nat, b: nat, c: nat, d: nat)
    requires Reads(h, a) && Reads(h, b)
    ensures IsPublic(h, Dotted(a, b, c, d)) <==> !PrivateRange(a, b)
  {
    var ip := Dotted(a, b, c, d);
    PrivateExactly(h, a, b, c, d);
    if "127." <= ip {
      LoopbackIsPrivate(a, b, c, d);
    }
    if ip == "169.254.169.254" {
      MetadataIsPrivate(ip, a, b, c, d);
    }
  }

  // ---- ports --------------------------------------------------------------------------------------

  /** The data-store ports and their names. */
  function StoreName(port: nat): (name: Option<string>) {
    if port == 1433 then Some("SQL Server") else if port == 1521 then Some("Oracle DB")
    else if port == 3306 then Some("MySQL") else if port == 5432 then Some("Postgres")
    else if port == 5984 then Some("CouchDB") else if port == 6379 then Some("Redis")
    else if port == 9042 then Some("Cassandra") else if port == 9200 then Some("Elasticsearch")
    else if port == 11211 then Some("Memcached") else if port == 27017 then Some("MongoDB") else None
  }

  /** The private-app ports and their names. */
  function AppName(port: nat): (name: Option<string>) {
    if port == 22 then Some("SSH") else if port == 445 then Some("Microsoft SMB")
    else if port == 3389 then Some("RDP") else if port == 5900 then Some("VNC") else None
  }

  lemma PortsAreNamed(port: nat)
    ensures StoreName(port) == if port in DATA_STORE_PORTS then Some(DATA_STORE_PORTS[port]) else None
    ensures AppName(port) == if port in PRIVATE_APP_PORTS then Some(PRIVATE_APP_PORTS[port]) else None
  {
  }

  // ---- the decision -------------------------------------------------------------------------------

  /** How a destination without a better name is called: by its domain, its whole name, or its address. */
  function PlainName(h: Host, ip: string, ptr: string): (name: string) {
    if ptr == "" then ip
    else match DomainName(h, ptr)
      case Some(n) => n
      case None => ptr
  }

  /** The whole decision for an IPv4 address on a port, by number: a data-store port; then a local or
      private address, by app port or name; then, for a public one, the brand of its name, an app port, and
      the plain network. */
  lemma EndpointExactly(h: Host, table: seq<Rule>, ip: string, digits: string, resolved: Option<string>)
    requires IsIpv4(ip) && digits != "" && Decimal.AllDigits(digits)
    ensures var port, ptr := Decimal.Value(digits), if resolved.Some? then h.trim(resolved.value) else "";
            var r := Classify(h, table, ip + ":" + digits, resolved);
            && (StoreName(port).Some? ==> r == Classified(DataStores, StoreName(port).value))
            && (StoreName(port).None? ==> Elsewhere(h, table, ip, AppName(port), ptr, r))
  {
    SplitReads(ip, digits);
    PortsAreNamed(Decimal.Value(digits));
  }

  /** What remains once the port is no data store's. */
  predicate Elsewhere(h: Host, table: seq<Rule>, ip: string, app: Option<string>, ptr: string, r: Classified) {
    if ip == "169.254.169.254" then r == Classified(PrivateApps, "Cloud Metadata")
    else if "127." <= ip then r == Classified(PrivateApps, "Localhost")
    else if !IsPublic(h, ip) then
      r == Classified(PrivateApps, if app.Some? then app.value else PlainName(h, ip, ptr))
    else if ptr != "" && Brand(table, h.lower(ptr)).Some? then r == Brand(table, h.lower(ptr)).value.brand
    else if app.Some? then r == Classified(PrivateApps, app.value)
    else r == Classified(Network, PlainName(h, ip, ptr))
  }

  /** A bare IPv4 address is decided as on a port in neither list. */
  lemma AddressExactly(h: Host, table: seq<Rule>, ip: string, resolved: Option<string>)
    requires IsIpv4(ip)
    ensures Elsewhere(h, table, ip, None, if resolved.Some? then h.trim(resolved.value) else "",
                      Classify(h, table, ip, resolved))
  {
    SplitReads(ip, "0");
  }
}
