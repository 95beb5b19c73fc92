/**
The proxy configuration and the checks its certificates and routes have to pass
(crates/gaterust-proxy/src/config.rs). Domains and hosts are taken as already normalised.
*/
module ProxyConfigs {
  import opened Options
  import opened Domains
  import opened Routers

  datatype AcmeAccount = AcmeAccount(
    id: string, name: string, provider: string, environment: string, email: string, keyAlgorithm: string,
    eabKeyId: Option<string>, eabHmacKey: Option<string>)

  datatype DnsAccount = DnsAccount(
    id: string, name: string, provider: string,
    apiToken: Option<string>, accessKey: Option<string>, secretKey: Option<string>)

  datatype Validation = ByDnsAccount(dnsAccountId: string) | Manual

  datatype CertificateConfig = CertificateConfig(
    id: string, name: string, domains: seq<string>, acmeAccountId: string, validation: Option<Validation>,
    autoRenew: bool, migrationError: Option<string>)

  datatype ProxyConfig = ProxyConfig(
    cacheDir: string,
    acmeAccounts: seq<AcmeAccount>,
    dnsAccounts: seq<DnsAccount>,
    certificates: seq<CertificateConfig>,
    routes: seq<RouteConfig>)

  // ---- What a valid configuration is ----

  predicate NoRepeats<T(==)>(items: seq<T>) {
    forall i, j | 0 <= i < j < |items| :: items[i] != items[j]
  }

  predicate ValidationOk(c: CertificateConfig, dnsIds: set<string>) {
    match c.validation
    case Some(ByDnsAccount(id)) => id in dnsIds
    case Some(Manual) => !c.autoRenew
    case None => c.migrationError.Some? && !c.autoRenew
  }

  predicate CertificateOk(c: CertificateConfig, acmeIds: set<string>, dnsIds: set<string>) {
    && c.acmeAccountId in acmeIds
    && ValidationOk(c, dnsIds)
    && 1 <= |c.domains| <= 100
    && NoRepeats(c.domains)
  }

  predicate DomainsDisjoint(cs: seq<CertificateConfig>) {
    forall i, j | 0 <= i < j < |cs| :: forall domain <- cs[i].domains :: domain !in cs[j].domains
  }

  predicate IdsUnique(cs: seq<CertificateConfig>) {
    forall i, j | 0 <= i < j < |cs| :: cs[i].id != cs[j].id && cs[i].name != cs[j].name
  }

  predicate CertificatesOk(cs: seq<CertificateConfig>, acmeIds: set<string>, dnsIds: set<string>) {
    && (forall c <- cs :: CertificateOk(c, acmeIds, dnsIds))
    && IdsUnique(cs)
    && DomainsDisjoint(cs)
  }

  function CertificateIds(cs: seq<CertificateConfig>): set<string> {
    set c | c in cs :: c.id
  }

  function AcmeIds(c: ProxyConfig): set<string> {
    set account | account in c.acmeAccounts :: account.id
  }

  function DnsIds(c: ProxyConfig): set<string> {
    set account | account in c.dnsAccounts :: account.id
  }

  predicate RouteOk(route: RouteConfig, ids: set<string>, owners: map<string, string>) {
    match route.certificateId
    case None => true
    case Some(id) => id in ids && CertificateOf(owners, route.host) == Some(id)
  }

  predicate RouteNamesUnique(routes: seq<RouteConfig>) {
    forall i, j | 0 <= i < j < |routes| :: routes[i].name != routes[j].name
  }

  predicate Valid(c: ProxyConfig) {
    && |c.certificates| <= 256 && |c.routes| <= 4096
    && CertificatesOk(c.certificates, AcmeIds(c), DnsIds(c))
    && RouteNamesUnique(c.routes) && KeysUnique(c.routes)
    && forall route <- c.routes :: RouteOk(route, CertificateIds(c.certificates), DomainOwners(c.certificates))
  }

  // ---- Domain owners ----

  function AddDomains(owners: map<string, string>, domains: seq<string>, id: string): map<string, string> {
    if domains == [] then owners
    else AddDomains(owners, domains[..|domains| - 1], id)[domains[|domains| - 1] := id]
  }

  function DomainOwners(cs: seq<CertificateConfig>): map<string, string> {
    if cs == [] then map[]
    else AddDomains(DomainOwners(cs[..|cs| - 1]), cs[|cs| - 1].domains, cs[|cs| - 1].id)
  }

  /** The certificate that covers a host: by the host itself, else by the one wildcard that can. */
  function CertificateOf(owners: map<string, string>, host: string): Option<string> {
    if host in owners then Some(owners[host])
    else
      match AfterFirstDot(host)
      case None => None
      case Some(suffix) => Get(owners, "*." + suffix)
  }

  lemma {:induction false} AddDomainsFinds(owners: map<string, string>, domains: seq<string>, id: string)
    ensures forall domain :: domain in AddDomains(owners, domains, id) <==> domain in owners || domain in domains
    ensures forall domain <- AddDomains(owners, domains, id) ::
              AddDomains(owners, domains, id)[domain] == if domain in domains then id else owners[domain]
  {
    if domains != [] {
      AddDomainsFinds(owners, domains[..|domains| - 1], id);
      assert domains == domains[..|domains| - 1] + [domains[|domains| - 1]];
    }
  }

  /** Exactly the configured domains have an owner, and it is the certificate that lists them. */
  lemma {:induction false} DomainOwnersExact(cs: seq<CertificateConfig>)
    requires DomainsDisjoint(cs)
    ensures forall domain :: domain in DomainOwners(cs) <==> exists c <- cs :: domain in c.domains
    ensures forall c <- cs :: forall domain <- c.domains :: domain in DomainOwners(cs) && DomainOwners(cs)[domain] == c.id
  {
    if cs != [] {
      var init, last := cs[..|cs| - 1], cs[|cs| - 1];
      DomainOwnersExact(init);
      AddDomainsFinds(DomainOwners(init), last.domains, last.id);
      assert cs == init + [last];
      forall c, domain | c in cs && domain in c.domains ensures domain in DomainOwners(cs) && DomainOwners(cs)[domain] == c.id {
        if domain in last.domains {
          var i :| 0 <= i < |cs| && cs[i] == c;
        }
      }
    }
  }

  // ---- The code ----

  /** `certificate_for_host`: scans all domains for the longest wildcard that covers the host. */
  method CertificateForHost(owners: map<string, string>, host: string) returns (owner: Option<string>)
    ensures owner == CertificateOf(owners, host)
  {
    if host in owners {
      return Some(owners[host]);
    }
    owner := None;
    var best := 0;
    var left := owners.Keys;
    while left != {}
      invariant left <= owners.Keys
      invariant owner.Some? ==> owner == CertificateOf(owners, host)
      invariant owner.None? ==> best == 0 && forall domain <- owners | domain !in left :: !Covers(domain, host)
      decreases left
    {
      var domain :| domain in left;
      left := left - {domain};
      CoversExactly(domain, host);
      if Covers(domain, host) && (owner.None? || |domain| - 2 >= best) {
        owner, best := Some(owners[domain]), |domain| - 2;
      }
    }
    if owner.None? && CertificateOf(owners, host).Some? {
      CoversExactly("*." + AfterFirstDot(host).value, host);
    }
  }

  predicate Covers(domain: string, host: string) {
    StripStar(domain).Some? && WildcardMatches(host, StripStar(domain).value)
  }

  lemma CoversExactly(domain: string, host: string)
    ensures Covers(domain, host) <==> AfterFirstDot(host).Some? && domain == "*." + AfterFirstDot(host).value
  {
    if StripStar(domain).Some? {
      OnlyOneSuffixMatches(host, StripStar(domain).value);
      assert domain == "*." + StripStar(domain).value;
    }
    if AfterFirstDot(host).Some? {
      assert StripStar("*." + AfterFirstDot(host).value) == AfterFirstDot(host);
    }
  }

  /** The inner loop of `CertificateConfig::validate`. */
  method CheckDomains(c: CertificateConfig, owners: map<string, string>) returns (ok: bool, extended: map<string, string>)
    ensures ok <==> DomainsOk(c.domains, owners)
    ensures ok ==> extended == AddDomains(owners, c.domains, c.id)
  {
    extended := owners;
    var own: set<string> := {};
    for i := 0 to |c.domains|
      invariant forall domain :: domain in own <==> domain in c.domains[..i]
      invariant DomainsOk(c.domains[..i], owners)
      invariant extended == AddDomains(owners, c.domains[..i], c.id)
    {
      var domain := c.domains[i];
      DomainsStep(c.domains, i, owners);
      AddStep(owners, c.domains, i, c.id);
      if domain in own {
        return false, extended;
      }
      own := own + {domain};
      if domain in extended {
        return false, extended;
      }
      extended := extended[domain := c.id];
    }
    assert c.domains[..|c.domains|] == c.domains;
    return true, extended;
  }

  predicate DomainsOk(domains: seq<string>, owners: map<string, string>) {
    NoRepeats(domains) && forall domain <- domains :: domain !in owners
  }

  lemma AddStep(owners: map<string, string>, domains: seq<string>, i: nat, id: string)
    requires i < |domains|
    ensures var added := AddDomains(owners, domains[..i], id);
            && (domains[i] in added <==> domains[i] in owners || domains[i] in domains[..i])
            && AddDomains(owners, domains[..i + 1], id) == added[domains[i] := id]
  {
    AddDomainsFinds(owners, domains[..i], id);
    assert domains[..i + 1][..i] == domains[..i];
  }

  lemma DomainsStep(domains: seq<string>, i: nat, owners: map<string, string>)
    requires i < |domains| && DomainsOk(domains[..i], owners)
    ensures DomainsOk(domains[..i + 1], owners) <==> domains[i] !in domains[..i] && domains[i] !in owners
    ensures DomainsOk(domains, owners) ==> DomainsOk(domains[..i + 1], owners)
    ensures domains[..i + 1] == domains[..i] + [domains[i]]
  {
    if domains[i] in domains[..i] {
      var j :| 0 <= j < i && domains[..i][j] == domains[i];
      assert domains[..i + 1][j] == domains[..i + 1][i];
    }
    assert domains[i] == domains[..i + 1][i];
  }

  method CheckValidation(c: CertificateConfig, dnsIds: set<string>) returns (ok: bool)
    ensures ok <==> ValidationOk(c, dnsIds)
  {
    match c.validation {
      case Some(ByDnsAccount(id)) => ok := id in dnsIds;
      case Some(Manual) => ok := !c.autoRenew;
      case None => ok := c.migrationError.Some? && !c.autoRenew;
    }
  }

  method CheckCertificates(cs: seq<CertificateConfig>, acmeIds: set<string>, dnsIds: set<string>)
    returns (ok: bool, owners: map<string, string>)
    ensures ok <==> CertificatesOk(cs, acmeIds, dnsIds)
    ensures ok ==> owners == DomainOwners(cs)
  {
    owners := map[];
    var ids, names: set<string> := {}, {};
    for i := 0 to |cs|
      invariant ids == set j | 0 <= j < i :: cs[j].id
      invariant names == set j | 0 <= j < i :: cs[j].name
      invariant CertificatesOk(cs[..i], acmeIds, dnsIds)
      invariant owners == DomainOwners(cs[..i])
    {
      var c := cs[i];
      if c.id in ids || c.name in names {
        RepeatedId(cs, i);
        return false, owners;
      }
      ids, names := ids + {c.id}, names + {c.name};
      var validationOk := CheckValidation(c, dnsIds);
      if c.acmeAccountId !in acmeIds || !validationOk || |c.domains| == 0 || |c.domains| > 100 {
        BadCertificate(cs, i, acmeIds, dnsIds);
        return false, owners;
      }
      var domainsOk, extended := CheckDomains(c, owners);
      CertificatesStep(cs, i, acmeIds, dnsIds, owners);
      if !domainsOk {
        return false, owners;
      }
      owners := extended;
    }
    assert cs[..|cs|] == cs;
    return true, owners;
  }

  lemma RepeatedId(cs: seq<CertificateConfig>, i: nat)
    requires i < |cs| && exists j | 0 <= j < i :: cs[j].id == cs[i].id || cs[j].name == cs[i].name
    ensures !IdsUnique(cs)
  {
  }

  lemma BadCertificate(cs: seq<CertificateConfig>, i: nat, acmeIds: set<string>, dnsIds: set<string>)
    requires i < |cs| && !CertificateOk(cs[i], acmeIds, dnsIds)
    ensures !CertificatesOk(cs, acmeIds, dnsIds)
  {
    assert cs[i] in cs;
  }

  /** A domain that already has an owner belongs to an earlier certificate. */
  lemma TakenDomain(cs: seq<CertificateConfig>, i: nat, owners: map<string, string>)
    requires i < |cs| && DomainsDisjoint(cs[..i]) && owners == DomainOwners(cs[..i])
    requires !DomainsOk(cs[i].domains, owners)
    ensures !NoRepeats(cs[i].domains) || !DomainsDisjoint(cs)
  {
    if NoRepeats(cs[i].domains) {
      DomainOwnersExact(cs[..i]);
      var domain :| domain in cs[i].domains && domain in owners;
      var c :| c in cs[..i] && domain in c.domains;
      var j :| 0 <= j < i && cs[..i][j] == c;
      assert domain in cs[j].domains && domain in cs[i].domains;
    }
  }

  /** One more certificate, in order except perhaps for its domains: it is fine if and only if they
      are, and then the owner of each domain is known again. */
  lemma CertificatesStep(cs: seq<CertificateConfig>, i: nat, acmeIds: set<string>, dnsIds: set<string>, owners: map<string, string>)
    requires i < |cs| && CertificatesOk(cs[..i], acmeIds, dnsIds) && owners == DomainOwners(cs[..i])
    requires cs[i].acmeAccountId in acmeIds && ValidationOk(cs[i], dnsIds) && 1 <= |cs[i].domains| <= 100
    requires forall j | 0 <= j < i :: cs[j].id != cs[i].id && cs[j].name != cs[i].name
    ensures DomainsOk(cs[i].domains, owners) ==> CertificatesOk(cs[..i + 1], acmeIds, dnsIds)
    ensures !DomainsOk(cs[i].domains, owners) ==> !CertificatesOk(cs, acmeIds, dnsIds)
    ensures DomainOwners(cs[..i + 1]) == AddDomains(owners, cs[i].domains, cs[i].id)
  {
    assert cs[..i + 1][..i] == cs[..i];
    if DomainsOk(cs[i].domains, owners) {
      DisjointStep(cs, i, owners);
    } else {
      TakenDomain(cs, i, owners);
      if !NoRepeats(cs[i].domains) {
        BadCertificate(cs, i, acmeIds, dnsIds);
      }
    }
  }

  lemma DisjointStep(cs: seq<CertificateConfig>, i: nat, owners: map<string, string>)
    requires i < |cs| && DomainsDisjoint(cs[..i]) && owners == DomainOwners(cs[..i])
    requires forall domain <- cs[i].domains :: domain !in owners
    ensures DomainsDisjoint(cs[..i + 1])
  {
    DomainOwnersExact(cs[..i]);
    var next := cs[..i + 1];
    forall j, k | 0 <= j < k < |next| ensures forall domain <- next[j].domains :: domain !in next[k].domains {
      assert next[j] == cs[..i][j];
      if k < i {
        assert next[k] == cs[..i][k];
      } else {
        forall domain | domain in next[j].domains ensures domain !in next[k].domains {
          assert next[j] in cs[..i];
        }
      }
    }
  }

  predicate RoutesOk(routes: seq<RouteConfig>, ids: set<string>, owners: map<string, string>) {
    && RouteNamesUnique(routes) && KeysUnique(routes)
    && forall route <- routes :: RouteOk(route, ids, owners)
  }

  method CheckRoutes(routes: seq<RouteConfig>, ids: set<string>, owners: map<string, string>) returns (ok: bool)
    ensures ok <==> RoutesOk(routes, ids, owners)
  {
    var names: set<string> := {};
    var keys: set<(string, string)> := {};
    for i := 0 to |routes|
      invariant names == set j | 0 <= j < i :: routes[j].name
      invariant keys == set j | 0 <= j < i :: (routes[j].host, routes[j].pathPrefix)
      invariant RoutesOk(routes[..i], ids, owners)
    {
      var route := routes[i];
      if route.name in names {
        return false;
      }
      names := names + {route.name};
      if (route.host, route.pathPrefix) in keys {
        return false;
      }
      keys := keys + {(route.host, route.pathPrefix)};
      if route.certificateId.Some? {
        var covering := CertificateForHost(owners, route.host);
        if route.certificateId.value !in ids || covering != route.certificateId {
          assert route in routes && !RouteOk(route, ids, owners);
          return false;
        }
      }
      assert RouteOk(route, ids, owners);
      assert routes[..i + 1] == routes[..i] + [route];
    }
    assert routes[..|routes|] == routes;
    return true;
  }

  /** `ProxyConfig::validate`, certificates and routes: it accepts exactly the valid ones. */
  method Validate(c: ProxyConfig) returns (ok: bool)
    ensures ok <==> Valid(c)
  {
    if |c.certificates| > 256 || |c.routes| > 4096 {
      return false;
    }
    var owners;
    ok, owners := CheckCertificates(c.certificates, AcmeIds(c), DnsIds(c));
    if ok {
      ok := CheckRoutes(c.routes, CertificateIds(c.certificates), owners);
    }
  }
}
