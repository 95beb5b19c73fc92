/**
The index from host names to certificates that TLS handshakes use
(crates/gaterust-proxy/src/tls.rs), and how a configuration change rewrites it
(crates/gaterust-proxy/src/runtime.rs).
*/
module CertificateIndex {
  import opened Options
  import opened Domains
  import opened Routers
  import opened ProxyConfigs

  /** `resolver` is the identity of the certificate holder behind an entry. */
  datatype Entry = Entry(owner: string, resolver: nat)

  /** Exact domains by name, wildcard domains by suffix. */
  datatype Index = Index(exact: map<string, Entry>, wildcard: map<string, Entry>)

  function Remove(ix: Index, owner: string): Index {
    Index(map domain | domain in ix.exact && ix.exact[domain].owner != owner :: ix.exact[domain],
          map suffix | suffix in ix.wildcard && ix.wildcard[suffix].owner != owner :: ix.wildcard[suffix])
  }

  function Add(ix: Index, domain: string, entry: Entry): Index {
    match StripStar(domain)
    case Some(suffix) => ix.(wildcard := ix.wildcard[suffix := entry])
    case None => ix.(exact := ix.exact[domain := entry])
  }

  function AddAll(ix: Index, domains: seq<string>, entry: Entry): Index {
    if domains == [] then ix
    else Add(AddAll(ix, domains[..|domains| - 1], entry), domains[|domains| - 1], entry)
  }

  function ReplaceDirect(ix: Index, owner: string, domains: seq<string>, resolver: nat): Index {
    AddAll(Remove(ix, owner), domains, Entry(owner, resolver))
  }

  /** The holder a handshake for `host` is given. */
  function Resolve(ix: Index, host: string): Option<nat> {
    if host in ix.exact then Some(ix.exact[host].resolver)
    else
      match AfterFirstDot(host)
      case None => None
      case Some(suffix) => if suffix in ix.wildcard then Some(ix.wildcard[suffix].resolver) else None
  }

  /** The same operations in place. */
  class CertificateResolver {
    var exact: map<string, Entry>
    var wildcard: map<string, Entry>

    constructor ()
      ensures View() == Index(map[], map[])
    {
      exact, wildcard := map[], map[];
    }

    function View(): Index
      reads this
    {
      Index(exact, wildcard)
    }

    method RemoveOwner(owner: string)
      modifies this
      ensures View() == Remove(old(View()), owner)
    {
      exact := map domain | domain in exact && exact[domain].owner != owner :: exact[domain];
      wildcard := map suffix | suffix in wildcard && wildcard[suffix].owner != owner :: wildcard[suffix];
    }

    method ReplaceOwner(owner: string, domains: seq<string>, resolver: nat)
      modifies this
      ensures View() == ReplaceDirect(old(View()), owner, domains, resolver)
    {
      RemoveOwner(owner);
      ghost var cleared := View();
      for i := 0 to |domains|
        invariant View() == AddAll(cleared, domains[..i], Entry(owner, resolver))
      {
        match StripStar(domains[i]) {
          case Some(suffix) => wildcard := wildcard[suffix := Entry(owner, resolver)];
          case None => exact := exact[domains[i] := Entry(owner, resolver)];
        }
        assert domains[..i + 1][..i] == domains[..i];
      }
      assert domains[..|domains|] == domains;
    }

    /** `resolver_for`: scans all wildcards for the longest that covers the host. */
    method ResolverFor(host: string) returns (resolver: Option<nat>)
      ensures resolver == Resolve(View(), host)
    {
      if host in exact {
        return Some(exact[host].resolver);
      }
      resolver := None;
      var best := 0;
      var left := wildcard.Keys;
      while left != {}
        invariant left <= wildcard.Keys
        invariant resolver.Some? ==> resolver == Resolve(View(), host)
        invariant resolver.None? ==> forall suffix <- wildcard | suffix !in left :: !WildcardMatches(host, suffix)
        decreases left
      {
        var suffix :| suffix in left;
        left := left - {suffix};
        OnlyOneSuffixMatches(host, suffix);
        if WildcardMatches(host, suffix) && (resolver.None? || |suffix| >= best) {
          resolver, best := Some(wildcard[suffix].resolver), |suffix|;
        }
      }
      if AfterFirstDot(host).Some? {
        OnlyOneSuffixMatches(host, AfterFirstDot(host).value);
      }
    }
  }

  // ---- One domain at a time ----

  function At(ix: Index, domain: string): Option<Entry> {
    match StripStar(domain)
    case Some(suffix) => Get(ix.wildcard, suffix)
    case None => Get(ix.exact, domain)
  }

  function Surviving(entry: Option<Entry>, owner: string): Option<Entry> {
    if entry.Some? && entry.value.owner == owner then None else entry
  }

  lemma AddAt(ix: Index, added: string, entry: Entry, domain: string)
    ensures At(Add(ix, added, entry), domain) == if domain == added then Some(entry) else At(ix, domain)
  {
    if StripStar(added).Some? && StripStar(added) == StripStar(domain) {
      StripStarInjective(added, domain);
    }
  }

  lemma {:induction false} AddAllAt(ix: Index, domains: seq<string>, entry: Entry, domain: string)
    ensures At(AddAll(ix, domains, entry), domain) == if domain in domains then Some(entry) else At(ix, domain)
  {
    if domains != [] {
      var init, last := domains[..|domains| - 1], domains[|domains| - 1];
      AddAllAt(ix, init, entry, domain);
      AddAt(AddAll(ix, init, entry), last, entry, domain);
      assert domains == init + [last];
    }
  }

  lemma ReplaceAt(ix: Index, owner: string, domains: seq<string>, resolver: nat, domain: string)
    ensures At(ReplaceDirect(ix, owner, domains, resolver), domain)
         == if domain in domains then Some(Entry(owner, resolver)) else Surviving(At(ix, domain), owner)
  {
    AddAllAt(Remove(ix, owner), domains, Entry(owner, resolver), domain);
  }

  // ---- A configuration change ----

  /** Installs, in configuration order, the holders newly made for some of the certificates. */
  function Install(ix: Index, cs: seq<CertificateConfig>, made: map<string, nat>): Index {
    if cs == [] then ix
    else
      var before, c := Install(ix, cs[..|cs| - 1], made), cs[|cs| - 1];
      if c.id in made then ReplaceDirect(before, c.id, c.domains, made[c.id]) else before
  }

  /** No exact domain is written like a wildcard. */
  predicate Separate(ix: Index) {
    forall domain <- ix.exact :: StripStar(domain).None?
  }

  /** The index holds exactly the configured domains, each with its certificate's holder. */
  ghost predicate Matches(ix: Index, cs: seq<CertificateConfig>, resolvers: map<string, nat>) {
    && Separate(ix)
    && forall domain: string :: At(ix, domain) == Expected(cs, resolvers, domain)
  }

  function Expected(cs: seq<CertificateConfig>, resolvers: map<string, nat>, domain: string): Option<Entry> {
    var owners := DomainOwners(cs);
    if domain in owners && owners[domain] in resolvers then Some(Entry(owners[domain], resolvers[owners[domain]])) else None
  }

  /** Somebody of `cs` with a new holder lists the domain. */
  predicate Renewed(cs: seq<CertificateConfig>, made: map<string, nat>, domain: string) {
    exists c <- cs :: c.id in made && domain in c.domains
  }

  predicate RenewedId(cs: seq<CertificateConfig>, made: map<string, nat>, id: string) {
    id in made && exists c <- cs :: c.id == id
  }

  /** What installing does to one domain: a new holder that lists it wins; an old entry stays
      unless its certificate was renewed and does not list it any more. */
  lemma InstallAt(ix: Index, cs: seq<CertificateConfig>, made: map<string, nat>, domain: string)
    requires IdsUnique(cs) && DomainsDisjoint(cs)
    ensures var entry := At(Install(ix, cs, made), domain);
            && (forall c <- cs | c.id in made && domain in c.domains :: entry == Some(Entry(c.id, made[c.id])))
            && (!Renewed(cs, made, domain) ==>
                  entry == if At(ix, domain).Some? && RenewedId(cs, made, At(ix, domain).value.owner) then None else At(ix, domain))
  {
    forall c | c in cs && c.id in made && domain in c.domains
      ensures At(Install(ix, cs, made), domain) == Some(Entry(c.id, made[c.id]))
    {
      var k :| 0 <= k < |cs| && cs[k] == c;
      InstallNew(ix, cs, made, domain, k);
    }
    if !Renewed(cs, made, domain) {
      InstallOld(ix, cs, made, domain);
    }
  }

  lemma {:induction false} InstallNew(ix: Index, cs: seq<CertificateConfig>, made: map<string, nat>, domain: string, k: nat)
    requires IdsUnique(cs) && DomainsDisjoint(cs) && k < |cs| && cs[k].id in made && domain in cs[k].domains
    ensures At(Install(ix, cs, made), domain) == Some(Entry(cs[k].id, made[cs[k].id]))
  {
    var init, last := cs[..|cs| - 1], cs[|cs| - 1];
    if last.id in made {
      ReplaceAt(Install(ix, init, made), last.id, last.domains, made[last.id], domain);
    }
    if k < |init| {
      assert init[k] == cs[k] && last.id != cs[k].id && domain !in last.domains;
      InstallNew(ix, init, made, domain, k);
    }
  }

  lemma {:induction false} InstallOld(ix: Index, cs: seq<CertificateConfig>, made: map<string, nat>, domain: string)
    requires !Renewed(cs, made, domain)
    ensures At(Install(ix, cs, made), domain)
         == if At(ix, domain).Some? && RenewedId(cs, made, At(ix, domain).value.owner) then None else At(ix, domain)
  {
    if cs != [] {
      var init, last := cs[..|cs| - 1], cs[|cs| - 1];
      assert cs == init + [last] && !Renewed(init, made, domain);
      InstallOld(ix, init, made, domain);
      if last.id in made {
        assert domain !in last.domains;
        ReplaceAt(Install(ix, init, made), last.id, last.domains, made[last.id], domain);
      }
      assert forall id :: RenewedId(cs, made, id) <==> RenewedId(init, made, id) || (id == last.id && id in made);
    }
  }

  function RemoveAll(ix: Index, owners: set<string>): Index {
    Index(map domain | domain in ix.exact && ix.exact[domain].owner !in owners :: ix.exact[domain],
          map suffix | suffix in ix.wildcard && ix.wildcard[suffix].owner !in owners :: ix.wildcard[suffix])
  }

  /** The certificates of `next` whose domains are as in `current` keep their entries valid. */
  predicate Unchanged(current: seq<CertificateConfig>, c: CertificateConfig) {
    exists old' <- current :: old'.id == c.id && old'.domains == c.domains
  }

  lemma {:induction false} InstallSeparate(ix: Index, cs: seq<CertificateConfig>, made: map<string, nat>)
    requires Separate(ix)
    ensures Separate(Install(ix, cs, made))
  {
    if cs != [] {
      InstallSeparate(ix, cs[..|cs| - 1], made);
      var c := cs[|cs| - 1];
      if c.id in made {
        AddAllSeparate(Remove(Install(ix, cs[..|cs| - 1], made), c.id), c.domains, Entry(c.id, made[c.id]));
      }
    }
  }

  lemma {:induction false} AddAllSeparate(ix: Index, domains: seq<string>, entry: Entry)
    requires Separate(ix)
    ensures Separate(AddAll(ix, domains, entry))
  {
    if domains != [] {
      AddAllSeparate(ix, domains[..|domains| - 1], entry);
    }
  }

  /** The index follows the configuration through any change, whichever domains move between
      certificates and in whichever order the certificates are listed. */
  lemma ChangeKeepsMatch(ix: Index, current: seq<CertificateConfig>, resolvers: map<string, nat>,
                         next: seq<CertificateConfig>, made: map<string, nat>)
    requires Matches(ix, current, resolvers) && resolvers.Keys == CertificateIds(current)
    requires IdsUnique(current) && DomainsDisjoint(current) && IdsUnique(next) && DomainsDisjoint(next)
    requires made.Keys <= CertificateIds(next)
    requires forall c <- next | c.id !in made :: Unchanged(current, c)
    ensures var removed := resolvers.Keys - CertificateIds(next);
            Matches(Install(RemoveAll(ix, removed), next, made), next, (resolvers - removed) + made)
  {
    var removed := resolvers.Keys - CertificateIds(next);
    var cleared := RemoveAll(ix, removed);
    InstallSeparate(cleared, next, made);
    forall domain: string
      ensures At(Install(cleared, next, made), domain) == Expected(next, (resolvers - removed) + made, domain)
    {
      ChangeAt(ix, current, resolvers, next, made, domain);
    }
  }

  predicate Change(ix: Index, current: seq<CertificateConfig>, resolvers: map<string, nat>,
                   next: seq<CertificateConfig>, made: map<string, nat>, domain: string) {
    && At(ix, domain) == Expected(current, resolvers, domain) && resolvers.Keys == CertificateIds(current)
    && IdsUnique(current) && DomainsDisjoint(current) && IdsUnique(next) && DomainsDisjoint(next)
    && made.Keys <= CertificateIds(next)
    && forall c <- next | c.id !in made :: Unchanged(current, c)
  }

  lemma ChangeAt(ix: Index, current: seq<CertificateConfig>, resolvers: map<string, nat>,
                 next: seq<CertificateConfig>, made: map<string, nat>, domain: string)
    requires Change(ix, current, resolvers, next, made, domain)
    ensures var removed := resolvers.Keys - CertificateIds(next);
            At(Install(RemoveAll(ix, removed), next, made), domain) == Expected(next, (resolvers - removed) + made, domain)
  {
    DomainOwnersExact(next);
    if domain in DomainOwners(next) {
      var c :| c in next && domain in c.domains;
      ConfiguredDomain(ix, current, resolvers, next, made, domain, c);
    } else {
      UnconfiguredDomain(ix, current, resolvers, next, made, domain);
    }
  }

  lemma ConfiguredDomain(ix: Index, current: seq<CertificateConfig>, resolvers: map<string, nat>,
                         next: seq<CertificateConfig>, made: map<string, nat>, domain: string, c: CertificateConfig)
    requires Change(ix, current, resolvers, next, made, domain) && c in next && domain in c.domains
    ensures var removed := resolvers.Keys - CertificateIds(next);
            && c.id in (resolvers - removed) + made
            && At(Install(RemoveAll(ix, removed), next, made), domain) == Some(Entry(c.id, ((resolvers - removed) + made)[c.id]))
  {
    var removed := resolvers.Keys - CertificateIds(next);
    var cleared := RemoveAll(ix, removed);
    if c.id in made {
      InstallAt(cleared, next, made, domain);
    } else {
      KeptEntry(ix, current, resolvers, c, domain);
      assert c.id !in removed;
      UntouchedByInstall(cleared, next, made, c, domain);
    }
  }

  /** A certificate that did not change still has its entry. */
  lemma KeptEntry(ix: Index, current: seq<CertificateConfig>, resolvers: map<string, nat>, c: CertificateConfig, domain: string)
    requires At(ix, domain) == Expected(current, resolvers, domain) && resolvers.Keys == CertificateIds(current)
    requires DomainsDisjoint(current) && Unchanged(current, c) && domain in c.domains
    ensures c.id in resolvers && At(ix, domain) == Some(Entry(c.id, resolvers[c.id]))
  {
    DomainOwnersExact(current);
  }

  /** Installing other certificates does not touch the entry of one that did not change. */
  lemma UntouchedByInstall(ix: Index, cs: seq<CertificateConfig>, made: map<string, nat>, c: CertificateConfig, domain: string)
    requires IdsUnique(cs) && DomainsDisjoint(cs) && c in cs && c.id !in made && domain in c.domains
    requires At(ix, domain).Some? && At(ix, domain).value.owner == c.id
    ensures At(Install(ix, cs, made), domain) == At(ix, domain)
  {
    InstallAt(ix, cs, made, domain);
    if Renewed(cs, made, domain) {
      var other :| other in cs && other.id in made && domain in other.domains;
      SameDomainSameCertificate(cs, other, c, domain);
    }
  }

  lemma UnconfiguredDomain(ix: Index, current: seq<CertificateConfig>, resolvers: map<string, nat>,
                           next: seq<CertificateConfig>, made: map<string, nat>, domain: string)
    requires Change(ix, current, resolvers, next, made, domain) && forall c <- next :: domain !in c.domains
    ensures var removed := resolvers.Keys - CertificateIds(next);
            At(Install(RemoveAll(ix, removed), next, made), domain) == None
  {
    var removed := resolvers.Keys - CertificateIds(next);
    InstallAt(RemoveAll(ix, removed), next, made, domain);
    if At(ix, domain).Some? && At(ix, domain).value.owner !in removed {
      DroppedDomain(current, resolvers, next, made, domain, At(ix, domain).value.owner);
    }
  }

  /** A remaining certificate that lost a domain has a new holder. */
  lemma DroppedDomain(current: seq<CertificateConfig>, resolvers: map<string, nat>,
                      next: seq<CertificateConfig>, made: map<string, nat>, domain: string, owner: string)
    requires domain in DomainOwners(current) && DomainOwners(current)[domain] == owner
    requires IdsUnique(current) && DomainsDisjoint(current) && owner in CertificateIds(next)
    requires forall c <- next :: domain !in c.domains
    requires forall c <- next | c.id !in made :: Unchanged(current, c)
    ensures RenewedId(next, made, owner)
  {
    DomainOwnersExact(current);
    var was :| was in current && domain in was.domains;
    var c :| c in next && c.id == owner;
    forall kept | kept in current && kept.id == c.id ensures kept.domains != c.domains {
      SameIdSameCertificate(current, was, kept);
    }
    assert !Unchanged(current, c);
  }

  lemma SameDomainSameCertificate(cs: seq<CertificateConfig>, a: CertificateConfig, b: CertificateConfig, domain: string)
    requires DomainsDisjoint(cs) && a in cs && b in cs && domain in a.domains && domain in b.domains
    ensures a == b
  {
    var i :| 0 <= i < |cs| && cs[i] == a;
    var j :| 0 <= j < |cs| && cs[j] == b;
  }

  lemma SameIdSameCertificate(cs: seq<CertificateConfig>, a: CertificateConfig, b: CertificateConfig)
    requires IdsUnique(cs) && a in cs && b in cs && a.id == b.id
    ensures a == b
  {
    var i :| 0 <= i < |cs| && cs[i] == a;
    var j :| 0 <= j < |cs| && cs[j] == b;
  }

  // ---- What handshakes get ----

  /** A handshake for any host is given the holder of the certificate that the configuration
      assigns to that host, and none if it assigns none. */
  lemma ResolveFollowsConfig(ix: Index, cs: seq<CertificateConfig>, resolvers: map<string, nat>, host: string)
    requires Matches(ix, cs, resolvers) && DomainsDisjoint(cs) && CertificateIds(cs) <= resolvers.Keys
    ensures Resolve(ix, host) ==
              match CertificateOf(DomainOwners(cs), host)
              case None => None
              case Some(id) => if id in resolvers then Some(resolvers[id]) else None
  {
    DomainOwnersExact(cs);
    assert At(ix, host) == Expected(cs, resolvers, host);
    if AfterFirstDot(host).Some? {
      var star := "*." + AfterFirstDot(host).value;
      assert StripStar(star) == AfterFirstDot(host);
      assert At(ix, star) == Expected(cs, resolvers, star);
    }
    if StripStar(host).Some? {
      assert host == "*." + StripStar(host).value;
      assert AfterFirstDot(host) == StripStar(host) by {
        assert host[1..][0] == '.' && host[1..][1..] == host[2..];
      }
    }
  }

  /** A TLS route of a validated configuration is always served the certificate it names. */
  lemma RouteServedItsCertificate(ix: Index, config: ProxyConfig, resolvers: map<string, nat>, route: RouteConfig)
    requires Valid(config) && Matches(ix, config.certificates, resolvers)
    requires CertificateIds(config.certificates) <= resolvers.Keys
    requires route in config.routes && route.certificateId.Some?
    ensures route.certificateId.value in resolvers
    ensures Resolve(ix, route.host) == Some(resolvers[route.certificateId.value])
  {
    ResolveFollowsConfig(ix, config.certificates, resolvers, route.host);
  }
}
