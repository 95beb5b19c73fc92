/**
What TLS handshakes get while a configuration change is under way: the manager rewrites the index
one certificate at a time (crates/gaterust-proxy/src/runtime.rs, `apply_config`), and handshakes
read it in between.
*/
module CertificateHandover {
  import opened Options
  import opened Domains
  import opened ProxyConfigs
  import opened CertificateIndex

  /** The index when the certificates that disappear are gone and `i` certificates are installed. */
  function Partway(ix: Index, removed: set<string>, next: seq<CertificateConfig>, made: map<string, nat>, i: nat): Index
    requires i <= |next|
  {
    Install(RemoveAll(ix, removed), next[..i], made)
  }

  /** A change between valid configurations, with new holders for whatever is not as before. */
  ghost predicate Reconfigures(ix: Index, current: seq<CertificateConfig>, resolvers: map<string, nat>,
                               next: seq<CertificateConfig>, made: map<string, nat>) {
    && Matches(ix, current, resolvers) && resolvers.Keys == CertificateIds(current)
    && IdsUnique(current) && DomainsDisjoint(current) && IdsUnique(next) && DomainsDisjoint(next)
    && made.Keys <= CertificateIds(next)
    && (forall c <- next | c.id !in made :: Unchanged(current, c))
    && HoldersFresh(resolvers, made)
  }

  /** New holders are new, and nobody shares one. */
  predicate HoldersFresh(resolvers: map<string, nat>, made: map<string, nat>) {
    && (forall a <- resolvers, b <- resolvers | a != b :: resolvers[a] != resolvers[b])
    && (forall a <- made, b <- made | a != b :: made[a] != made[b])
    && (forall a <- resolvers, b <- made :: resolvers[a] != made[b])
  }

  // ---- One domain at one moment ----

  /** One of the first `i` certificates has a new holder and lists the domain. */
  predicate Taken(next: seq<CertificateConfig>, made: map<string, nat>, domain: string, i: nat) {
    exists c | 0 <= c < i <= |next| :: next[c].id in made && domain in next[c].domains
  }

  /** The owner's old entries are gone after `i` installations. */
  predicate Dropped(removed: set<string>, next: seq<CertificateConfig>, made: map<string, nat>, owner: string, i: nat) {
    owner in removed || exists c | 0 <= c < i <= |next| :: next[c].id in made && next[c].id == owner
  }

  lemma RemoveAllAt(ix: Index, owners: set<string>, domain: string)
    ensures At(RemoveAll(ix, owners), domain)
         == if At(ix, domain).Some? && At(ix, domain).value.owner in owners then None else At(ix, domain)
  {
  }

  /** The entry of a domain after `i` installations. */
  lemma PartwayAt(ix: Index, removed: set<string>, next: seq<CertificateConfig>, made: map<string, nat>, domain: string, i: nat)
    requires IdsUnique(next) && DomainsDisjoint(next) && i <= |next|
    ensures var entry := At(Partway(ix, removed, next, made, i), domain);
            && (forall c | 0 <= c < i && next[c].id in made && domain in next[c].domains ::
                  entry == Some(Entry(next[c].id, made[next[c].id])))
            && (!Taken(next, made, domain, i) ==>
                  entry == if At(ix, domain).Some? && Dropped(removed, next, made, At(ix, domain).value.owner, i) then None
                           else At(ix, domain))
  {
    var done := next[..i];
    assert forall c | 0 <= c < i :: done[c] == next[c];
    InstallAt(RemoveAll(ix, removed), done, made, domain);
    RemoveAllAt(ix, removed, domain);
    SeenFrom(next, made, i);
    forall c | 0 <= c < i && next[c].id in made && domain in next[c].domains
      ensures At(Partway(ix, removed, next, made, i), domain) == Some(Entry(next[c].id, made[next[c].id]))
    {
      assert done[c] in done;
    }
  }

  lemma SeenFrom(next: seq<CertificateConfig>, made: map<string, nat>, i: nat)
    requires i <= |next|
    ensures forall domain: string :: Renewed(next[..i], made, domain) <==> Taken(next, made, domain, i)
    ensures forall owner: string :: RenewedId(next[..i], made, owner) <==> Dropped({}, next, made, owner, i)
  {
    var done := next[..i];
    assert forall c | 0 <= c < i :: done[c] == next[c];
    forall domain: string ensures Renewed(done, made, domain) <==> Taken(next, made, domain, i) {
      if c :| 0 <= c < i && next[c].id in made && domain in next[c].domains {
        assert done[c] in done;
      }
    }
    forall owner: string ensures RenewedId(done, made, owner) <==> Dropped({}, next, made, owner, i) {
      if c :| 0 <= c < i && next[c].id in made && next[c].id == owner {
        assert done[c] in done;
      }
    }
  }

  // ---- What a handshake gets at one moment ----

  function Star(host: string): Option<string> {
    match AfterFirstDot(host)
    case Some(suffix) => Some("*." + suffix)
    case None => None
  }

  function HolderIn(entry: Option<Entry>): Option<nat> {
    match entry
    case Some(e) => Some(e.resolver)
    case None => None
  }

  /** A handshake gets the host's own entry, else that of the one wildcard that covers the host. */
  lemma ResolveAt(ix: Index, host: string)
    requires Separate(ix)
    ensures Resolve(ix, host) ==
              if At(ix, host).Some? then HolderIn(At(ix, host))
              else if Star(host).Some? then HolderIn(At(ix, Star(host).value)) else None
  {
    if Star(host).Some? {
      assert StripStar(Star(host).value) == AfterFirstDot(host);
    }
    if StripStar(host).Some? {
      assert AfterFirstDot(host) == StripStar(host) by {
        assert host[1..][0] == '.' && host[1..][1..] == host[2..];
      }
    }
  }

  lemma PartwaySeparate(ix: Index, removed: set<string>, next: seq<CertificateConfig>, made: map<string, nat>, i: nat)
    requires Separate(ix) && i <= |next|
    ensures Separate(Partway(ix, removed, next, made, i))
  {
    InstallSeparate(RemoveAll(ix, removed), next[..i], made);
  }

  /** The configured domain through which a host is served, and the certificate that lists it. */
  predicate Through(cs: seq<CertificateConfig>, host: string, domain: string, c: CertificateConfig) {
    && c in cs && domain in c.domains
    && (domain == host || (Star(host) == Some(domain) && forall other <- cs :: host !in other.domains))
  }

  /** `Through` is the assignment of `certificate_for_host`. */
  lemma ThroughExactly(cs: seq<CertificateConfig>, host: string, id: string)
    requires DomainsDisjoint(cs)
    ensures CertificateOf(DomainOwners(cs), host) == Some(id) <==> exists c, domain :: Through(cs, host, domain, c) && c.id == id
  {
    DomainOwnersExact(cs);
    var owners := DomainOwners(cs);
    if CertificateOf(owners, host) == Some(id) {
      var domain := if host in owners then host else Star(host).value;
      var c :| c in cs && domain in c.domains;
      assert Through(cs, host, domain, c);
    }
  }

  /** A host is served before the change by `was` and after it by the certificate at `b`. */
  ghost predicate Handover(ix: Index, current: seq<CertificateConfig>, resolvers: map<string, nat>,
                           next: seq<CertificateConfig>, made: map<string, nat>,
                           host: string, was: CertificateConfig, domain: string, b: nat, domain': string) {
    && Reconfigures(ix, current, resolvers, next, made)
    && Through(current, host, domain, was)
    && b < |next| && Through(next, host, domain', next[b])
  }

  /** The old entry is neither dropped nor overwritten before the new certificate is installed. */
  predicate OutlastsChange(removed: set<string>, next: seq<CertificateConfig>, made: map<string, nat>,
                           owner: string, domain: string, b: nat) {
    !Dropped(removed, next, made, owner, b) && !Taken(next, made, domain, b)
  }

  /** The holder a certificate has after the change. */
  function NewHolder(resolvers: map<string, nat>, made: map<string, nat>, id: string): Option<nat> {
    if id in made then Some(made[id]) else Get(resolvers, id)
  }

  lemma OldEntry(ix: Index, current: seq<CertificateConfig>, resolvers: map<string, nat>, c: CertificateConfig, domain: string)
    requires Matches(ix, current, resolvers) && resolvers.Keys == CertificateIds(current) && DomainsDisjoint(current)
    requires c in current && domain in c.domains
    ensures c.id in resolvers && At(ix, domain) == Some(Entry(c.id, resolvers[c.id]))
  {
    DomainOwnersExact(current);
    assert At(ix, domain) == Expected(current, resolvers, domain);
  }

  lemma NoEntry(ix: Index, current: seq<CertificateConfig>, resolvers: map<string, nat>, domain: string)
    requires Matches(ix, current, resolvers) && DomainsDisjoint(current) && forall c <- current :: domain !in c.domains
    ensures At(ix, domain) == None
  {
    DomainOwnersExact(current);
    assert At(ix, domain) == Expected(current, resolvers, domain);
  }

  /** Before its installation a certificate with a new holder takes no domain. */
  lemma NotTakenYet(next: seq<CertificateConfig>, made: map<string, nat>, domain: string, b: nat, i: nat)
    requires DomainsDisjoint(next) && b < |next| && domain in next[b].domains && (i <= b || next[b].id !in made)
    ensures !Taken(next, made, domain, i)
  {
    forall c | 0 <= c < i <= |next| && next[c].id in made ensures domain !in next[c].domains {
      assert c < b || b < c;
    }
  }

  /** Until the old entry is dropped or overwritten, the handshake gets the old holder. */
  lemma OldHolderServes(ix: Index, current: seq<CertificateConfig>, resolvers: map<string, nat>,
                        next: seq<CertificateConfig>, made: map<string, nat>,
                        host: string, was: CertificateConfig, domain: string, b: nat, domain': string, i: nat)
    requires Handover(ix, current, resolvers, next, made, host, was, domain, b, domain') && i <= b
    requires OutlastsChange(resolvers.Keys - CertificateIds(next), next, made, was.id, domain, i)
    ensures was.id in resolvers
    ensures Resolve(Partway(ix, resolvers.Keys - CertificateIds(next), next, made, i), host) == Some(resolvers[was.id])
  {
    var removed := resolvers.Keys - CertificateIds(next);
    OldEntry(ix, current, resolvers, was, domain);
    PartwayAt(ix, removed, next, made, domain, i);
    PartwaySeparate(ix, removed, next, made, i);
    ResolveAt(Partway(ix, removed, next, made, i), host);
    if domain != host {
      NoEntry(ix, current, resolvers, host);
      HostNotTaken(next, made, host, b, domain', i);
      PartwayAt(ix, removed, next, made, host, i);
    }
  }

  lemma HostNotTaken(next: seq<CertificateConfig>, made: map<string, nat>, host: string, b: nat, domain': string, i: nat)
    requires DomainsDisjoint(next) && b < |next| && Through(next, host, domain', next[b])
    requires i <= b || next[b].id !in made || domain' != host
    ensures !Taken(next, made, host, i)
  {
    if domain' == host {
      NotTakenYet(next, made, host, b, i);
    }
  }

  /** Once the new certificate is installed, or if it is not installed anew, the handshake gets its
      holder, or still the old one. */
  lemma NewHolderServes(ix: Index, current: seq<CertificateConfig>, resolvers: map<string, nat>,
                        next: seq<CertificateConfig>, made: map<string, nat>,
                        host: string, was: CertificateConfig, domain: string, b: nat, domain': string, i: nat)
    requires Handover(ix, current, resolvers, next, made, host, was, domain, b, domain') && i <= |next|
    requires next[b].id !in made || b < i
    ensures was.id in resolvers
    ensures var holder := Resolve(Partway(ix, resolvers.Keys - CertificateIds(next), next, made, i), host);
            holder == NewHolder(resolvers, made, next[b].id) || holder == Some(resolvers[was.id])
  {
    var removed := resolvers.Keys - CertificateIds(next);
    OldEntry(ix, current, resolvers, was, domain);
    InstalledEntry(ix, current, resolvers, next, made, b, domain', i);
    PartwaySeparate(ix, removed, next, made, i);
    ResolveAt(Partway(ix, removed, next, made, i), host);
    if domain' != host {
      HostNotTaken(next, made, host, b, domain', i);
      PartwayAt(ix, removed, next, made, host, i);
      if domain != host {
        NoEntry(ix, current, resolvers, host);
      }
    }
  }

  lemma InstalledEntry(ix: Index, current: seq<CertificateConfig>, resolvers: map<string, nat>,
                       next: seq<CertificateConfig>, made: map<string, nat>, b: nat, domain: string, i: nat)
    requires Reconfigures(ix, current, resolvers, next, made) && b < |next| && domain in next[b].domains && i <= |next|
    requires next[b].id !in made || b < i
    ensures HolderIn(At(Partway(ix, resolvers.Keys - CertificateIds(next), next, made, i), domain))
         == NewHolder(resolvers, made, next[b].id)
  {
    var removed := resolvers.Keys - CertificateIds(next);
    PartwayAt(ix, removed, next, made, domain, i);
    if next[b].id !in made {
      assert next[b] in next && Unchanged(current, next[b]);
      var kept :| kept in current && kept.id == next[b].id && kept.domains == next[b].domains;
      OldEntry(ix, current, resolvers, kept, domain);
      NotTakenYet(next, made, domain, b, i);
    }
  }

  /** Whatever an entry holds partway is the new holder of an installed certificate or the old
      holder of one whose entries are not dropped. */
  lemma HolderOrigin(ix: Index, current: seq<CertificateConfig>, resolvers: map<string, nat>,
                     next: seq<CertificateConfig>, made: map<string, nat>, domain: string, i: nat)
    requires Reconfigures(ix, current, resolvers, next, made) && i <= |next|
    ensures var removed := resolvers.Keys - CertificateIds(next);
            var entry := At(Partway(ix, removed, next, made, i), domain);
            entry.Some? ==>
              || (exists c | 0 <= c < i :: next[c].id in made && entry.value.resolver == made[next[c].id])
              || (&& !Taken(next, made, domain, i) && entry == At(ix, domain) && entry.value.owner in resolvers
                  && entry.value.resolver == resolvers[entry.value.owner]
                  && !Dropped(removed, next, made, entry.value.owner, i))
  {
    var removed := resolvers.Keys - CertificateIds(next);
    PartwayAt(ix, removed, next, made, domain, i);
    if Taken(next, made, domain, i) {
      var c :| 0 <= c < i && next[c].id in made && domain in next[c].domains;
    } else {
      assert At(ix, domain) == Expected(current, resolvers, domain);
    }
  }

  /** The entry holds neither what the host had nor what it is to get. */
  predicate HoldsOther(entry: Option<Entry>, old': Option<nat>, new': Option<nat>) {
    entry.Some? ==> HolderIn(entry) != old' && HolderIn(entry) != new'
  }

  /** Once the old entry is dropped or overwritten and before the new certificate is installed,
      none of the two entries that count for the host has the right holder. */
  lemma OtherHolder(ix: Index, current: seq<CertificateConfig>, resolvers: map<string, nat>,
                    next: seq<CertificateConfig>, made: map<string, nat>,
                    was: CertificateConfig, domain: string, b: nat, i: nat, other: string)
    requires Reconfigures(ix, current, resolvers, next, made) && was in current && domain in was.domains
    requires b < |next| && next[b].id in made && i <= b
    requires !OutlastsChange(resolvers.Keys - CertificateIds(next), next, made, was.id, domain, i)
    requires other == domain || At(ix, other) == None || At(ix, other).value.owner != was.id
             || Dropped(resolvers.Keys - CertificateIds(next), next, made, was.id, i)
    ensures HoldsOther(At(Partway(ix, resolvers.Keys - CertificateIds(next), next, made, i), other),
                       Get(resolvers, was.id), Some(made[next[b].id]))
  {
    var removed := resolvers.Keys - CertificateIds(next);
    OldEntry(ix, current, resolvers, was, domain);
    HolderOrigin(ix, current, resolvers, next, made, other, i);
    var entry := At(Partway(ix, removed, next, made, i), other);
    if entry.Some? {
      if c :| 0 <= c < i && next[c].id in made && entry.value.resolver == made[next[c].id] {
        assert next[c].id != next[b].id;
      } else {
        assert entry.value.owner != was.id;
      }
    }
  }

  /** In that time the handshake gets neither the old nor the new holder: nothing, or the
      certificate of somebody else whose wildcard covers the host. */
  lemma Interrupted(ix: Index, current: seq<CertificateConfig>, resolvers: map<string, nat>,
                    next: seq<CertificateConfig>, made: map<string, nat>,
                    host: string, was: CertificateConfig, domain: string, b: nat, domain': string, i: nat)
    requires Handover(ix, current, resolvers, next, made, host, was, domain, b, domain') && next[b].id in made && i <= b
    requires !OutlastsChange(resolvers.Keys - CertificateIds(next), next, made, was.id, domain, i)
    ensures var holder := Resolve(Partway(ix, resolvers.Keys - CertificateIds(next), next, made, i), host);
            was.id in resolvers && holder != Some(resolvers[was.id]) && holder != Some(made[next[b].id])
  {
    var removed := resolvers.Keys - CertificateIds(next);
    var now := Partway(ix, removed, next, made, i);
    OldEntry(ix, current, resolvers, was, domain);
    PartwaySeparate(ix, removed, next, made, i);
    ResolveAt(now, host);
    if domain != host {
      NoEntry(ix, current, resolvers, host);
    }
    OtherHolder(ix, current, resolvers, next, made, was, domain, b, i, host);
    if At(now, host).None? && Star(host).Some? {
      if domain == host && !Dropped(removed, next, made, was.id, i) {
        PartwayAt(ix, removed, next, made, host, i);
        assert false;
      }
      OtherHolder(ix, current, resolvers, next, made, was, domain, b, i, Star(host).value);
    }
  }

  // ---- The whole change ----

  /** At every moment of the change a handshake for the host gets what it got before or what it
      will get afterwards. */
  predicate Uninterrupted(ix: Index, resolvers: map<string, nat>, next: seq<CertificateConfig>, made: map<string, nat>,
                          host: string, was: string, id: string) {
    forall i | 0 <= i <= |next| ::
      var holder := Resolve(Partway(ix, resolvers.Keys - CertificateIds(next), next, made, i), host);
      holder == Get(resolvers, was) || holder == NewHolder(resolvers, made, id)
  }

  /** For every host that is served before and after a change: handshakes are served throughout if
      and only if its new certificate is not installed anew, or its old entry is neither dropped
      nor overwritten by a certificate listed before the new one. */
  lemma UninterruptedExactly(ix: Index, current: seq<CertificateConfig>, resolvers: map<string, nat>,
                             next: seq<CertificateConfig>, made: map<string, nat>,
                             host: string, was: CertificateConfig, domain: string, b: nat, domain': string)
    requires Handover(ix, current, resolvers, next, made, host, was, domain, b, domain')
    ensures Uninterrupted(ix, resolvers, next, made, host, was.id, next[b].id) <==>
              || next[b].id !in made
              || OutlastsChange(resolvers.Keys - CertificateIds(next), next, made, was.id, domain, b)
  {
    var removed := resolvers.Keys - CertificateIds(next);
    if next[b].id !in made || OutlastsChange(removed, next, made, was.id, domain, b) {
      forall i | 0 <= i <= |next|
        ensures var holder := Resolve(Partway(ix, removed, next, made, i), host);
                holder == Get(resolvers, was.id) || holder == NewHolder(resolvers, made, next[b].id)
      {
        if next[b].id !in made || b < i {
          NewHolderServes(ix, current, resolvers, next, made, host, was, domain, b, domain', i);
        } else {
          OldHolderServes(ix, current, resolvers, next, made, host, was, domain, b, domain', i);
        }
      }
    } else {
      Interrupted(ix, current, resolvers, next, made, host, was, domain, b, domain', b);
    }
  }

  /** The owner is listed after position `b`. */
  predicate ListedAfter(next: seq<CertificateConfig>, owner: string, b: nat) {
    exists a | b < a < |next| :: next[a].id == owner
  }

  /** In particular, for a host that one and the same domain serves before and after: throughout if
      and only if the domain stays with its certificate or moves to one listed before its old one,
      which must remain configured. */
  lemma NoGapExactly(ix: Index, current: seq<CertificateConfig>, resolvers: map<string, nat>,
                     next: seq<CertificateConfig>, made: map<string, nat>,
                     host: string, was: CertificateConfig, domain: string, b: nat)
    requires Handover(ix, current, resolvers, next, made, host, was, domain, b, domain)
    ensures Uninterrupted(ix, resolvers, next, made, host, was.id, next[b].id) <==>
              next[b].id == was.id || ListedAfter(next, was.id, b)
  {
    UninterruptedExactly(ix, current, resolvers, next, made, host, was, domain, b, domain);
    NotTakenYet(next, made, domain, b, b);
    OldEntry(ix, current, resolvers, was, domain);
    if next[b].id != was.id {
      MovedIsRenewed(current, next, made, domain, was, b);
      if was.id in CertificateIds(next) {
        var c :| c in next && c.id == was.id;
        var a :| 0 <= a < |next| && next[a] == c;
        assert next[a].id in made && a != b;
      }
    }
  }

  /** So the promise that the old certificate serves until it is replaced is broken whenever a
      domain moves from the first of two certificates to the second: between the two installations
      a handshake gets neither the old nor the new one. */
  lemma MovingLaterLeavesGap(ix: Index, current: seq<CertificateConfig>, resolvers: map<string, nat>,
                             a: CertificateConfig, b: CertificateConfig, made: map<string, nat>,
                             host: string, was: CertificateConfig, domain: string)
    requires Handover(ix, current, resolvers, [a, b], made, host, was, domain, 1, domain) && was.id == a.id
    ensures var removed := resolvers.Keys - CertificateIds([a, b]);
            && a.id in resolvers && b.id in made
            && Resolve(Partway(ix, removed, [a, b], made, 0), host) == Some(resolvers[a.id])
            && Resolve(Partway(ix, removed, [a, b], made, 1), host) != Some(resolvers[a.id])
            && Resolve(Partway(ix, removed, [a, b], made, 1), host) != Some(made[b.id])
            && Resolve(Partway(ix, removed, [a, b], made, 2), host) == Some(made[b.id])
  {
    var next := [a, b];
    var removed := resolvers.Keys - CertificateIds(next);
    assert next[0] == a && next[1] == b && a in next;
    MovedIsRenewed(current, next, made, domain, was, 1);
    OldHolderServes(ix, current, resolvers, next, made, host, was, domain, 1, domain, 0);
    assert Dropped(removed, next, made, was.id, 1);
    Interrupted(ix, current, resolvers, next, made, host, was, domain, 1, domain, 1);
    NewHolderAtLast(ix, current, resolvers, next, made, host, was, domain, 1, domain, 2);
  }

  /** And this happens: any two certificates between which a domain moves are such a case, from the
      index that was built for them. */
  lemma MovingLaterHappens(a: CertificateConfig, b: CertificateConfig, a': CertificateConfig, b': CertificateConfig, domain: string)
    requires IdsUnique([a, b]) && DomainsDisjoint([a, b]) && IdsUnique([a', b']) && DomainsDisjoint([a', b'])
    requires a'.id == a.id && b'.id == b.id && domain in a.domains && domain in b'.domains
    ensures var resolvers, made := map[a.id := 0, b.id := 1], map[a.id := 2, b.id := 3];
            var ix := Install(Index(map[], map[]), [a, b], resolvers);
            Handover(ix, [a, b], resolvers, [a', b'], made, domain, a, domain, 1, domain)
  {
    var resolvers, made := map[a.id := 0, b.id := 1], map[a.id := 2, b.id := 3];
    var current, next := [a, b], [a', b'];
    assert current[0] == a && current[1] == b && a.id != b.id && next[1] == b' && a in current && b' in next;
    IdsOfTwo(a, b);
    IdsOfTwo(a', b');
    BuiltMatches(current, resolvers);
    assert Through(current, domain, domain, a) && Through(next, domain, domain, next[1]);
  }

  /** The index built from nothing matches. */
  lemma BuiltMatches(cs: seq<CertificateConfig>, resolvers: map<string, nat>)
    requires IdsUnique(cs) && DomainsDisjoint(cs) && resolvers.Keys == CertificateIds(cs)
    ensures Matches(Install(Index(map[], map[]), cs, resolvers), cs, resolvers)
  {
    var empty := Index(map[], map[]);
    assert RemoveAll(empty, {}) == empty && map[] - {} + resolvers == resolvers;
    assert Matches(empty, [], map[]);
    ChangeKeepsMatch(empty, [], map[], cs, resolvers);
  }

  lemma IdsOfTwo(a: CertificateConfig, b: CertificateConfig)
    ensures CertificateIds([a, b]) == {a.id, b.id}
  {
    assert [a, b][0] == a && [a, b][1] == b;
  }

  /** When the old owner's entries are dropped and the new certificate is installed, the handshake
      gets the new holder. */
  lemma NewHolderAtLast(ix: Index, current: seq<CertificateConfig>, resolvers: map<string, nat>,
                        next: seq<CertificateConfig>, made: map<string, nat>,
                        host: string, was: CertificateConfig, domain: string, b: nat, domain': string, i: nat)
    requires Handover(ix, current, resolvers, next, made, host, was, domain, b, domain') && b < i <= |next| && next[b].id in made
    requires Dropped(resolvers.Keys - CertificateIds(next), next, made, was.id, i)
    ensures Resolve(Partway(ix, resolvers.Keys - CertificateIds(next), next, made, i), host) == Some(made[next[b].id])
  {
    var removed := resolvers.Keys - CertificateIds(next);
    InstalledEntry(ix, current, resolvers, next, made, b, domain', i);
    PartwaySeparate(ix, removed, next, made, i);
    ResolveAt(Partway(ix, removed, next, made, i), host);
    if domain' != host {
      HostNotTaken(next, made, host, b, domain', i);
      PartwayAt(ix, removed, next, made, host, i);
      if domain == host {
        OldEntry(ix, current, resolvers, was, domain);
      } else {
        NoEntry(ix, current, resolvers, host);
      }
    }
  }

  /** A domain that moves between certificates gives both of them new holders. */
  lemma MovedIsRenewed(current: seq<CertificateConfig>, next: seq<CertificateConfig>, made: map<string, nat>, domain: string,
                       was: CertificateConfig, b: nat)
    requires IdsUnique(current) && DomainsDisjoint(current) && DomainsDisjoint(next) && was in current && domain in was.domains
    requires b < |next| && domain in next[b].domains && next[b].id != was.id
    requires forall c <- next | c.id !in made :: Unchanged(current, c)
    ensures next[b].id in made && forall c <- next | c.id == was.id :: c.id in made
  {
    forall kept | kept in current && kept.domains == next[b].domains ensures kept.id != next[b].id {
      SameDomainSameCertificate(current, kept, was, domain);
    }
    assert !Unchanged(current, next[b]);
    forall c | c in next && c.id == was.id ensures c.id in made {
      forall kept | kept in current && kept.id == c.id ensures kept.domains != c.domains {
        SameIdSameCertificate(current, kept, was);
        if domain in c.domains {
          SameDomainSameCertificate(next, c, next[b], domain);
        }
      }
      assert !Unchanged(current, c);
    }
  }
}
