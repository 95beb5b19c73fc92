/**
Switching to another configuration keeps the certificate manager's invariant
(crates/gaterust-proxy/src/runtime.rs, `apply_config`).
*/
module CertificateSwitch {
  import opened Options
  import opened ProxyConfigs
  import opened CertificateRequests
  import opened CertificateIndex
  import opened CertificateState
  import opened CertificateInvariants

  // ---- New holders and statuses ----

  lemma MadeExactly(cs: seq<CertificateConfig>, reload: set<string>, next: nat)
    requires IdsUnique(cs)
    ensures Made(cs, reload, next).Keys == reload * CertificateIds(cs)
    ensures forall i | 0 <= i < |cs| && cs[i].id in reload :: Get(Made(cs, reload, next), cs[i].id) == Some(next + i)
  {
    MadeKeys(cs, reload, next);
    forall i | 0 <= i < |cs| && cs[i].id in reload ensures Get(Made(cs, reload, next), cs[i].id) == Some(next + i) {
      MadeValue(cs, reload, next, i);
    }
  }

  lemma {:induction false} MadeKeys(cs: seq<CertificateConfig>, reload: set<string>, next: nat)
    ensures Made(cs, reload, next).Keys == reload * CertificateIds(cs)
  {
    if cs != [] {
      MadeKeys(cs[..|cs| - 1], reload, next);
      IdsOfLast(cs);
    }
  }

  lemma {:induction false} MadeValue(cs: seq<CertificateConfig>, reload: set<string>, next: nat, i: nat)
    requires IdsUnique(cs) && i < |cs| && cs[i].id in reload
    ensures Get(Made(cs, reload, next), cs[i].id) == Some(next + i)
  {
    if i < |cs| - 1 {
      assert cs[..|cs| - 1][i] == cs[i] && cs[i].id != cs[|cs| - 1].id;
      MadeValue(cs[..|cs| - 1], reload, next, i);
    }
  }

  lemma IdsOfLast(cs: seq<CertificateConfig>)
    requires cs != []
    ensures CertificateIds(cs) == CertificateIds(cs[..|cs| - 1]) + {cs[|cs| - 1].id}
  {
    assert cs == cs[..|cs| - 1] + [cs[|cs| - 1]];
  }

  lemma LoadedExactly(cs: seq<CertificateConfig>, reload: set<string>, cache: map<string, Cached>)
    requires IdsUnique(cs)
    ensures Loaded(cs, reload, cache).Keys == reload * CertificateIds(cs)
    ensures forall i | 0 <= i < |cs| && cs[i].id in reload ::
              Get(Loaded(cs, reload, cache), cs[i].id) == Some(LoadedStatus(cs[i], CachedFor(cache, cs[i].id)))
  {
    LoadedKeys(cs, reload, cache);
    forall i | 0 <= i < |cs| && cs[i].id in reload
      ensures Get(Loaded(cs, reload, cache), cs[i].id) == Some(LoadedStatus(cs[i], CachedFor(cache, cs[i].id)))
    {
      LoadedValue(cs, reload, cache, i);
    }
  }

  lemma {:induction false} LoadedKeys(cs: seq<CertificateConfig>, reload: set<string>, cache: map<string, Cached>)
    ensures Loaded(cs, reload, cache).Keys == reload * CertificateIds(cs)
  {
    if cs != [] {
      LoadedKeys(cs[..|cs| - 1], reload, cache);
      IdsOfLast(cs);
    }
  }

  lemma {:induction false} LoadedValue(cs: seq<CertificateConfig>, reload: set<string>, cache: map<string, Cached>, i: nat)
    requires IdsUnique(cs) && i < |cs| && cs[i].id in reload
    ensures Get(Loaded(cs, reload, cache), cs[i].id) == Some(LoadedStatus(cs[i], CachedFor(cache, cs[i].id)))
  {
    if i < |cs| - 1 {
      assert cs[..|cs| - 1][i] == cs[i] && cs[i].id != cs[|cs| - 1].id;
      LoadedValue(cs[..|cs| - 1], reload, cache, i);
    }
  }

  lemma {:induction false} FilledExactly(cs: seq<CertificateConfig>, reload: set<string>, next: nat, cache: map<string, Cached>)
    ensures forall h <- Filled(cs, reload, next, cache) :: next <= h < next + |cs| && cs[h - next].id in reload
    ensures forall i | 0 <= i < |cs| && cs[i].id in reload ::
              Get(Filled(cs, reload, next, cache), next + i) == if Usable(CachedFor(cache, cs[i].id)) then Some(cs[i].domains) else None
  {
    if cs != [] {
      var init, last := cs[..|cs| - 1], cs[|cs| - 1];
      FilledExactly(init, reload, next, cache);
      assert cs == init + [last];
    }
  }

  /** The position of a reloaded certificate, and with it its holder and status. */
  lemma Reloaded(cs: seq<CertificateConfig>, reload: set<string>, next: nat, cache: map<string, Cached>, id: string) returns (i: nat)
    requires IdsUnique(cs) && id in reload && id in CertificateIds(cs)
    ensures i < |cs| && cs[i].id == id
    ensures Get(Made(cs, reload, next), id) == Some(next + i)
    ensures Get(Loaded(cs, reload, cache), id) == Some(LoadedStatus(cs[i], CachedFor(cache, id)))
    ensures Get(Filled(cs, reload, next, cache), next + i) == if Usable(CachedFor(cache, id)) then Some(cs[i].domains) else None
    ensures FindCertificate(cs, id) == Some(cs[i])
  {
    var c :| c in cs && c.id == id;
    i :| 0 <= i < |cs| && cs[i] == c;
    MadeExactly(cs, reload, next);
    LoadedExactly(cs, reload, cache);
    FilledExactly(cs, reload, next, cache);
    FindIsTheOne(cs, c);
  }

  // ---- What stays ----

  /** A certificate that is neither reloaded nor removed means the same before and after. */
  lemma KeptRuntime(config: Option<ProxyConfig>, next: ProxyConfig, id: string)
    requires IdsUnique(next.certificates) && id in CertificateIds(Certificates(config))
    requires id !in RequiringReload(config, next) && id in CertificateIds(next.certificates)
    ensures RuntimeIn(Some(next), id).Some? && RuntimeIn(config, id) == RuntimeIn(Some(next), id)
  {
    ReloadsExactly(config, next, id);
    FindCertificateFinds(next.certificates, id);
  }

  /** Every certificate of the new configuration is kept or reloaded. */
  lemma KeptOrReloaded(config: Option<ProxyConfig>, next: ProxyConfig, id: string)
    requires IdsUnique(next.certificates) && id in CertificateIds(next.certificates)
    ensures id in RequiringReload(config, next) || id in CertificateIds(Certificates(config))
  {
    ReloadsExactly(config, next, id);
    FindCertificateFinds(next.certificates, id);
    FindCertificateFinds(Certificates(config), id);
  }

  predicate Kept(s: State, next: ProxyConfig, id: string) {
    id in s.resolvers && id !in RequiringReload(s.config, next) && id !in Removed(s, next)
  }

  lemma KeptMeansSame(s: State, next: ProxyConfig, id: string)
    requires KeysOk(s.config, s.resolvers, s.statuses) && IdsUnique(next.certificates) && Kept(s, next, id)
    ensures RuntimeIn(Some(next), id).Some? && RuntimeIn(s.config, id) == RuntimeIn(Some(next), id)
  {
    KeptRuntime(s.config, next, id);
  }

  // ---- Work under way ----

  lemma DropTasks(s: State, ids: set<string>)
    requires Tasked(s.tasks, s.active, s.cancelled, s.generation, s.permits)
    ensures var t := Drop(s, ids); Tasked(t.tasks, t.active, t.cancelled, t.generation, t.permits)
  {
    var t := Drop(s, ids);
    forall g | g in t.tasks ensures g in t.cancelled <==> !Awaited(t.active, t.tasks[g].id, g) {
      if g in t.cancelled && g !in s.cancelled {
        var id :| id in s.active && id in ids && s.active[id] == g;
      }
    }
  }

  lemma SwitchFresh(s: State, next: ProxyConfig, cache: map<string, Cached>)
    requires KeysOk(s.config, s.resolvers, s.statuses) && IdsUnique(next.certificates)
    requires Fresh(s.config, s.tasks, s.active, s.pending)
    requires s.active.Keys <= s.statuses.Keys && s.pending.Keys <= s.statuses.Keys
    ensures var t := Switch(s, next, cache); Fresh(t.config, t.tasks, t.active, t.pending)
  {
    var t := Switch(s, next, cache);
    forall id | id in t.active && t.active[id] in t.tasks ensures UpToDate(t.config, id, RequestOf(t.tasks[t.active[id]].job)) {
      KeptMeansSame(s, next, id);
    }
    forall id | id in t.pending ensures OrderOk(t.config, id, t.pending[id]) {
      assert OrderOk(s.config, id, s.pending[id]);
      KeptMeansSame(s, next, id);
    }
  }

  lemma SwitchTasked(s: State, next: ProxyConfig, cache: map<string, Cached>)
    requires Tasked(s.tasks, s.active, s.cancelled, s.generation, s.permits)
    ensures var t := Switch(s, next, cache); Tasked(t.tasks, t.active, t.cancelled, t.generation, t.permits)
  {
    DropTasks(s, RequiringReload(s.config, next) + Removed(s, next));
  }

  // ---- Keys, reports and phases ----

  lemma ReloadedConfigured(config: Option<ProxyConfig>, next: ProxyConfig)
    ensures RequiringReload(config, next) <= CertificateIds(next.certificates)
  {
  }

  lemma SwitchKeys(s: State, next: ProxyConfig, cache: map<string, Cached>)
    requires KeysOk(s.config, s.resolvers, s.statuses) && IdsUnique(next.certificates)
    ensures var t := Switch(s, next, cache); KeysOk(t.config, t.resolvers, t.statuses)
  {
    var reload, cs := RequiringReload(s.config, next), next.certificates;
    MadeExactly(cs, reload, s.nextHolder);
    LoadedExactly(cs, reload, cache);
    ReloadedConfigured(s.config, next);
    var t := Switch(s, next, cache);
    forall id ensures id in t.resolvers <==> id in CertificateIds(cs) {
      if id in CertificateIds(cs) {
        KeptOrReloaded(s.config, next, id);
      }
    }
    assert t.statuses.Keys == t.resolvers.Keys;
  }

  /** A kept certificate keeps its holder and status. */
  lemma KeptEntries(s: State, next: ProxyConfig, cache: map<string, Cached>, id: string)
    requires KeysOk(s.config, s.resolvers, s.statuses) && IdsUnique(next.certificates) && Kept(s, next, id)
    requires HoldersDistinct(s.resolvers, s.holders, s.nextHolder)
    ensures var t := Switch(s, next, cache);
            && Get(t.resolvers, id) == Some(s.resolvers[id]) && Get(t.statuses, id) == Some(s.statuses[id])
            && Get(t.holders, s.resolvers[id]) == Get(s.holders, s.resolvers[id])
  {
    NothingMadeFor(next.certificates, RequiringReload(s.config, next), s.nextHolder, cache, id, s.resolvers[id]);
  }

  /** A certificate that is not reloaded gets no holder and no status, and old holders are not filled. */
  lemma NothingMadeFor(cs: seq<CertificateConfig>, reload: set<string>, next: nat, cache: map<string, Cached>, id: string, h: nat)
    requires IdsUnique(cs) && id !in reload && h < next
    ensures id !in Made(cs, reload, next) && id !in Loaded(cs, reload, cache) && h !in Filled(cs, reload, next, cache)
  {
    MadeExactly(cs, reload, next);
    LoadedExactly(cs, reload, cache);
    FilledExactly(cs, reload, next, cache);
  }

  /** A reloaded certificate has a new holder, filled from the cache, and a status that says so. */
  lemma ReloadedEntries(s: State, next: ProxyConfig, cache: map<string, Cached>, id: string) returns (i: nat)
    requires IdsUnique(next.certificates) && id in RequiringReload(s.config, next)
    ensures i < |next.certificates| && next.certificates[i].id == id && CertificateIn(Some(next), id) == Some(next.certificates[i])
    ensures var t := Switch(s, next, cache);
            && Get(t.resolvers, id) == Some(s.nextHolder + i)
            && Get(t.statuses, id) == Some(LoadedStatus(next.certificates[i], CachedFor(cache, id)))
            && (HoldersDistinct(s.resolvers, s.holders, s.nextHolder) ==>
                  Get(t.holders, s.nextHolder + i) == if Usable(CachedFor(cache, id)) then Some(next.certificates[i].domains) else None)
  {
    ReloadedConfigured(s.config, next);
    i := Reloaded(next.certificates, RequiringReload(s.config, next), s.nextHolder, cache, id);
  }

  lemma LoadedPhase(c: CertificateConfig, cached: Cached)
    ensures PhaseOk(LoadedStatus(c, cached), false, None)
    ensures LoadedStatus(c, cached).phase == Deployed ==> Usable(cached) && LoadedStatus(c, cached).expiresAt.Some?
  {
  }

  /** Work for a kept certificate goes on; work for a reloaded one is dropped. */
  lemma WorkAfterSwitch(s: State, next: ProxyConfig, cache: map<string, Cached>, id: string)
    ensures var t := Switch(s, next, cache);
            && (Kept(s, next, id) ==> Get(t.active, id) == Get(s.active, id) && Get(t.pending, id) == Get(s.pending, id))
            && (id in RequiringReload(s.config, next) || id in Removed(s, next) ==> id !in t.active && id !in t.pending && id !in t.retry)
  {
    var reload, removed := RequiringReload(s.config, next), Removed(s, next);
    var t := Switch(s, next, cache);
    assert t.active == s.active - (reload + removed) && t.pending == s.pending - (reload + removed);
    assert t.retry == s.retry - (reload + removed) - Toggled(s.config, next);
  }

  lemma SwitchedCases(s: State, next: ProxyConfig, cache: map<string, Cached>, id: string)
    requires KeysOk(s.config, s.resolvers, s.statuses) && IdsUnique(next.certificates)
    requires id in Switch(s, next, cache).resolvers
    ensures Kept(s, next, id) || id in RequiringReload(s.config, next)
  {
    MadeExactly(next.certificates, RequiringReload(s.config, next), s.nextHolder);
  }

  lemma SwitchReports(s: State, next: ProxyConfig, cache: map<string, Cached>)
    requires KeysOk(s.config, s.resolvers, s.statuses) && IdsUnique(next.certificates)
    requires HoldersDistinct(s.resolvers, s.holders, s.nextHolder) && ReportsOk(s.statuses, s.resolvers, s.holders)
    ensures var t := Switch(s, next, cache); ReportsOk(t.statuses, t.resolvers, t.holders)
  {
    var t := Switch(s, next, cache);
    SwitchKeys(s, next, cache);
    forall id | id in t.statuses ensures DeployedOk(t.statuses[id], t.resolvers, t.holders, id) {
      SwitchedReport(s, next, cache, id);
    }
  }

  lemma SwitchedReport(s: State, next: ProxyConfig, cache: map<string, Cached>, id: string)
    requires KeysOk(s.config, s.resolvers, s.statuses) && IdsUnique(next.certificates)
    requires HoldersDistinct(s.resolvers, s.holders, s.nextHolder) && ReportsOk(s.statuses, s.resolvers, s.holders)
    requires id in Switch(s, next, cache).resolvers && id in Switch(s, next, cache).statuses
    ensures var t := Switch(s, next, cache); DeployedOk(t.statuses[id], t.resolvers, t.holders, id)
  {
    SwitchedCases(s, next, cache, id);
    if Kept(s, next, id) {
      KeptEntries(s, next, cache, id);
      assert DeployedOk(s.statuses[id], s.resolvers, s.holders, id);
    } else {
      ReloadedReport(s, next, cache, id);
    }
  }

  lemma ReloadedReport(s: State, next: ProxyConfig, cache: map<string, Cached>, id: string)
    requires IdsUnique(next.certificates) && id in RequiringReload(s.config, next)
    requires HoldersDistinct(s.resolvers, s.holders, s.nextHolder) && id in Switch(s, next, cache).statuses
    ensures var t := Switch(s, next, cache); DeployedOk(t.statuses[id], t.resolvers, t.holders, id)
  {
    var i := ReloadedEntries(s, next, cache, id);
    LoadedPhase(next.certificates[i], CachedFor(cache, id));
  }

  lemma ToggledExactly(config: Option<ProxyConfig>, next: ProxyConfig, id: string)
    requires IdsUnique(next.certificates)
    requires CertificateIn(config, id).Some? && CertificateIn(Some(next), id).Some?
    ensures id in Toggled(config, next) <==> AutoRenewed(config, id) != AutoRenewed(Some(next), id)
  {
    FindCertificateFinds(next.certificates, id);
    forall c | c in next.certificates && c.id == id ensures CertificateIn(Some(next), id) == Some(c) {
      FindIsTheOne(next.certificates, c);
    }
  }

  lemma SwitchRetry(s: State, next: ProxyConfig, cache: map<string, Cached>)
    requires KeysOk(s.config, s.resolvers, s.statuses) && IdsUnique(next.certificates)
    requires HoldersDistinct(s.resolvers, s.holders, s.nextHolder) && RetryOk(s.config, s.statuses, s.retry)
    ensures var t := Switch(s, next, cache); RetryOk(t.config, t.statuses, t.retry)
  {
    var t := Switch(s, next, cache);
    forall id | id in t.retry ensures AutoRenewed(t.config, id) && id in t.statuses && t.statuses[id].expiresAt.Some? {
      assert Kept(s, next, id);
      KeptMeansSame(s, next, id);
      KeptEntries(s, next, cache, id);
      ToggledExactly(s.config, next, id);
    }
  }

  lemma SwitchPhases(s: State, next: ProxyConfig, cache: map<string, Cached>)
    requires KeysOk(s.config, s.resolvers, s.statuses) && IdsUnique(next.certificates)
    requires HoldersDistinct(s.resolvers, s.holders, s.nextHolder) && PhasesOk(s.statuses, s.active, s.pending)
    ensures var t := Switch(s, next, cache); PhasesOk(t.statuses, t.active, t.pending)
  {
    var t := Switch(s, next, cache);
    SwitchKeys(s, next, cache);
    forall id | id in t.statuses ensures PhaseOk(t.statuses[id], id in t.active, Get(t.pending, id)) {
      SwitchedPhase(s, next, cache, id);
    }
    forall id | id in t.active || id in t.pending ensures id in t.statuses {
      KeptEntries(s, next, cache, id);
    }
  }

  lemma SwitchedPhase(s: State, next: ProxyConfig, cache: map<string, Cached>, id: string)
    requires KeysOk(s.config, s.resolvers, s.statuses) && IdsUnique(next.certificates)
    requires HoldersDistinct(s.resolvers, s.holders, s.nextHolder) && PhasesOk(s.statuses, s.active, s.pending)
    requires id in Switch(s, next, cache).resolvers && id in Switch(s, next, cache).statuses
    ensures var t := Switch(s, next, cache); PhaseOk(t.statuses[id], id in t.active, Get(t.pending, id))
  {
    SwitchedCases(s, next, cache, id);
    WorkAfterSwitch(s, next, cache, id);
    if Kept(s, next, id) {
      KeptEntries(s, next, cache, id);
      assert PhaseOk(s.statuses[id], id in s.active, Get(s.pending, id));
    } else {
      ReloadedPhase(s, next, cache, id);
    }
  }

  lemma ReloadedPhase(s: State, next: ProxyConfig, cache: map<string, Cached>, id: string)
    requires IdsUnique(next.certificates) && id in RequiringReload(s.config, next) && id in Switch(s, next, cache).statuses
    ensures PhaseOk(Switch(s, next, cache).statuses[id], false, None)
  {
    var i := ReloadedEntries(s, next, cache, id);
    LoadedPhase(next.certificates[i], CachedFor(cache, id));
  }

  // ---- Serving ----

  lemma SwitchHolders(s: State, next: ProxyConfig, cache: map<string, Cached>)
    requires KeysOk(s.config, s.resolvers, s.statuses) && IdsUnique(next.certificates)
    requires HoldersDistinct(s.resolvers, s.holders, s.nextHolder) && HoldersOk(s.config, s.resolvers, s.holders)
    ensures var t := Switch(s, next, cache); HoldersOk(t.config, t.resolvers, t.holders)
  {
    var t := Switch(s, next, cache);
    forall id | id in t.resolvers && t.resolvers[id] in t.holders ensures HoldsDomains(t.config, id, t.holders[t.resolvers[id]]) {
      SwitchedCases(s, next, cache, id);
      if Kept(s, next, id) {
        KeptMeansSame(s, next, id);
        KeptEntries(s, next, cache, id);
        assert HoldsDomains(s.config, id, s.holders[s.resolvers[id]]);
      } else {
        var i := ReloadedEntries(s, next, cache, id);
      }
    }
  }

  /** The holder of any certificate after the switch: an old one if kept, a new one if reloaded. */
  lemma HolderAge(s: State, next: ProxyConfig, cache: map<string, Cached>, id: string)
    requires KeysOk(s.config, s.resolvers, s.statuses) && IdsUnique(next.certificates)
    requires HoldersDistinct(s.resolvers, s.holders, s.nextHolder) && id in Switch(s, next, cache).resolvers
    ensures var h := Switch(s, next, cache).resolvers[id];
            if Kept(s, next, id) then h < s.nextHolder && h == s.resolvers[id]
            else s.nextHolder <= h < s.nextHolder + |next.certificates| && next.certificates[h - s.nextHolder].id == id
  {
    SwitchedCases(s, next, cache, id);
    if Kept(s, next, id) {
      KeptEntries(s, next, cache, id);
    } else {
      var i := ReloadedEntries(s, next, cache, id);
    }
  }

  lemma TwoHolders(s: State, next: ProxyConfig, cache: map<string, Cached>, a: string, b: string)
    requires KeysOk(s.config, s.resolvers, s.statuses) && IdsUnique(next.certificates)
    requires HoldersDistinct(s.resolvers, s.holders, s.nextHolder) && a != b
    requires a in Switch(s, next, cache).resolvers && b in Switch(s, next, cache).resolvers
    ensures Switch(s, next, cache).resolvers[a] != Switch(s, next, cache).resolvers[b]
  {
    HolderAge(s, next, cache, a);
    HolderAge(s, next, cache, b);
  }

  lemma SwitchDistinct(s: State, next: ProxyConfig, cache: map<string, Cached>)
    requires KeysOk(s.config, s.resolvers, s.statuses) && IdsUnique(next.certificates)
    requires HoldersDistinct(s.resolvers, s.holders, s.nextHolder)
    ensures var t := Switch(s, next, cache); HoldersDistinct(t.resolvers, t.holders, t.nextHolder)
  {
    var t := Switch(s, next, cache);
    forall id | id in t.resolvers ensures t.resolvers[id] < t.nextHolder {
      HolderAge(s, next, cache, id);
    }
    forall a, b | a in t.resolvers && b in t.resolvers && a != b ensures t.resolvers[a] != t.resolvers[b] {
      TwoHolders(s, next, cache, a, b);
    }
    FilledExactly(next.certificates, RequiringReload(s.config, next), s.nextHolder, cache);
  }

  lemma SwitchMatches(s: State, next: ProxyConfig, cache: map<string, Cached>)
    requires ConfigOk(s.config) && Valid(next) && KeysOk(s.config, s.resolvers, s.statuses)
    requires Matches(s.index, Certificates(s.config), s.resolvers)
    ensures var t := Switch(s, next, cache); Matches(t.index, Certificates(t.config), t.resolvers)
  {
    var current, cs, reload := Certificates(s.config), next.certificates, RequiringReload(s.config, next);
    var made := Made(cs, reload, s.nextHolder);
    MadeExactly(cs, reload, s.nextHolder);
    forall c | c in cs && c.id !in made ensures Unchanged(current, c) {
      KeptUnchanged(s.config, next, c);
    }
    ChangeKeepsMatch(s.index, current, s.resolvers, cs, made);
  }

  lemma KeptUnchanged(config: Option<ProxyConfig>, next: ProxyConfig, c: CertificateConfig)
    requires IdsUnique(next.certificates) && c in next.certificates && c.id !in RequiringReload(config, next)
    ensures Unchanged(Certificates(config), c)
  {
    KeptOrReloaded(config, next, c.id);
    KeptRuntime(config, next, c.id);
    FindIsTheOne(next.certificates, c);
    FindCertificateFinds(Certificates(config), c.id);
  }

  lemma SwitchKeeps(s: State, next: ProxyConfig, cache: map<string, Cached>)
    requires Inv(s) && Valid(next)
    ensures Inv(Switch(s, next, cache))
  {
    SwitchServes(s, next, cache);
    SwitchOrderly(s, next, cache);
  }

  lemma SwitchServes(s: State, next: ProxyConfig, cache: map<string, Cached>)
    requires ConfigOk(s.config) && Valid(next) && KeysOk(s.config, s.resolvers, s.statuses)
    requires Served(s.config, s.index, s.resolvers, s.holders, s.nextHolder)
    ensures var t := Switch(s, next, cache);
            ConfigOk(t.config) && Served(t.config, t.index, t.resolvers, t.holders, t.nextHolder)
  {
    SwitchMatches(s, next, cache);
    SwitchDistinct(s, next, cache);
    SwitchHolders(s, next, cache);
  }

  lemma SwitchOrderly(s: State, next: ProxyConfig, cache: map<string, Cached>)
    requires Orderly(s) && HoldersDistinct(s.resolvers, s.holders, s.nextHolder) && IdsUnique(next.certificates)
    ensures Orderly(Switch(s, next, cache))
  {
    SwitchTasked(s, next, cache);
    SwitchFresh(s, next, cache);
    SwitchKeys(s, next, cache);
    SwitchReports(s, next, cache);
    SwitchRetry(s, next, cache);
    SwitchPhases(s, next, cache);
  }

  /** Every configuration change keeps the invariant. */
  lemma ApplyConfigKeeps(s: State, next: ProxyConfig, cache: map<string, Cached>, clock: Clock)
    requires Inv(s) && Valid(next)
    ensures Inv(ApplyConfig(s, next, cache, clock)) && ApplyConfig(s, next, cache, clock).config == Some(next)
  {
    SwitchKeeps(s, next, cache);
    ScheduleDueKeeps(Switch(s, next, cache), clock);
    ScheduleDueServed(Switch(s, next, cache), clock);
  }
}
