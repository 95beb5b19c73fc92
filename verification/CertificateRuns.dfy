/**
Every run of the certificate manager: configurations, commands, task outputs and scheduler ticks
in any order (crates/gaterust-proxy/src/runtime.rs).
*/
module CertificateRuns {
  import opened Options
  import opened Domains
  import opened Routers
  import opened ProxyConfigs
  import opened CertificateRequests
  import opened CertificateIndex
  import opened CertificateHandover
  import opened CertificateState
  import opened CertificateInvariants
  import opened CertificateSwitch

  /** `Finishes` is a task returning, `Joins` the manager handling its output. */
  datatype Event =
    | Applies(config: ProxyConfig, cache: map<string, Cached>, clock: Clock)
    | Issues(id: string)
    | Continues(id: string)
    | Finishes(generation: nat, outcome: Outcome)
    | Joins(generation: nat, now: nat)
    | Ticks(clock: Clock)

  /** Only validated configurations reach the manager; tasks return only what they can return. */
  predicate Enabled(s: State, e: Event) {
    match e
    case Applies(config, _, _) => Valid(config)
    case Finishes(g, outcome) => g in s.tasks && s.tasks[g].outcome.None? && Possible(s.tasks[g].job, outcome)
    case Joins(g, _) => g in s.tasks && s.tasks[g].outcome.Some?
    case _ => true
  }

  function Do(s: State, e: Event): State {
    if !Enabled(s, e) then s
    else
      match e
      case Applies(config, cache, clock) => ApplyConfig(s, config, cache, clock)
      case Issues(id) => StartIssue(s, id, false)
      case Continues(id) => StartContinue(s, id)
      case Finishes(g, outcome) => Finish(s, g, outcome)
      case Joins(g, now) => HandleTask(s, g, now)
      case Ticks(clock) => ScheduleDue(s, clock)
  }

  function Run(events: seq<Event>): State {
    if events == [] then Initial else Do(Run(events[..|events| - 1]), events[|events| - 1])
  }

  lemma StartServes(s: State, id: string)
    ensures SameServing(s, StartContinue(s, id))
  {
  }

  lemma EventKeepsInv(s: State, e: Event)
    requires Inv(s)
    ensures Inv(Do(s, e))
  {
    if Enabled(s, e) {
      match e {
        case Applies(config, cache, clock) =>
          ApplyConfigKeeps(s, config, cache, clock);
        case Issues(id) =>
          StartIssueKeeps(s, id, false);
          StartIssueServes(s, id, false);
        case Continues(id) =>
          StartContinueKeeps(s, id);
          StartServes(s, id);
        case Finishes(g, outcome) =>
          FinishKeeps(s, g, outcome);
        case Joins(g, now) =>
          HandleTaskKeeps(s, g, now);
          HandleTaskServed(s, g, now);
        case Ticks(clock) =>
          ScheduleDueKeeps(s, clock);
          ScheduleDueServed(s, clock);
      }
    }
  }

  lemma {:induction false} RunKeepsInv(events: seq<Event>)
    ensures Inv(Run(events))
  {
    if events == [] {
      InitialInv();
    } else {
      RunKeepsInv(events[..|events| - 1]);
      EventKeepsInv(Run(events[..|events| - 1]), events[|events| - 1]);
    }
  }

  // ---- The state machine ----

  /** In every run: exactly the configured certificates have a holder and a status; a status is in
      progress exactly while a task is active and waiting exactly while an order is pending; never
      both; and at most four tasks are unfinished. */
  lemma StatusesFollowWork(events: seq<Event>)
    ensures var s := Run(events);
            && s.statuses.Keys == CertificateIds(Certificates(s.config)) && s.resolvers.Keys == s.statuses.Keys
            && (forall id <- s.statuses :: InProgress(s.statuses[id].phase) <==> id in s.active)
            && (forall id <- s.statuses :: s.statuses[id].phase == WaitingDns <==> id in s.pending)
            && s.active.Keys <= s.statuses.Keys && s.pending.Keys <= s.statuses.Keys && s.active.Keys !! s.pending.Keys
            && |Running(s.tasks)| <= 4
  {
    RunKeepsInv(events);
    var s := Run(events);
    forall id | id in s.statuses
      ensures InProgress(s.statuses[id].phase) <==> id in s.active
      ensures s.statuses[id].phase == WaitingDns <==> id in s.pending
    {
      assert PhaseOk(s.statuses[id], id in s.active, Get(s.pending, id));
    }
    forall id ensures !(id in s.active && id in s.pending) {
      NeverBoth(s.statuses, s.active, s.pending, id);
    }
  }

  /** Whatever is under way was requested under a configuration that says about this certificate
      what the current one says, in everything a task depends on. */
  lemma NothingStale(events: seq<Event>)
    ensures var s := Run(events);
            && (forall id <- s.active :: s.active[id] in s.tasks && UpToDate(s.config, id, RequestOf(s.tasks[s.active[id]].job)))
            && (forall id <- s.pending :: UpToDate(s.config, id, s.pending[id].request))
  {
    RunKeepsInv(events);
    var s := Run(events);
    forall id | id in s.pending ensures UpToDate(s.config, id, s.pending[id].request) {
      assert OrderOk(s.config, id, s.pending[id]);
    }
  }

  /** What handling a task's output installs is for the domains configured now; the output of a
      task whose token was cancelled changes nothing. */
  lemma OutputsInstallCurrentDomains(events: seq<Event>, g: nat, now: nat)
    requires Enabled(Run(events), Joins(g, now))
    ensures var s, t := Run(events), Do(Run(events), Joins(g, now));
            && (g in s.cancelled ==> t == s.(tasks := s.tasks - {g}))
            && (t.holders != s.holders ==>
                  var id := s.tasks[g].id;
                  && id in s.resolvers && CertificateIn(s.config, id).Some?
                  && t.holders == s.holders[s.resolvers[id] := CertificateIn(s.config, id).value.domains])
  {
    RunKeepsInv(events);
    var s := Run(events);
    var task := s.tasks[g];
    if Awaited(s.active, task.id, g) {
      AwaitedTask(s.config, s.tasks, s.active, task.id, g);
      ConcludeServes(s.(tasks := s.tasks - {g}, active := s.active - {task.id}), task.id, RequestOf(task.job), task.outcome.value, now);
    }
  }

  /** A certificate reported as valid is in its holder, and is for the domains configured now. */
  lemma ReportedMeansServed(events: seq<Event>, id: string)
    requires id in Run(events).statuses && Run(events).statuses[id].phase == Deployed
    ensures var s := Run(events);
            id in s.resolvers && s.resolvers[id] in s.holders && HoldsDomains(s.config, id, s.holders[s.resolvers[id]])
  {
    RunKeepsInv(events);
    var s := Run(events);
    assert DeployedOk(s.statuses[id], s.resolvers, s.holders, id);
  }

  // ---- Handshakes ----

  /** The domains of a certificate cover a host. */
  predicate CoversHost(domains: seq<string>, host: string) {
    host in domains || (AfterFirstDot(host).Some? && "*." + AfterFirstDot(host).value in domains)
  }

  lemma OwnerCovers(config: ProxyConfig, host: string, id: string)
    requires Valid(config) && CertificateOf(DomainOwners(config.certificates), host) == Some(id)
    ensures CertificateIn(Some(config), id).Some? && CoversHost(CertificateIn(Some(config), id).value.domains, host)
  {
    var cs := config.certificates;
    DomainOwnersExact(cs);
    var domain := if host in DomainOwners(cs) then host else "*." + AfterFirstDot(host).value;
    var c :| c in cs && domain in c.domains;
    FindIsTheOne(cs, c);
  }

  /** In every run a handshake for any host gets the holder of the certificate the configuration
      assigns to that host, and a certificate found there covers the host. */
  lemma HandshakesFollowConfig(events: seq<Event>, host: string)
    requires Run(events).config.Some?
    ensures var s := Run(events);
            match CertificateOf(DomainOwners(s.config.value.certificates), host)
            case None => Resolve(s.index, host) == None
            case Some(id) =>
              && id in s.resolvers && Resolve(s.index, host) == Some(s.resolvers[id])
              && (s.resolvers[id] in s.holders ==> CoversHost(s.holders[s.resolvers[id]], host))
  {
    RunKeepsInv(events);
    var s := Run(events);
    ResolveFollowsConfig(s.index, s.config.value.certificates, s.resolvers, host);
    match CertificateOf(DomainOwners(s.config.value.certificates), host) {
      case None =>
      case Some(id) =>
        OwnerCovers(s.config.value, host, id);
        FindCertificateFinds(s.config.value.certificates, id);
        assert s.resolvers[id] in s.holders ==> HoldsDomains(s.config, id, s.holders[s.resolvers[id]]);
    }
  }

  /** In every run a TLS route is served the certificate it names. */
  lemma RoutesServedTheirCertificate(events: seq<Event>, route: RouteConfig)
    requires var s := Run(events); s.config.Some? && route in s.config.value.routes && route.certificateId.Some?
    ensures var s := Run(events);
            && route.certificateId.value in s.resolvers
            && Resolve(s.index, route.host) == Some(s.resolvers[route.certificateId.value])
  {
    RunKeepsInv(events);
    var s := Run(events);
    RouteServedItsCertificate(s.index, s.config.value, s.resolvers, route);
  }

  lemma ChangeReconfigures(s: State, next: ProxyConfig)
    requires ConfigOk(s.config) && Valid(next) && KeysOk(s.config, s.resolvers, s.statuses)
    requires Served(s.config, s.index, s.resolvers, s.holders, s.nextHolder)
    ensures var made := Made(next.certificates, RequiringReload(s.config, next), s.nextHolder);
            && made.Keys == RequiringReload(s.config, next)
            && Reconfigures(s.index, Certificates(s.config), s.resolvers, next.certificates, made)
  {
    var cs, reload := next.certificates, RequiringReload(s.config, next);
    var made := Made(cs, reload, s.nextHolder);
    MadeExactly(cs, reload, s.nextHolder);
    ReloadedConfigured(s.config, next);
    forall c | c in cs && c.id !in made ensures Unchanged(Certificates(s.config), c) {
      KeptUnchanged(s.config, next, c);
    }
    MadeFresh(s.resolvers, cs, reload, s.nextHolder);
  }

  lemma MadeFresh(resolvers: map<string, nat>, cs: seq<CertificateConfig>, reload: set<string>, next: nat)
    requires IdsUnique(cs) && (forall id <- resolvers :: resolvers[id] < next)
    requires forall a <- resolvers, b <- resolvers | a != b :: resolvers[a] != resolvers[b]
    ensures HoldersFresh(resolvers, Made(cs, reload, next))
  {
    var made := Made(cs, reload, next);
    forall id | id in made ensures next <= made[id] < next + |cs| && cs[made[id] - next].id == id {
      MadePosition(cs, reload, next, id);
    }
  }

  lemma MadePosition(cs: seq<CertificateConfig>, reload: set<string>, next: nat, id: string)
    requires IdsUnique(cs) && id in Made(cs, reload, next)
    ensures var made := Made(cs, reload, next); next <= made[id] < next + |cs| && cs[made[id] - next].id == id
  {
    MadeExactly(cs, reload, next);
    var c :| c in cs && c.id == id;
    var i :| 0 <= i < |cs| && cs[i] == c;
    assert Get(Made(cs, reload, next), cs[i].id) == Some(next + i);
  }

  /** In every run, for every host served before and after a change to any valid configuration:
      while the index is rewritten, handshakes keep getting the old or the new holder if and only
      if the new certificate is not reloaded, or no certificate listed before it drops or takes
      the domain the host was served through. */
  lemma HandshakesDuringChange(events: seq<Event>, next: ProxyConfig, host: string, was: CertificateConfig, domain: string,
                               b: nat, domain': string)
    requires Valid(next) && Through(Certificates(Run(events).config), host, domain, was)
    requires b < |next.certificates| && Through(next.certificates, host, domain', next.certificates[b])
    ensures var s := Run(events);
            var cs, reload := next.certificates, RequiringReload(s.config, next);
            var made := Made(cs, reload, s.nextHolder);
            Uninterrupted(s.index, s.resolvers, cs, made, host, was.id, cs[b].id) <==>
              cs[b].id !in reload || OutlastsChange(Removed(s, next), cs, made, was.id, domain, b)
  {
    RunKeepsInv(events);
    var s := Run(events);
    ChangeReconfigures(s, next);
    var made := Made(next.certificates, RequiringReload(s.config, next), s.nextHolder);
    UninterruptedExactly(s.index, Certificates(s.config), s.resolvers, next.certificates, made, host, was, domain, b, domain');
  }

  // ---- Commands ----

  /** In every run an issue command starts a task exactly if the certificate is configured, has a
      validation method and is idle, and a permit is free. */
  lemma IssueAcceptedExactly(events: seq<Event>, id: string)
    ensures var s := Run(events);
            IssueProblem(s, id).None? <==>
              && CertificateIn(s.config, id).Some? && CertificateIn(s.config, id).value.validation.Some?
              && id in s.statuses && !InProgress(s.statuses[id].phase) && |Running(s.tasks)| < 4
  {
    RunKeepsInv(events);
    IssueAccepted(Run(events), id);
  }

  lemma IssueAccepted(s: State, id: string)
    requires ConfigOk(s.config) && KeysOk(s.config, s.resolvers, s.statuses)
    requires PhasesOk(s.statuses, s.active, s.pending) && PermitsOk(s.permits, s.tasks)
    ensures IssueProblem(s, id).None? <==>
              && CertificateIn(s.config, id).Some? && CertificateIn(s.config, id).value.validation.Some?
              && id in s.statuses && !InProgress(s.statuses[id].phase) && |Running(s.tasks)| < 4
  {
    ConfiguredHasStatus(s, id);
    PreparedExactly(s.config, id);
    assert id in s.statuses ==> PhaseOk(s.statuses[id], id in s.active, Get(s.pending, id));
  }

  lemma PreparedExactly(config: Option<ProxyConfig>, id: string)
    requires ConfigOk(config)
    ensures Prepare(config, id).Ready? <==> CertificateIn(config, id).Some? && CertificateIn(config, id).value.validation.Some?
  {
    if config.Some? {
      RejectedExactly(config.value, id);
      FindCertificateFinds(config.value.certificates, id);
    }
  }

  /** In every run a continue command starts a task exactly if the certificate waits for DNS and a
      permit is free. */
  lemma ContinueAcceptedExactly(events: seq<Event>, id: string)
    ensures var s := Run(events);
            ContinueProblem(s, id).None? <==>
              id in s.statuses && s.statuses[id].phase == WaitingDns && |Running(s.tasks)| < 4
  {
    RunKeepsInv(events);
    ContinueAccepted(Run(events), id);
  }

  lemma ContinueAccepted(s: State, id: string)
    requires OrdersFresh(s.config, s.pending) && PhasesOk(s.statuses, s.active, s.pending) && PermitsOk(s.permits, s.tasks)
    ensures ContinueProblem(s, id).None? <==>
              id in s.statuses && s.statuses[id].phase == WaitingDns && |Running(s.tasks)| < 4
  {
    assert id in s.statuses ==> PhaseOk(s.statuses[id], id in s.active, Get(s.pending, id));
    if id in s.pending {
      assert OrderOk(s.config, id, s.pending[id]);
    }
  }

  /** In every run an issue command is refused for exactly these reasons, in this order: the
      certificate is in progress, no configuration was applied, it is not configured, it has no
      validation method (its migration error is given), four tasks are running. */
  lemma IssueRefusedExactly(events: seq<Event>, id: string)
    ensures var s, problem := Run(events), IssueProblem(Run(events), id);
            var certificate, busy := CertificateIn(s.config, id), id in s.active;
            && (problem == Some(Busy) <==> busy)
            && (problem == Some(NotApplied) <==> s.config.None?)
            && (problem == Some(UnknownCertificate) <==> !busy && s.config.Some? && certificate.None?)
            && (certificate.Some? ==>
                  (problem == Some(NotMigrated(certificate.value.migrationError)) <==> !busy && certificate.value.validation.None?))
            && (problem == Some(NoPermit) <==>
                  !busy && certificate.Some? && certificate.value.validation.Some? && |Running(s.tasks)| == 4)
  {
    RunKeepsInv(events);
    IssueRefused(Run(events), id);
  }

  lemma IssueRefused(s: State, id: string)
    requires ConfigOk(s.config) && KeysOk(s.config, s.resolvers, s.statuses)
    requires PhasesOk(s.statuses, s.active, s.pending) && PermitsOk(s.permits, s.tasks)
    ensures var problem := IssueProblem(s, id);
            var certificate, busy := CertificateIn(s.config, id), id in s.active;
            && (problem == Some(Busy) <==> busy)
            && (problem == Some(NotApplied) <==> s.config.None?)
            && (problem == Some(UnknownCertificate) <==> !busy && s.config.Some? && certificate.None?)
            && (certificate.Some? ==>
                  (problem == Some(NotMigrated(certificate.value.migrationError)) <==> !busy && certificate.value.validation.None?))
            && (problem == Some(NoPermit) <==>
                  !busy && certificate.Some? && certificate.value.validation.Some? && |Running(s.tasks)| == 4)
  {
    PreparedExactly(s.config, id);
    ConfiguredHasStatus(s, id);
  }

  /** In every run a continue command is refused for exactly these reasons, in this order: the
      certificate is in progress, no configuration was applied, four tasks are running, no order is
      pending. */
  lemma ContinueRefusedExactly(events: seq<Event>, id: string)
    ensures var s, problem := Run(events), ContinueProblem(Run(events), id);
            && (problem == Some(Busy) <==> id in s.active)
            && (problem == Some(NotApplied) <==> s.config.None?)
            && (problem == Some(NoPermit) <==> id !in s.active && s.config.Some? && |Running(s.tasks)| == 4)
            && (problem == Some(NoOrder) <==>
                  id !in s.active && s.config.Some? && |Running(s.tasks)| < 4 && id !in s.pending)
  {
    RunKeepsInv(events);
    ContinueRefused(Run(events), id);
  }

  lemma ContinueRefused(s: State, id: string)
    requires KeysOk(s.config, s.resolvers, s.statuses)
    requires PhasesOk(s.statuses, s.active, s.pending) && PermitsOk(s.permits, s.tasks)
    ensures var problem := ContinueProblem(s, id);
            && (problem == Some(Busy) <==> id in s.active)
            && (problem == Some(NotApplied) <==> s.config.None?)
            && (problem == Some(NoPermit) <==> id !in s.active && s.config.Some? && |Running(s.tasks)| == 4)
            && (problem == Some(NoOrder) <==>
                  id !in s.active && s.config.Some? && |Running(s.tasks)| < 4 && id !in s.pending)
  {
  }
}
