/**
The certificate manager as it runs: one object whose fields the commands, the task outputs and the
scheduler update in place (crates/gaterust-proxy/src/runtime.rs).
*/
module CertificateManagers {
  import opened Options
  import opened ProxyConfigs
  import opened CertificateRequests
  import opened CertificateIndex
  import opened CertificateState
  import opened CertificateInvariants
  import opened CertificateSwitch
  import opened CertificateRuns
  import S = CertificateState

  class CertificateManager {
    const resolver: CertificateResolver
    var config: Option<ProxyConfig>
    var resolvers: map<string, nat>
    var holders: map<nat, seq<string>>
    var nextHolder: nat
    var statuses: map<string, Status>
    var active: map<string, nat>
    var pending: map<string, Order>
    var retry: map<string, Retry>
    var tasks: map<nat, Task>
    var cancelled: set<nat>
    var generation: nat
    var permits: nat

    constructor (resolver: CertificateResolver)
      requires resolver.View() == Index(map[], map[])
      ensures this.resolver == resolver && View() == Initial
    {
      this.resolver := resolver;
      config, resolvers, holders, nextHolder, statuses := None, map[], map[], 0, map[];
      active, pending, retry, tasks, cancelled := map[], map[], map[], map[], {};
      generation, permits := 0, MAX_CONCURRENT_ISSUANCE;
    }

    function View(): State
      reads this, resolver
    {
      State(config, resolver.View(), resolvers, holders, nextHolder, statuses, active, pending, retry, tasks, cancelled,
            generation, permits)
    }

    // ---- The loop ----

    /** One turn of the manager's loop: a command, a task output or a tick of the scheduler. That a
        task returns is the turn of the task. */
    method Turn(e: Event)
      requires Inv(View())
      modifies this, resolver
      ensures View() == Do(old(View()), e) && Inv(View())
    {
      EventKeepsInv(View(), e);
      if Enabled(View(), e) {
        Dispatch(e);
      }
    }

    method Dispatch(e: Event)
      requires Enabled(View(), e)
      modifies this, resolver
      ensures View() == Do(old(View()), e)
    {
      match e {
        case Applies(next, cache, clock) =>
          ApplyConfig(next, cache, clock);
        case Issues(id) =>
          var _ := StartIssue(id, false);
        case Continues(id) =>
          var _ := StartContinue(id);
        case Finishes(g, outcome) =>
          tasks := tasks[g := tasks[g].(outcome := Some(outcome))];
          permits := permits + 1;
        case Joins(g, now) =>
          HandleTask(g, now);
        case Ticks(clock) =>
          ScheduleDue(clock);
      }
    }

    /** The manager from its start: it goes through exactly the states that the theorems about runs
        speak of. */
    method RunAll(events: seq<Event>)
      requires View() == Initial
      modifies this, resolver
      ensures View() == CertificateRuns.Run(events) && Inv(View())
    {
      InitialInv();
      for i := 0 to |events|
        invariant View() == CertificateRuns.Run(events[..i]) && Inv(View())
      {
        assert events[..i + 1][..i] == events[..i];
        Turn(events[i]);
      }
      assert events[..|events|] == events;
    }

    // ---- Commands ----

    /** Starts a task under one of the permits. */
    method Spawn(id: string, job: Job)
      requires permits > 0
      modifies this`permits, this`pending, this`generation, this`tasks, this`active
      ensures View() == Launch(old(View()), id, job, old(statuses))
    {
      permits := permits - 1;
      pending := pending - {id};
      generation := generation + 1;
      tasks := tasks[generation := Task(id, job, None)];
      active := active[id := generation];
    }

    method StartIssue(id: string, renewal: bool) returns (problem: Option<Problem>)
      modifies this
      ensures problem == IssueProblem(old(View()), id)
      ensures View() == S.StartIssue(old(View()), id, renewal)
    {
      if id in active {
        return Some(Busy);
      }
      var request;
      match Prepare(config, id) {
        case Rejected(reason) => return Some(reason);
        case Ready(prepared) => request := prepared;
      }
      if permits == 0 {
        return Some(NoPermit);
      }
      Spawn(id, Begin(request));
      if id in statuses {
        statuses := statuses[id := statuses[id].(phase := if renewal then Renewing else Issuing, lastError := None, records := [])];
      }
      return None;
    }

    method StartContinue(id: string) returns (problem: Option<Problem>)
      modifies this
      ensures problem == ContinueProblem(old(View()), id)
      ensures View() == S.StartContinue(old(View()), id)
    {
      if id in active {
        return Some(Busy);
      }
      if config.None? {
        return Some(NotApplied);
      }
      if permits == 0 {
        return Some(NoPermit);
      }
      if id !in pending {
        return Some(NoOrder);
      }
      Spawn(id, Continue(pending[id]));
      if id in statuses {
        statuses := statuses[id := statuses[id].(phase := Issuing, lastError := None)];
      }
      return None;
    }

    // ---- Task outputs ----

    method HandleTask(g: nat, now: nat)
      requires g in tasks && tasks[g].outcome.Some?
      modifies this
      ensures View() == S.HandleTask(old(View()), g, now)
    {
      var task := tasks[g];
      tasks := tasks - {g};
      if task.id !in active || active[task.id] != g {
        return;
      }
      active := active - {task.id};
      match task.outcome.value {
        case Issued(expiresAt, defect) =>
          Deploy(task.id, RequestOf(task.job).certificate.domains, expiresAt, defect, now);
        case Waiting(order) =>
          Wait(task.id, order, None);
        case NotReady(order, error) =>
          Wait(task.id, order, Some(Told(error)));
        case Unsuccessful(error) =>
          Fail(task.id, Told(error), now);
      }
    }

    method Wait(id: string, order: Order, problem: Option<Problem>)
      modifies this
      ensures View() == S.Wait(old(View()), id, order, problem)
    {
      pending := pending[id := order];
      if id in statuses {
        statuses := statuses[id := statuses[id].(phase := WaitingDns, lastError := problem, records := order.records)];
      }
    }

    method Deploy(id: string, domains: seq<string>, expiresAt: nat, defect: Option<string>, now: nat)
      modifies this
      ensures View() == S.Deploy(old(View()), id, domains, expiresAt, defect, now)
    {
      if id !in resolvers {
        Fail(id, NoHolder, now);
      } else if defect.Some? {
        Fail(id, Told(defect.value), now);
      } else {
        holders := holders[resolvers[id] := domains];
        retry := retry - {id};
        if id in statuses {
          statuses := statuses[id := Status(Deployed, Some(expiresAt), None, [])];
        }
      }
    }

    method Fail(id: string, problem: Problem, now: nat)
      modifies this`retry, this`statuses
      ensures View() == S.Fail(old(View()), id, problem, now)
    {
      RecordFailure(id, now);
      if id in statuses {
        var status := statuses[id];
        var phase := if status.expiresAt.Some? && status.expiresAt.value <= now then Expired else Phase.Failed;
        statuses := statuses[id := status.(phase := phase, lastError := Some(problem), records := [])];
      }
    }

    method RecordFailure(id: string, now: nat)
      modifies this`retry
      ensures var s := old(View());
              View() == s.(retry := if CanRetry(s, id) then s.retry[id := NextRetry(Get(s.retry, id), id, now)] else s.retry)
    {
      if AutoRenewed(config, id) && id in statuses && statuses[id].expiresAt.Some? {
        var attempts := if id in retry then retry[id].attempts else 0;
        var delay := Min(RETRY_BASE * Power2(Min(attempts, 6)), RETRY_MAX);
        var jitter := SumBytes(id);
        retry := retry[id := Retry(attempts + 1, now + delay + jitter % 60)];
      }
    }

    // ---- The scheduler ----

    method ScheduleDue(clock: Clock)
      modifies this
      ensures View() == S.ScheduleDue(old(View()), clock)
    {
      ExpireStatuses(clock.now);
      if config.None? {
        return;
      }
      var due := CollectDue(config.value.certificates, clock.now);
      ghost var expired := View();
      for i := 0 to |due|
        invariant View() == RenewAll(expired, due[..i], clock)
      {
        var problem := StartIssue(due[i], true);
        if problem.Some? {
          Fail(due[i], problem.value, Reading(clock, due[i]));
        }
        assert due[..i + 1][..i] == due[..i];
      }
      assert due[..|due|] == due;
    }

    method ExpireStatuses(now: nat)
      modifies this`statuses
      ensures View() == old(View()).(statuses := Expire(old(statuses), now))
    {
      var left := statuses.Keys;
      while left != {}
        invariant left <= statuses.Keys && statuses.Keys == old(statuses).Keys
        invariant forall id <- statuses ::
                    statuses[id] == if id in left then old(statuses)[id] else ExpiredStatus(old(statuses)[id], now)
        decreases left
      {
        var id :| id in left;
        left := left - {id};
        var status := statuses[id];
        if status.expiresAt.Some? && status.expiresAt.value <= now && (status.phase == Deployed || status.phase == Phase.Failed) {
          statuses := statuses[id := status.(phase := Expired)];
        }
      }
      assert statuses == Expire(old(statuses), now);
    }

    method CollectDue(cs: seq<CertificateConfig>, now: nat) returns (due: seq<string>)
      ensures due == Due(View(), cs, now)
    {
      due := [];
      for i := 0 to |cs|
        invariant due == Due(View(), cs[..i], now)
      {
        var c := cs[i];
        if c.autoRenew && c.id in statuses && statuses[c.id].expiresAt.Some? {
          var expiresAt := statuses[c.id].expiresAt.value;
          var renewalAt := if expiresAt < RENEW_BEFORE then 0 else expiresAt - RENEW_BEFORE;
          var retryReady := c.id !in retry || retry[c.id].retryAt <= now;
          if renewalAt <= now && retryReady && c.id !in active {
            due := due + [c.id];
          }
        }
        assert cs[..i + 1][..i] == cs[..i];
      }
      assert cs[..|cs|] == cs;
    }

    // ---- A new configuration ----

    method ApplyConfig(next: ProxyConfig, cache: map<string, Cached>, clock: Clock)
      requires IdsUnique(next.certificates)
      modifies this, resolver
      ensures View() == S.ApplyConfig(old(View()), next, cache, clock)
    {
      var reload := RequiringReload(config, next);
      var removed := resolvers.Keys - CertificateIds(next.certificates);
      DropWork(reload + removed);
      var made, loaded := LoadHolders(next.certificates, reload, cache);
      RemoveCertificates(removed);
      InstallHolders(next.certificates, reload, cache, old(nextHolder), made, loaded);
      ForgetToggled(next.certificates);
      config := Some(next);
      assert View() == Switch(old(View()), next, cache);
      ScheduleDue(clock);
    }

    method DropWork(ids: set<string>)
      modifies this
      ensures View() == Drop(old(View()), ids)
    {
      var left := ids;
      DropNone(View());
      while left != {}
        invariant left <= ids
        invariant View() == Drop(old(View()), ids - left)
        decreases left
      {
        var id :| id in left;
        DropWorkFor(id);
        DropMore(old(View()), ids - left, id);
        assert ids - (left - {id}) == ids - left + {id};
        left := left - {id};
      }
      assert ids - {} == ids;
    }

    method DropWorkFor(id: string)
      modifies this`cancelled, this`active, this`pending, this`retry
      ensures View() == Drop(old(View()), {id})
    {
      DropOne(View(), id);
      if id in active {
        cancelled := cancelled + {active[id]};
        active := active - {id};
      }
      pending := pending - {id};
      retry := retry - {id};
    }

    /** Makes a holder for every reloaded certificate and fills it from the cache. */
    method LoadHolders(cs: seq<CertificateConfig>, reload: set<string>, cache: map<string, Cached>)
      returns (made: map<string, nat>, loaded: map<string, Status>)
      modifies this`holders, this`nextHolder
      ensures made == Made(cs, reload, old(nextHolder)) && loaded == Loaded(cs, reload, cache)
      ensures View() == old(View()).(holders := old(holders) + Filled(cs, reload, old(nextHolder), cache),
                                     nextHolder := old(nextHolder) + |cs|)
    {
      made, loaded := map[], map[];
      var first := nextHolder;
      for i := 0 to |cs|
        invariant nextHolder == first + i
        invariant made == Made(cs[..i], reload, first) && loaded == Loaded(cs[..i], reload, cache)
        invariant holders == old(holders) + Filled(cs[..i], reload, first, cache)
      {
        var c := cs[i];
        if c.id in reload {
          var cached := CachedFor(cache, c.id);
          if Usable(cached) {
            holders := holders[nextHolder := c.domains];
          }
          made := made[c.id := nextHolder];
          loaded := loaded[c.id := LoadedStatus(c, cached)];
        }
        MadePrefix(cs, reload, first, i);
        LoadedPrefix(cs, reload, cache, i);
        FilledPrefix(old(holders), cs, reload, first, cache, i);
        nextHolder := nextHolder + 1;
      }
      assert cs[..|cs|] == cs;
    }

    method RemoveCertificates(removed: set<string>)
      modifies this`resolvers, this`statuses, resolver
      ensures View() == old(View()).(index := RemoveAll(old(resolver.View()), removed),
                                     resolvers := old(resolvers) - removed, statuses := old(statuses) - removed)
    {
      var left := removed;
      RemoveNone(resolver.View());
      while left != {}
        invariant left <= removed
        invariant resolver.View() == RemoveAll(old(resolver.View()), removed - left)
        invariant resolvers == old(resolvers) - (removed - left) && statuses == old(statuses) - (removed - left)
        decreases left
      {
        var id :| id in left;
        resolver.RemoveOwner(id);
        resolvers := resolvers - {id};
        statuses := statuses - {id};
        RemoveMore(old(resolver.View()), removed - left, id);
        assert removed - (left - {id}) == removed - left + {id};
        left := left - {id};
      }
      assert removed - {} == removed;
    }

    method InstallHolders(cs: seq<CertificateConfig>, reload: set<string>, cache: map<string, Cached>, ghost first: nat,
                          made: map<string, nat>, loaded: map<string, Status>)
      requires IdsUnique(cs) && made == Made(cs, reload, first) && loaded == Loaded(cs, reload, cache)
      modifies this`resolvers, this`statuses, resolver
      ensures View() == old(View()).(index := Install(old(resolver.View()), cs, made),
                                     resolvers := old(resolvers) + made, statuses := old(statuses) + loaded)
    {
      for i := 0 to |cs|
        invariant resolver.View() == Install(old(resolver.View()), cs[..i], made)
        invariant resolvers == old(resolvers) + Made(cs[..i], reload, first)
        invariant statuses == old(statuses) + Loaded(cs[..i], reload, cache)
      {
        var c := cs[i];
        IndexStep(old(resolver.View()), cs, made, i);
        HolderStep(old(resolvers), cs, reload, first, i);
        StatusStep(old(statuses), cs, reload, cache, i);
        if c.id in reload {
          resolver.ReplaceOwner(c.id, c.domains, made[c.id]);
          resolvers := resolvers[c.id := made[c.id]];
          statuses := statuses[c.id := loaded[c.id]];
        }
      }
      assert cs[..|cs|] == cs;
    }

    method ForgetToggled(cs: seq<CertificateConfig>)
      modifies this`retry
      ensures View() == old(View()).(retry := old(retry) - set c | c in cs && WasToggled(config, c) :: c.id)
    {
      for i := 0 to |cs|
        invariant retry == old(retry) - set c | c in cs[..i] && WasToggled(config, c) :: c.id
      {
        assert cs[..i + 1] == cs[..i] + [cs[i]];
        if WasToggled(config, cs[i]) {
          retry := retry - {cs[i].id};
        }
      }
      assert cs[..|cs|] == cs;
    }
  }

  /** The fold that gives a certificate its jitter. */
  method SumBytes(id: string) returns (sum: nat)
    ensures sum == ByteSum(id)
  {
    sum := 0;
    for i := 0 to |id|
      invariant sum == ByteSum(id[..i])
    {
      sum := sum + id[i] as nat;
      assert id[..i + 1][..i] == id[..i];
    }
    assert id[..|id|] == id;
  }

  /** What one more certificate adds to the index, the holders and the statuses. */
  lemma IndexStep(base: Index, cs: seq<CertificateConfig>, made: map<string, nat>, i: nat)
    requires i < |cs|
    ensures var index, c := Install(base, cs[..i], made), cs[i];
            Install(base, cs[..i + 1], made) == if c.id in made then ReplaceDirect(index, c.id, c.domains, made[c.id]) else index
  {
    assert cs[..i + 1][..i] == cs[..i];
  }

  lemma HolderStep(resolvers: map<string, nat>, cs: seq<CertificateConfig>, reload: set<string>, first: nat, i: nat)
    requires IdsUnique(cs) && i < |cs|
    ensures var made, id := Made(cs, reload, first), cs[i].id;
            var held := resolvers + Made(cs[..i], reload, first);
            && (id in made <==> id in reload)
            && resolvers + Made(cs[..i + 1], reload, first) == if id in made then held[id := made[id]] else held
  {
    MadeAt(cs, reload, first, i);
    MadePrefix(cs, reload, first, i);
    MergeOne(resolvers, Made(cs[..i], reload, first), cs[i].id, first + i);
  }

  lemma StatusStep(statuses: map<string, Status>, cs: seq<CertificateConfig>, reload: set<string>, cache: map<string, Cached>, i: nat)
    requires IdsUnique(cs) && i < |cs|
    ensures var loaded, id := Loaded(cs, reload, cache), cs[i].id;
            var told := statuses + Loaded(cs[..i], reload, cache);
            && (id in loaded <==> id in reload)
            && statuses + Loaded(cs[..i + 1], reload, cache) == if id in loaded then told[id := loaded[id]] else told
  {
    LoadedAt(cs, reload, cache, i);
    LoadedPrefix(cs, reload, cache, i);
    MergeOne(statuses, Loaded(cs[..i], reload, cache), cs[i].id, LoadedStatus(cs[i], CachedFor(cache, cs[i].id)));
  }

  lemma MadeAt(cs: seq<CertificateConfig>, reload: set<string>, first: nat, i: nat)
    requires IdsUnique(cs) && i < |cs|
    ensures Get(Made(cs, reload, first), cs[i].id) == if cs[i].id in reload then Some(first + i) else None
  {
    MadeExactly(cs, reload, first);
  }

  lemma LoadedAt(cs: seq<CertificateConfig>, reload: set<string>, cache: map<string, Cached>, i: nat)
    requires IdsUnique(cs) && i < |cs|
    ensures Get(Loaded(cs, reload, cache), cs[i].id)
         == if cs[i].id in reload then Some(LoadedStatus(cs[i], CachedFor(cache, cs[i].id))) else None
  {
    LoadedExactly(cs, reload, cache);
  }

  lemma MadePrefix(cs: seq<CertificateConfig>, reload: set<string>, first: nat, i: nat)
    requires i < |cs|
    ensures var made := Made(cs[..i], reload, first);
            Made(cs[..i + 1], reload, first) == if cs[i].id in reload then made[cs[i].id := first + i] else made
  {
    assert cs[..i + 1][..i] == cs[..i];
  }

  lemma LoadedPrefix(cs: seq<CertificateConfig>, reload: set<string>, cache: map<string, Cached>, i: nat)
    requires i < |cs|
    ensures var loaded := Loaded(cs[..i], reload, cache);
            Loaded(cs[..i + 1], reload, cache) ==
              if cs[i].id in reload then loaded[cs[i].id := LoadedStatus(cs[i], CachedFor(cache, cs[i].id))] else loaded
  {
    assert cs[..i + 1][..i] == cs[..i];
  }

  lemma FilledPrefix(holders: map<nat, seq<string>>, cs: seq<CertificateConfig>, reload: set<string>, first: nat,
                     cache: map<string, Cached>, i: nat)
    requires i < |cs|
    ensures var filled := holders + Filled(cs[..i], reload, first, cache);
            holders + Filled(cs[..i + 1], reload, first, cache) ==
              if cs[i].id in reload && Usable(CachedFor(cache, cs[i].id)) then filled[first + i := cs[i].domains] else filled
  {
    assert cs[..i + 1][..i] == cs[..i];
  }

  lemma MergeOne<V>(a: map<string, V>, b: map<string, V>, key: string, value: V)
    ensures a + b[key := value] == (a + b)[key := value]
  {
  }

  lemma DropNone(s: State)
    ensures Drop(s, {}) == s
  {
  }

  lemma DropOne(s: State, id: string)
    ensures var t := Drop(s, {id});
            && t.active == s.active - {id} && t.pending == s.pending - {id} && t.retry == s.retry - {id}
            && t.cancelled == s.cancelled + (if id in s.active then {s.active[id]} else {})
  {
  }

  lemma DropMore(s: State, ids: set<string>, id: string)
    ensures Drop(Drop(s, ids), {id}) == Drop(s, ids + {id})
  {
    var t, u := Drop(Drop(s, ids), {id}), Drop(s, ids + {id});
    assert t.active == u.active && t.pending == u.pending && t.retry == u.retry;
    assert t.cancelled == u.cancelled;
  }

  lemma RemoveNone(ix: Index)
    ensures RemoveAll(ix, {}) == ix
  {
  }

  lemma RemoveMore(ix: Index, owners: set<string>, id: string)
    ensures Remove(RemoveAll(ix, owners), id) == RemoveAll(ix, owners + {id})
  {
  }
}
