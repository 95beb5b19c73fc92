/**
What every operation of the certificate manager keeps.
*/
module CertificateInvariants {
  import opened Options
  import opened ProxyConfigs
  import opened CertificateRequests
  import opened CertificateIndex
  import opened CertificateState

  function Certificates(config: Option<ProxyConfig>): seq<CertificateConfig> {
    if config.Some? then config.value.certificates else []
  }

  // ---- The invariant ----

  predicate ConfigOk(config: Option<ProxyConfig>) {
    config.Some? ==> Valid(config.value)
  }

  /** Exactly the configured certificates have a holder and a status. */
  predicate KeysOk(config: Option<ProxyConfig>, resolvers: map<string, nat>, statuses: map<string, Status>) {
    resolvers.Keys == CertificateIds(Certificates(config)) && statuses.Keys == resolvers.Keys
  }

  predicate InProgress(phase: Phase) {
    phase == Issuing || phase == Renewing
  }

  predicate PhaseOk(status: Status, busy: bool, order: Option<Order>) {
    && (InProgress(status.phase) <==> busy)
    && (status.phase == WaitingDns <==> order.Some?)
    && (order.Some? ==> status.records == order.value.records)
  }

  /** The status says in progress exactly while a task is active, and waiting exactly while an
      order is pending. */
  predicate PhasesOk(statuses: map<string, Status>, active: map<string, nat>, pending: map<string, Order>) {
    && active.Keys <= statuses.Keys && pending.Keys <= statuses.Keys
    && forall id <- statuses :: PhaseOk(statuses[id], id in active, Get(pending, id))
  }

  /** As `PhasesOk`, except that the status of `id`, which is neither active nor pending, is open. */
  predicate PhasesElse(statuses: map<string, Status>, active: map<string, nat>, pending: map<string, Order>, id: string) {
    && active.Keys <= statuses.Keys && pending.Keys <= statuses.Keys && id !in active && id !in pending
    && forall other <- statuses | other != id :: PhaseOk(statuses[other], other in active, Get(pending, other))
  }

  /** A task's token is cancelled exactly if nobody waits for the task any more. */
  predicate TasksOk(tasks: map<nat, Task>, active: map<string, nat>, cancelled: set<nat>, generation: nat) {
    && (forall g <- tasks :: g <= generation)
    && (forall g <- cancelled :: g <= generation)
    && (forall id <- active :: active[id] in tasks && tasks[active[id]].id == id)
    && (forall g <- tasks :: g in cancelled <==> !Awaited(active, tasks[g].id, g))
  }

  function Running(tasks: map<nat, Task>): set<nat> {
    set g | g in tasks && tasks[g].outcome.None?
  }

  predicate PermitsOk(permits: nat, tasks: map<nat, Task>) {
    permits + |Running(tasks)| == MAX_CONCURRENT_ISSUANCE
  }

  predicate TaskOk(task: Task) {
    && (task.job.Continue? ==> RequestOf(task.job).certificate.validation == Some(Manual))
    && (task.outcome.Some? ==> Possible(task.job, task.outcome.value))
  }

  predicate OutcomesOk(tasks: map<nat, Task>) {
    forall g <- tasks :: TaskOk(tasks[g])
  }

  predicate OrderOk(config: Option<ProxyConfig>, id: string, order: Order) {
    UpToDate(config, id, order.request) && order.request.certificate.validation == Some(Manual)
  }

  predicate OrdersFresh(config: Option<ProxyConfig>, pending: map<string, Order>) {
    forall id <- pending :: OrderOk(config, id, pending[id])
  }

  predicate TasksFresh(config: Option<ProxyConfig>, tasks: map<nat, Task>, active: map<string, nat>) {
    forall id <- active | active[id] in tasks :: UpToDate(config, id, RequestOf(tasks[active[id]].job))
  }

  /** Only auto-renewed certificates with a known expiry have retry state. */
  predicate RetryOk(config: Option<ProxyConfig>, statuses: map<string, Status>, retry: map<string, Retry>) {
    forall id <- retry :: AutoRenewed(config, id) && id in statuses && statuses[id].expiresAt.Some?
  }

  predicate HoldersDistinct(resolvers: map<string, nat>, holders: map<nat, seq<string>>, nextHolder: nat) {
    && (forall id <- resolvers :: resolvers[id] < nextHolder)
    && (forall h <- holders :: h < nextHolder)
    && (forall a <- resolvers, b <- resolvers | a != b :: resolvers[a] != resolvers[b])
  }

  predicate HoldsDomains(config: Option<ProxyConfig>, id: string, domains: seq<string>) {
    CertificateIn(config, id).Some? && CertificateIn(config, id).value.domains == domains
  }

  /** A holder in use holds nothing or a certificate for the domains configured now. */
  predicate HoldersOk(config: Option<ProxyConfig>, resolvers: map<string, nat>, holders: map<nat, seq<string>>) {
    forall id <- resolvers | resolvers[id] in holders :: HoldsDomains(config, id, holders[resolvers[id]])
  }

  predicate DeployedOk(status: Status, resolvers: map<string, nat>, holders: map<nat, seq<string>>, id: string) {
    status.phase == Deployed ==> id in resolvers && resolvers[id] in holders && status.expiresAt.Some?
  }

  /** A certificate reported as valid is really in its holder. */
  predicate ReportsOk(statuses: map<string, Status>, resolvers: map<string, nat>, holders: map<nat, seq<string>>) {
    forall id <- statuses :: DeployedOk(statuses[id], resolvers, holders, id)
  }

  /** The tasks and their permits. */
  predicate Tasked(tasks: map<nat, Task>, active: map<string, nat>, cancelled: set<nat>, generation: nat, permits: nat) {
    TasksOk(tasks, active, cancelled, generation) && PermitsOk(permits, tasks) && OutcomesOk(tasks)
  }

  /** Everything under way was captured from a configuration that says what the current one says. */
  predicate Fresh(config: Option<ProxyConfig>, tasks: map<nat, Task>, active: map<string, nat>, pending: map<string, Order>) {
    TasksFresh(config, tasks, active) && OrdersFresh(config, pending)
  }

  /** The index and the holders follow the configuration. */
  ghost predicate Served(config: Option<ProxyConfig>, index: Index, resolvers: map<string, nat>,
                         holders: map<nat, seq<string>>, nextHolder: nat) {
    && Matches(index, Certificates(config), resolvers)
    && HoldersDistinct(resolvers, holders, nextHolder)
    && HoldersOk(config, resolvers, holders)
  }

  predicate Reported(config: Option<ProxyConfig>, resolvers: map<string, nat>, holders: map<nat, seq<string>>,
                     statuses: map<string, Status>, retry: map<string, Retry>) {
    KeysOk(config, resolvers, statuses) && ReportsOk(statuses, resolvers, holders) && RetryOk(config, statuses, retry)
  }

  /** The part of the invariant about work under way. */
  predicate Orderly(s: State) {
    && Reported(s.config, s.resolvers, s.holders, s.statuses, s.retry)
    && Tasked(s.tasks, s.active, s.cancelled, s.generation, s.permits)
    && Fresh(s.config, s.tasks, s.active, s.pending)
    && PhasesOk(s.statuses, s.active, s.pending)
  }

  predicate OrderlyElse(s: State, id: string) {
    && Reported(s.config, s.resolvers, s.holders, s.statuses, s.retry)
    && Tasked(s.tasks, s.active, s.cancelled, s.generation, s.permits)
    && Fresh(s.config, s.tasks, s.active, s.pending)
    && PhasesElse(s.statuses, s.active, s.pending, id)
  }

  ghost predicate Inv(s: State) {
    && Orderly(s)
    && ConfigOk(s.config)
    && Served(s.config, s.index, s.resolvers, s.holders, s.nextHolder)
  }

  lemma InitialInv()
    ensures Inv(Initial)
  {
    assert Running(map[]) == {};
  }

  /** No certificate is active and pending at once. */
  lemma NeverBoth(statuses: map<string, Status>, active: map<string, nat>, pending: map<string, Order>, id: string)
    requires PhasesOk(statuses, active, pending)
    ensures !(id in active && id in pending)
  {
    assert id in statuses ==> PhaseOk(statuses[id], id in active, Get(pending, id));
  }

  /** A certificate with a pending order is validated by hand, so it is never renewed by itself. */
  lemma PendingIsManual(config: Option<ProxyConfig>, pending: map<string, Order>, id: string)
    requires ConfigOk(config) && OrdersFresh(config, pending) && id in pending
    ensures !AutoRenewed(config, id)
  {
    assert OrderOk(config, id, pending[id]);
    FindCertificateFinds(config.value.certificates, id);
    assert CertificateOk(CertificateIn(config, id).value, AcmeIds(config.value), DnsIds(config.value));
  }

  /** Changing one status keeps the reports honest. */
  lemma ReportSet(config: Option<ProxyConfig>, resolvers: map<string, nat>, holders: map<nat, seq<string>>,
                  statuses: map<string, Status>, retry: map<string, Retry>, id: string, status: Status)
    requires Reported(config, resolvers, holders, statuses, retry) && id in statuses
    requires DeployedOk(status, resolvers, holders, id) && (id in retry ==> status.expiresAt.Some?)
    ensures Reported(config, resolvers, holders, statuses[id := status], retry)
  {
    assert statuses[id := status].Keys == statuses.Keys;
  }

  lemma PhaseSet(statuses: map<string, Status>, active: map<string, nat>, pending: map<string, Order>, id: string, status: Status)
    requires PhasesElse(statuses, active, pending, id) && id in statuses && PhaseOk(status, false, None)
    ensures PhasesOk(statuses[id := status], active, pending)
  {
  }

  // ---- Starting ----

  lemma RunningAdd(tasks: map<nat, Task>, g: nat, task: Task)
    requires g !in tasks && task.outcome.None?
    ensures |Running(tasks[g := task])| == |Running(tasks)| + 1
  {
    assert Running(tasks[g := task]) == Running(tasks) + {g};
  }

  lemma AddTask(tasks: map<nat, Task>, active: map<string, nat>, cancelled: set<nat>, generation: nat, permits: nat,
                id: string, task: Task)
    requires Tasked(tasks, active, cancelled, generation, permits) && permits > 0 && id !in active
    requires TaskOk(task) && task.id == id && task.outcome.None?
    ensures var g := generation + 1;
            Tasked(tasks[g := task], active[id := g], cancelled, g, permits - 1)
  {
    RunningAdd(tasks, generation + 1, task);
  }

  lemma AddFresh(config: Option<ProxyConfig>, tasks: map<nat, Task>, active: map<string, nat>, pending: map<string, Order>,
                 id: string, g: nat, task: Task)
    requires Fresh(config, tasks, active, pending) && g !in tasks && UpToDate(config, id, RequestOf(task.job))
    requires forall other <- active :: active[other] in tasks
    ensures Fresh(config, tasks[g := task], active[id := g], pending - {id})
  {
  }

  lemma LaunchKeeps(s: State, id: string, job: Job, status: Status)
    requires Orderly(s) && s.permits > 0 && id !in s.active && id in s.statuses
    requires TaskOk(Task(id, job, None)) && UpToDate(s.config, id, RequestOf(job))
    requires InProgress(status.phase) && status.expiresAt == s.statuses[id].expiresAt
    ensures Orderly(Launch(s, id, job, s.statuses[id := status]))
  {
    LaunchWork(s, id, job, s.statuses[id := status]);
    LaunchPhases(s, id, job, status);
    LaunchReports(s, id, job, status);
  }

  lemma LaunchPhases(s: State, id: string, job: Job, status: Status)
    requires PhasesOk(s.statuses, s.active, s.pending) && s.permits > 0 && id in s.statuses && InProgress(status.phase)
    ensures var t := Launch(s, id, job, s.statuses[id := status]); PhasesOk(t.statuses, t.active, t.pending)
  {
  }

  lemma LaunchReports(s: State, id: string, job: Job, status: Status)
    requires Reported(s.config, s.resolvers, s.holders, s.statuses, s.retry) && s.permits > 0 && id in s.statuses
    requires InProgress(status.phase) && status.expiresAt == s.statuses[id].expiresAt
    ensures var t := Launch(s, id, job, s.statuses[id := status]);
            Reported(t.config, t.resolvers, t.holders, t.statuses, t.retry)
  {
    ReportSet(s.config, s.resolvers, s.holders, s.statuses, s.retry, id, status);
  }

  lemma LaunchWork(s: State, id: string, job: Job, statuses: map<string, Status>)
    requires Tasked(s.tasks, s.active, s.cancelled, s.generation, s.permits) && s.permits > 0 && id !in s.active
    requires Fresh(s.config, s.tasks, s.active, s.pending)
    requires TaskOk(Task(id, job, None)) && UpToDate(s.config, id, RequestOf(job))
    ensures var t := Launch(s, id, job, statuses);
            && Tasked(t.tasks, t.active, t.cancelled, t.generation, t.permits)
            && Fresh(t.config, t.tasks, t.active, t.pending)
  {
    AddTask(s.tasks, s.active, s.cancelled, s.generation, s.permits, id, Task(id, job, None));
    AddFresh(s.config, s.tasks, s.active, s.pending, id, s.generation + 1, Task(id, job, None));
  }

  lemma ConfiguredHasStatus(s: State, id: string)
    requires KeysOk(s.config, s.resolvers, s.statuses)
    ensures CertificateIn(s.config, id).Some? <==> id in s.statuses
  {
    FindCertificateFinds(Certificates(s.config), id);
  }

  lemma StartIssueKeeps(s: State, id: string, renewal: bool)
    requires Orderly(s)
    ensures Orderly(StartIssue(s, id, renewal))
  {
    if IssueProblem(s, id).None? {
      PreparedUpToDate(s.config, id);
      ConfiguredHasStatus(s, id);
      LaunchKeeps(s, id, Begin(Prepare(s.config, id).request), BegunStatuses(s.statuses, id, renewal)[id]);
    }
  }

  lemma PendingOrder(config: Option<ProxyConfig>, pending: map<string, Order>, id: string)
    requires OrdersFresh(config, pending) && id in pending
    ensures UpToDate(config, id, pending[id].request) && TaskOk(Task(id, Continue(pending[id]), None))
  {
    assert OrderOk(config, id, pending[id]);
  }

  lemma StartContinueKeeps(s: State, id: string)
    requires Orderly(s)
    ensures Orderly(StartContinue(s, id))
  {
    if ContinueProblem(s, id).None? {
      PendingOrder(s.config, s.pending, id);
      LaunchKeeps(s, id, Continue(s.pending[id]), ContinuedStatuses(s.statuses, id)[id]);
    }
  }

  // ---- Concluding ----

  lemma RetrySet(config: Option<ProxyConfig>, resolvers: map<string, nat>, holders: map<nat, seq<string>>,
                 statuses: map<string, Status>, retry: map<string, Retry>, id: string, state: Retry)
    requires Reported(config, resolvers, holders, statuses, retry)
    requires AutoRenewed(config, id) && id in statuses && statuses[id].expiresAt.Some?
    ensures Reported(config, resolvers, holders, statuses, retry[id := state])
  {
  }

  lemma FailKeeps(s: State, id: string, problem: Problem, now: nat)
    requires OrderlyElse(s, id)
    ensures Orderly(Fail(s, id, problem, now))
  {
    if id in s.statuses {
      PhaseSet(s.statuses, s.active, s.pending, id, FailedStatus(s.statuses[id], problem, now));
      FailReports(s, id, problem, now);
    }
  }

  lemma FailedReported(s: State, id: string, problem: Problem, now: nat)
    requires Reported(s.config, s.resolvers, s.holders, s.statuses, s.retry) && id in s.statuses
    ensures Reported(s.config, s.resolvers, s.holders, s.statuses[id := FailedStatus(s.statuses[id], problem, now)], s.retry)
  {
    ReportSet(s.config, s.resolvers, s.holders, s.statuses, s.retry, id, FailedStatus(s.statuses[id], problem, now));
  }

  lemma FailReports(s: State, id: string, problem: Problem, now: nat)
    requires Reported(s.config, s.resolvers, s.holders, s.statuses, s.retry) && id in s.statuses
    ensures var t := Fail(s, id, problem, now); Reported(t.config, t.resolvers, t.holders, t.statuses, t.retry)
  {
    FailedReported(s, id, problem, now);
    if CanRetry(s, id) {
      var statuses := s.statuses[id := FailedStatus(s.statuses[id], problem, now)];
      RetrySet(s.config, s.resolvers, s.holders, statuses, s.retry, id, NextRetry(Get(s.retry, id), id, now));
    }
  }

  lemma HolderReported(config: Option<ProxyConfig>, resolvers: map<string, nat>, holders: map<nat, seq<string>>,
                       statuses: map<string, Status>, retry: map<string, Retry>, id: string, domains: seq<string>)
    requires Reported(config, resolvers, holders, statuses, retry) && id in resolvers
    ensures Reported(config, resolvers, holders[resolvers[id] := domains], statuses, retry - {id})
  {
  }

  lemma DeployKeeps(s: State, id: string, domains: seq<string>, expiresAt: nat, defect: Option<string>, now: nat)
    requires OrderlyElse(s, id) && HoldsDomains(s.config, id, domains)
    ensures Orderly(Deploy(s, id, domains, expiresAt, defect, now))
  {
    if id !in s.resolvers {
      FailKeeps(s, id, NoHolder, now);
    } else if defect.Some? {
      FailKeeps(s, id, Told(defect.value), now);
    } else {
      var holders, status := s.holders[s.resolvers[id] := domains], Status(Deployed, Some(expiresAt), None, []);
      HolderReported(s.config, s.resolvers, s.holders, s.statuses, s.retry, id, domains);
      ReportSet(s.config, s.resolvers, holders, s.statuses, s.retry - {id}, id, status);
      PhaseSet(s.statuses, s.active, s.pending, id, status);
    }
  }

  lemma AddOrder(config: Option<ProxyConfig>, tasks: map<nat, Task>, active: map<string, nat>, pending: map<string, Order>,
                 id: string, order: Order)
    requires Fresh(config, tasks, active, pending) && OrderOk(config, id, order)
    ensures Fresh(config, tasks, active, pending[id := order])
  {
  }

  lemma WaitingPhase(statuses: map<string, Status>, active: map<string, nat>, pending: map<string, Order>,
                     id: string, order: Order, status: Status)
    requires PhasesElse(statuses, active, pending, id) && id in statuses && PhaseOk(status, false, Some(order))
    ensures PhasesOk(statuses[id := status], active, pending[id := order])
  {
  }

  lemma WaitKeeps(s: State, id: string, order: Order, problem: Option<Problem>)
    requires OrderlyElse(s, id) && OrderOk(s.config, id, order) && id in s.statuses
    ensures Orderly(Wait(s, id, order, problem))
  {
    var status := s.statuses[id].(phase := WaitingDns, lastError := problem, records := order.records);
    AddOrder(s.config, s.tasks, s.active, s.pending, id, order);
    ReportSet(s.config, s.resolvers, s.holders, s.statuses, s.retry, id, status);
    WaitingPhase(s.statuses, s.active, s.pending, id, order, status);
  }

  lemma ConcludeKeeps(s: State, id: string, job: Job, outcome: Outcome, now: nat)
    requires OrderlyElse(s, id) && id in s.statuses && UpToDate(s.config, id, RequestOf(job)) && TaskOk(Task(id, job, Some(outcome)))
    ensures Orderly(Conclude(s, id, RequestOf(job), outcome, now))
  {
    match outcome
    case Issued(expiresAt, defect) => DeployKeeps(s, id, RequestOf(job).certificate.domains, expiresAt, defect, now);
    case Waiting(order) => WaitKeeps(s, id, order, None);
    case NotReady(order, error) => WaitKeeps(s, id, order, Some(Told(error)));
    case Unsuccessful(error) => FailKeeps(s, id, Told(error), now);
  }

  lemma TakeTask(tasks: map<nat, Task>, active: map<string, nat>, cancelled: set<nat>, generation: nat, permits: nat, g: nat)
    requires Tasked(tasks, active, cancelled, generation, permits) && g in tasks && tasks[g].outcome.Some?
    ensures var left := if Awaited(active, tasks[g].id, g) then active - {tasks[g].id} else active;
            Tasked(tasks - {g}, left, cancelled, generation, permits)
  {
    assert Running(tasks - {g}) == Running(tasks);
    var left := if Awaited(active, tasks[g].id, g) then active - {tasks[g].id} else active;
    forall id | id in left ensures left[id] in tasks - {g} {
      assert left[id] in tasks && tasks[left[id]].id == id;
    }
  }

  lemma FreshShrinks(config: Option<ProxyConfig>, tasks: map<nat, Task>, active: map<string, nat>, pending: map<string, Order>,
                     g: nat, ids: set<string>)
    requires Fresh(config, tasks, active, pending)
    ensures Fresh(config, tasks - {g}, active - ids, pending)
  {
  }

  lemma LeftPhases(statuses: map<string, Status>, active: map<string, nat>, pending: map<string, Order>, id: string)
    requires PhasesOk(statuses, active, pending) && id in active
    ensures PhasesElse(statuses, active - {id}, pending, id)
  {
    NeverBoth(statuses, active, pending, id);
  }

  lemma HandleTaskKeeps(s: State, g: nat, now: nat)
    requires Orderly(s) && g in s.tasks && s.tasks[g].outcome.Some?
    ensures Orderly(HandleTask(s, g, now))
  {
    var task := s.tasks[g];
    if Awaited(s.active, task.id, g) {
      AwaitedTask(s.config, s.tasks, s.active, task.id, g);
      LeftOrderly(s, g);
      ConcludeKeeps(s.(tasks := s.tasks - {g}, active := s.active - {task.id}), task.id, task.job, task.outcome.value, now);
    } else {
      UnawaitedOrderly(s, g);
    }
  }

  lemma UnawaitedOrderly(s: State, g: nat)
    requires Orderly(s) && g in s.tasks && s.tasks[g].outcome.Some? && !Awaited(s.active, s.tasks[g].id, g)
    ensures Orderly(s.(tasks := s.tasks - {g}))
  {
    TakeTask(s.tasks, s.active, s.cancelled, s.generation, s.permits, g);
    FreshWithout(s.config, s.tasks, s.active, s.pending, g);
  }

  lemma FreshWithout(config: Option<ProxyConfig>, tasks: map<nat, Task>, active: map<string, nat>, pending: map<string, Order>, g: nat)
    requires Fresh(config, tasks, active, pending)
    ensures Fresh(config, tasks - {g}, active, pending)
  {
  }

  lemma LeftOrderly(s: State, g: nat)
    requires Orderly(s) && g in s.tasks && s.tasks[g].outcome.Some? && Awaited(s.active, s.tasks[g].id, g)
    ensures var id := s.tasks[g].id;
            OrderlyElse(s.(tasks := s.tasks - {g}, active := s.active - {id}), id) && id in s.statuses
  {
    TakeTask(s.tasks, s.active, s.cancelled, s.generation, s.permits, g);
    FreshShrinks(s.config, s.tasks, s.active, s.pending, g, {s.tasks[g].id});
    LeftPhases(s.statuses, s.active, s.pending, s.tasks[g].id);
  }

  lemma AwaitedTask(config: Option<ProxyConfig>, tasks: map<nat, Task>, active: map<string, nat>, id: string, g: nat)
    requires Awaited(active, id, g) && g in tasks && tasks[g].id == id && OutcomesOk(tasks) && TasksFresh(config, tasks, active)
    ensures TaskOk(Task(id, tasks[g].job, tasks[g].outcome)) && UpToDate(config, id, RequestOf(tasks[g].job))
  {
    assert TaskOk(tasks[g]);
  }

  lemma FinishTask(tasks: map<nat, Task>, active: map<string, nat>, cancelled: set<nat>, generation: nat, permits: nat,
                   g: nat, outcome: Outcome)
    requires Tasked(tasks, active, cancelled, generation, permits) && g in tasks && tasks[g].outcome.None?
    requires Possible(tasks[g].job, outcome)
    ensures Tasked(tasks[g := tasks[g].(outcome := Some(outcome))], active, cancelled, generation, permits + 1)
  {
    var finished := tasks[g := tasks[g].(outcome := Some(outcome))];
    assert TaskOk(tasks[g]) && TaskOk(finished[g]);
    assert Running(tasks) == Running(finished) + {g};
  }

  lemma FinishFresh(config: Option<ProxyConfig>, tasks: map<nat, Task>, active: map<string, nat>, pending: map<string, Order>,
                    g: nat, outcome: Outcome)
    requires Fresh(config, tasks, active, pending) && g in tasks
    ensures Fresh(config, tasks[g := tasks[g].(outcome := Some(outcome))], active, pending)
  {
  }

  lemma FinishKeeps(s: State, g: nat, outcome: Outcome)
    requires Orderly(s) && g in s.tasks && s.tasks[g].outcome.None? && Possible(s.tasks[g].job, outcome)
    ensures Orderly(Finish(s, g, outcome))
  {
    FinishTask(s.tasks, s.active, s.cancelled, s.generation, s.permits, g, outcome);
    FinishFresh(s.config, s.tasks, s.active, s.pending, g, outcome);
  }

  // ---- Serving ----

  /** Only deploying and switching configurations touch what handshakes see. */
  predicate SameServing(s: State, t: State) {
    t.config == s.config && t.index == s.index && t.resolvers == s.resolvers && t.holders == s.holders && t.nextHolder == s.nextHolder
  }

  lemma HolderFilled(config: Option<ProxyConfig>, index: Index, resolvers: map<string, nat>,
                     holders: map<nat, seq<string>>, nextHolder: nat, id: string, domains: seq<string>)
    requires Served(config, index, resolvers, holders, nextHolder) && id in resolvers && HoldsDomains(config, id, domains)
    ensures Served(config, index, resolvers, holders[resolvers[id] := domains], nextHolder)
  {
  }

  lemma FailServes(s: State, id: string, problem: Problem, now: nat)
    ensures SameServing(s, Fail(s, id, problem, now))
  {
  }

  lemma StartIssueServes(s: State, id: string, renewal: bool)
    ensures SameServing(s, StartIssue(s, id, renewal))
  {
  }

  /** A task output changes what handshakes see only by a certificate for the requested domains. */
  lemma ConcludeServes(s: State, id: string, request: Request, outcome: Outcome, now: nat)
    ensures var t := Conclude(s, id, request, outcome, now);
            || SameServing(s, t)
            || (id in s.resolvers && SameServing(s.(holders := s.holders[s.resolvers[id] := request.certificate.domains]), t))
  {
    match outcome
    case Issued(_, defect) =>
      if id !in s.resolvers {
        FailServes(s, id, NoHolder, now);
      } else if defect.Some? {
        FailServes(s, id, Told(defect.value), now);
      }
    case Waiting(_) =>
    case NotReady(_, _) =>
    case Unsuccessful(error) => FailServes(s, id, Told(error), now);
  }

  lemma HandleTaskServed(s: State, g: nat, now: nat)
    requires g in s.tasks && s.tasks[g].outcome.Some? && TasksFresh(s.config, s.tasks, s.active)
    requires Served(s.config, s.index, s.resolvers, s.holders, s.nextHolder)
    ensures var t := HandleTask(s, g, now);
            t.config == s.config && Served(t.config, t.index, t.resolvers, t.holders, t.nextHolder)
  {
    var task := s.tasks[g];
    if Awaited(s.active, task.id, g) {
      var request := RequestOf(task.job);
      assert UpToDate(s.config, task.id, request);
      ConcludeServes(s.(tasks := s.tasks - {g}, active := s.active - {task.id}), task.id, request, task.outcome.value, now);
      if task.id in s.resolvers {
        HolderFilled(s.config, s.index, s.resolvers, s.holders, s.nextHolder, task.id, request.certificate.domains);
      }
    }
  }

  // ---- The scheduler ----

  lemma ExpireReported(config: Option<ProxyConfig>, resolvers: map<string, nat>, holders: map<nat, seq<string>>,
                       statuses: map<string, Status>, retry: map<string, Retry>, now: nat)
    requires Reported(config, resolvers, holders, statuses, retry)
    ensures Reported(config, resolvers, holders, Expire(statuses, now), retry)
  {
    var expired := Expire(statuses, now);
    assert expired.Keys == statuses.Keys;
    forall id | id in expired ensures DeployedOk(expired[id], resolvers, holders, id) {
      assert DeployedOk(statuses[id], resolvers, holders, id);
    }
  }

  lemma ExpirePhases(statuses: map<string, Status>, active: map<string, nat>, pending: map<string, Order>, now: nat)
    requires PhasesOk(statuses, active, pending)
    ensures PhasesOk(Expire(statuses, now), active, pending)
  {
    var expired := Expire(statuses, now);
    assert expired.Keys == statuses.Keys;
    forall id | id in expired ensures PhaseOk(expired[id], id in active, Get(pending, id)) {
      assert PhaseOk(statuses[id], id in active, Get(pending, id));
    }
  }

  lemma ExpireKeeps(s: State, now: nat)
    requires Orderly(s)
    ensures Orderly(s.(statuses := Expire(s.statuses, now)))
  {
    ExpireReported(s.config, s.resolvers, s.holders, s.statuses, s.retry, now);
    ExpirePhases(s.statuses, s.active, s.pending, now);
  }

  /** What renewing some certificates leaves alone. */
  predicate Elsewhere(s: State, t: State, id: string) {
    && Get(t.active, id) == Get(s.active, id)
    && Get(t.retry, id) == Get(s.retry, id)
    && Get(t.statuses, id) == Get(s.statuses, id)
  }

  lemma RenewKeeps(s: State, id: string, clock: Clock)
    requires Orderly(s) && ConfigOk(s.config) && id !in s.active && AutoRenewed(s.config, id)
    ensures Orderly(Renew(s, id, clock))
  {
    if id in s.pending {
      PendingIsManual(s.config, s.pending, id);
    }
    if IssueProblem(s, id).Some? {
      FailKeeps(s, id, IssueProblem(s, id).value, Reading(clock, id));
    } else {
      StartIssueKeeps(s, id, true);
    }
  }

  lemma FailElsewhere(s: State, id: string, problem: Problem, now: nat, other: string)
    requires other != id
    ensures Elsewhere(s, Fail(s, id, problem, now), other)
  {
  }

  lemma StartIssueElsewhere(s: State, id: string, other: string)
    requires other != id
    ensures Elsewhere(s, StartIssue(s, id, true), other)
  {
  }

  lemma RenewElsewhere(s: State, id: string, clock: Clock, other: string)
    ensures other != id ==> Elsewhere(s, Renew(s, id, clock), other)
    ensures SameServing(s, Renew(s, id, clock))
  {
    match IssueProblem(s, id) {
      case Some(problem) =>
        FailServes(s, id, problem, Reading(clock, id));
        if other != id {
          FailElsewhere(s, id, problem, Reading(clock, id), other);
        }
      case None =>
        StartIssueServes(s, id, true);
        if other != id {
          StartIssueElsewhere(s, id, other);
        }
    }
  }

  lemma {:induction false} RenewAllElsewhere(s: State, ids: seq<string>, clock: Clock, other: string)
    ensures SameServing(s, RenewAll(s, ids, clock))
    ensures other !in ids ==> Elsewhere(s, RenewAll(s, ids, clock), other)
  {
    if ids != [] {
      var init, last := ids[..|ids| - 1], ids[|ids| - 1];
      RenewAllElsewhere(s, init, clock, other);
      assert ids == init + [last];
      RenewElsewhere(RenewAll(s, init, clock), last, clock, other);
    }
  }

  lemma {:induction false} RenewAllKeeps(s: State, ids: seq<string>, clock: Clock)
    requires Orderly(s) && ConfigOk(s.config) && NoRepeats(ids)
    requires forall id <- ids :: id !in s.active && AutoRenewed(s.config, id)
    ensures Orderly(RenewAll(s, ids, clock))
  {
    if ids != [] {
      var init, last := ids[..|ids| - 1], ids[|ids| - 1];
      RenewAllKeeps(s, init, clock);
      RenewAllElsewhere(s, init, clock, last);
      assert last in ids && Get(s.active, last) == None;
      RenewKeeps(RenewAll(s, init, clock), last, clock);
    }
  }

  lemma {:induction false} DueExactly(s: State, cs: seq<CertificateConfig>, now: nat)
    requires IdsUnique(cs)
    ensures NoRepeats(Due(s, cs, now))
    ensures forall id :: id in Due(s, cs, now) <==> exists c <- cs :: c.id == id && IsDue(s, c, now)
  {
    if cs != [] {
      var init, last := cs[..|cs| - 1], cs[|cs| - 1];
      DueExactly(s, init, now);
      assert cs == init + [last];
      assert last.id !in Due(s, init, now);
    }
  }

  lemma DueIsAutoRenewed(s: State, now: nat, id: string)
    requires s.config.Some? && Valid(s.config.value) && id in Due(s, s.config.value.certificates, now)
    ensures AutoRenewed(s.config, id) && IsDue(s, CertificateIn(s.config, id).value, now)
    ensures CertificateIn(s.config, id).value.id == id
  {
    DueExactly(s, s.config.value.certificates, now);
    var c :| c in s.config.value.certificates && c.id == id && IsDue(s, c, now);
    FindIsTheOne(s.config.value.certificates, c);
  }

  lemma ScheduleDueKeeps(s: State, clock: Clock)
    requires Orderly(s) && ConfigOk(s.config)
    ensures Orderly(ScheduleDue(s, clock))
  {
    var expired := s.(statuses := Expire(s.statuses, clock.now));
    ExpireKeeps(s, clock.now);
    if s.config.Some? {
      var due := Due(expired, s.config.value.certificates, clock.now);
      DueExactly(expired, s.config.value.certificates, clock.now);
      forall id | id in due ensures id !in expired.active && AutoRenewed(expired.config, id) {
        DueIsAutoRenewed(expired, clock.now, id);
      }
      RenewAllKeeps(expired, due, clock);
    }
  }

  lemma ScheduleDueServed(s: State, clock: Clock)
    ensures SameServing(s, ScheduleDue(s, clock))
  {
    var expired := s.(statuses := Expire(s.statuses, clock.now));
    if s.config.Some? {
      RenewAllElsewhere(expired, Due(expired, s.config.value.certificates, clock.now), clock, "");
    }
  }
}
