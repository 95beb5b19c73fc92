/**
The certificate manager's state and operations as values
(crates/gaterust-proxy/src/runtime.rs). Times are in seconds.
*/
module CertificateState {
  import opened Options
  import opened ProxyConfigs
  import opened CertificateRequests
  import opened CertificateIndex

  const MAX_CONCURRENT_ISSUANCE := 4
  const RENEW_BEFORE := 336 * 3600
  const RETRY_BASE := 300
  const RETRY_MAX := 6 * 3600

  datatype Phase = Idle | Issuing | WaitingDns | Deployed | Renewing | Failed | Expired

  datatype Record = Record(name: string, value: string)

  datatype Status = Status(phase: Phase, expiresAt: Option<nat>, lastError: Option<Problem>, records: seq<Record>)

  /** A manual order that waits for its DNS records. */
  datatype Order = Order(request: Request, records: seq<Record>)

  datatype Job = Begin(request: Request) | Continue(order: Order)

  /** What a task returns. `defect` says why a certificate's PEM cannot be used, if so. */
  datatype Outcome =
    | Issued(expiresAt: nat, defect: Option<string>)
    | Waiting(order: Order)
    | NotReady(order: Order, error: string)
    | Unsuccessful(error: string)

  /** A spawned task; it has no outcome while it runs. */
  datatype Task = Task(id: string, job: Job, outcome: Option<Outcome>)

  datatype Retry = Retry(attempts: nat, retryAt: nat)

  /**
  `holders` maps a holder to the domains of the certificate in it. `tasks` are the spawned tasks
  whose output was not handled yet, `cancelled` the generations whose token was cancelled.
  */
  datatype State = State(
    config: Option<ProxyConfig>,
    index: Index, resolvers: map<string, nat>, holders: map<nat, seq<string>>, nextHolder: nat,
    statuses: map<string, Status>,
    active: map<string, nat>, pending: map<string, Order>, retry: map<string, Retry>,
    tasks: map<nat, Task>, cancelled: set<nat>, generation: nat, permits: nat)

  const Initial := State(None, Index(map[], map[]), map[], map[], 0, map[], map[], map[], map[], map[], {}, 0, MAX_CONCURRENT_ISSUANCE)

  /** The clock during one event: the scheduler's reading, and the later readings made when a
      start for some certificate is refused. */
  datatype Clock = Clock(now: nat, later: map<string, nat>)

  function Reading(clock: Clock, id: string): nat {
    if id in clock.later && clock.now <= clock.later[id] then clock.later[id] else clock.now
  }

  function RequestOf(job: Job): Request {
    match job
    case Begin(request) => request
    case Continue(order) => order.request
  }

  // ---- Starting tasks ----

  function Launch(s: State, id: string, job: Job, statuses: map<string, Status>): State
    requires s.permits > 0
  {
    var generation := s.generation + 1;
    s.(pending := s.pending - {id}, generation := generation, permits := s.permits - 1,
       tasks := s.tasks[generation := Task(id, job, None)], active := s.active[id := generation], statuses := statuses)
  }

  function IssueProblem(s: State, id: string): Option<Problem> {
    if id in s.active then Some(Busy)
    else
      match Prepare(s.config, id)
      case Rejected(problem) => Some(problem)
      case Ready(_) => if s.permits == 0 then Some(NoPermit) else None
  }

  function StartIssue(s: State, id: string, renewal: bool): State {
    if IssueProblem(s, id).Some? then s
    else Launch(s, id, Begin(Prepare(s.config, id).request), BegunStatuses(s.statuses, id, renewal))
  }

  function BegunStatuses(statuses: map<string, Status>, id: string, renewal: bool): map<string, Status> {
    if id in statuses
    then statuses[id := statuses[id].(phase := if renewal then Renewing else Issuing, lastError := None, records := [])]
    else statuses
  }

  function ContinueProblem(s: State, id: string): Option<Problem> {
    if id in s.active then Some(Busy)
    else if s.config.None? then Some(NotApplied)
    else if s.permits == 0 then Some(NoPermit)
    else if id !in s.pending then Some(NoOrder)
    else None
  }

  function StartContinue(s: State, id: string): State {
    if ContinueProblem(s, id).Some? then s
    else Launch(s, id, Continue(s.pending[id]), ContinuedStatuses(s.statuses, id))
  }

  function ContinuedStatuses(statuses: map<string, Status>, id: string): map<string, Status> {
    if id in statuses then statuses[id := statuses[id].(phase := Issuing, lastError := None)] else statuses
  }

  // ---- Failures ----

  function Min(a: nat, b: nat): nat {
    if a <= b then a else b
  }

  function Power2(n: nat): nat {
    if n == 0 then 1 else 2 * Power2(n - 1)
  }

  function Delay(attempts: nat): nat {
    Min(RETRY_BASE * Power2(Min(attempts, 6)), RETRY_MAX)
  }

  function ByteSum(id: string): nat {
    if id == "" then 0 else ByteSum(id[..|id| - 1]) + id[|id| - 1] as nat
  }

  function Jitter(id: string): nat {
    ByteSum(id) % 60
  }

  function NextRetry(before: Option<Retry>, id: string, now: nat): Retry {
    var attempts := if before.Some? then before.value.attempts else 0;
    Retry(attempts + 1, now + Delay(attempts) + Jitter(id))
  }

  predicate CanRetry(s: State, id: string) {
    AutoRenewed(s.config, id) && id in s.statuses && s.statuses[id].expiresAt.Some?
  }

  function FailedStatus(status: Status, problem: Problem, now: nat): Status {
    var expired := status.expiresAt.Some? && status.expiresAt.value <= now;
    status.(phase := if expired then Expired else Failed, lastError := Some(problem), records := [])
  }

  function Fail(s: State, id: string, problem: Problem, now: nat): State {
    s.(retry := if CanRetry(s, id) then s.retry[id := NextRetry(Get(s.retry, id), id, now)] else s.retry,
       statuses := if id in s.statuses then s.statuses[id := FailedStatus(s.statuses[id], problem, now)] else s.statuses)
  }

  // ---- Task outputs ----

  function Deploy(s: State, id: string, domains: seq<string>, expiresAt: nat, defect: Option<string>, now: nat): State {
    if id !in s.resolvers then Fail(s, id, NoHolder, now)
    else if defect.Some? then Fail(s, id, Told(defect.value), now)
    else
      s.(holders := s.holders[s.resolvers[id] := domains], retry := s.retry - {id},
         statuses := if id in s.statuses then s.statuses[id := Status(Deployed, Some(expiresAt), None, [])] else s.statuses)
  }

  function Wait(s: State, id: string, order: Order, problem: Option<Problem>): State {
    s.(pending := s.pending[id := order],
       statuses := if id in s.statuses
                   then s.statuses[id := s.statuses[id].(phase := WaitingDns, lastError := problem, records := order.records)]
                   else s.statuses)
  }

  function Conclude(s: State, id: string, request: Request, outcome: Outcome, now: nat): State {
    match outcome
    case Issued(expiresAt, defect) => Deploy(s, id, request.certificate.domains, expiresAt, defect, now)
    case Waiting(order) => Wait(s, id, order, None)
    case NotReady(order, error) => Wait(s, id, order, Some(Told(error)))
    case Unsuccessful(error) => Fail(s, id, Told(error), now)
  }

  /** The task's output is the one the certificate currently waits for. */
  predicate Awaited(active: map<string, nat>, id: string, generation: nat) {
    id in active && active[id] == generation
  }

  /** `handle_task`, for a finished task taken out of the set. */
  function HandleTask(s: State, generation: nat, now: nat): State
    requires generation in s.tasks && s.tasks[generation].outcome.Some?
  {
    var task := s.tasks[generation];
    var joined := s.(tasks := s.tasks - {generation});
    if !Awaited(s.active, task.id, generation) then joined
    else Conclude(joined.(active := s.active - {task.id}), task.id, RequestOf(task.job), task.outcome.value, now)
  }

  /** The task finishes and gives its permit back. */
  function Finish(s: State, generation: nat, outcome: Outcome): State
    requires generation in s.tasks
  {
    s.(tasks := s.tasks[generation := s.tasks[generation].(outcome := Some(outcome))], permits := s.permits + 1)
  }

  /** What `begin_issue`, `verify_manual` and `continue_manual` can return for a job. */
  predicate Possible(job: Job, outcome: Outcome) {
    match job
    case Begin(request) =>
      (match outcome
       case Issued(_, _) => request.certificate.validation.Some? && request.certificate.validation.value.ByDnsAccount?
       case Waiting(order) => order.request == request && request.certificate.validation == Some(Manual)
       case NotReady(_, _) => false
       case Unsuccessful(_) => true)
    case Continue(order) =>
      (match outcome
       case Issued(_, _) => true
       case Waiting(_) => false
       case NotReady(same, _) => same == order
       case Unsuccessful(_) => true)
  }

  // ---- The scheduler ----

  function ExpiredStatus(status: Status, now: nat): Status {
    if status.expiresAt.Some? && status.expiresAt.value <= now && (status.phase == Deployed || status.phase == Failed)
    then status.(phase := Expired) else status
  }

  function Expire(statuses: map<string, Status>, now: nat): map<string, Status> {
    map id | id in statuses :: ExpiredStatus(statuses[id], now)
  }

  predicate RenewalTime(expiresAt: nat, now: nat) {
    (if expiresAt < RENEW_BEFORE then 0 else expiresAt - RENEW_BEFORE) <= now
  }

  predicate RetryReady(retry: map<string, Retry>, id: string, now: nat) {
    id in retry ==> retry[id].retryAt <= now
  }

  predicate IsDue(s: State, c: CertificateConfig, now: nat) {
    && c.autoRenew && c.id in s.statuses && s.statuses[c.id].expiresAt.Some?
    && RenewalTime(s.statuses[c.id].expiresAt.value, now)
    && RetryReady(s.retry, c.id, now) && c.id !in s.active
  }

  function Due(s: State, cs: seq<CertificateConfig>, now: nat): seq<string> {
    if cs == [] then []
    else Due(s, cs[..|cs| - 1], now) + if IsDue(s, cs[|cs| - 1], now) then [cs[|cs| - 1].id] else []
  }

  function Renew(s: State, id: string, clock: Clock): State {
    match IssueProblem(s, id)
    case Some(problem) => Fail(s, id, problem, Reading(clock, id))
    case None => StartIssue(s, id, true)
  }

  function RenewAll(s: State, ids: seq<string>, clock: Clock): State {
    if ids == [] then s else Renew(RenewAll(s, ids[..|ids| - 1], clock), ids[|ids| - 1], clock)
  }

  function ScheduleDue(s: State, clock: Clock): State {
    var expired := s.(statuses := Expire(s.statuses, clock.now));
    if s.config.None? then expired
    else RenewAll(expired, Due(expired, s.config.value.certificates, clock.now), clock)
  }

  // ---- A new configuration ----

  /** What the cache has for a certificate. Both cache formats are used only for the configured
      domains. `readAt` is the clock when the certificate was loaded. */
  datatype Cached = Hit(expiresAt: nat, defect: Option<string>, readAt: nat) | Miss | Unreadable(error: string)

  function CachedFor(cache: map<string, Cached>, id: string): Cached {
    if id in cache then cache[id] else Miss
  }

  function Remembered(error: Option<string>): Option<Problem> {
    match error
    case Some(text) => Some(Told(text))
    case None => None
  }

  function LoadedStatus(c: CertificateConfig, cached: Cached): Status {
    match cached
    case Hit(expiresAt, None, readAt) =>
      Status(if expiresAt <= readAt then Expired else Deployed, Some(expiresAt), Remembered(c.migrationError), [])
    case Hit(expiresAt, Some(defect), _) => Status(Failed, Some(expiresAt), Some(Told(defect)), [])
    case Miss => Status(if c.migrationError.Some? then Failed else Idle, None, Remembered(c.migrationError), [])
    case Unreadable(error) => Status(Failed, None, Some(Told(error)), [])
  }

  predicate Usable(cached: Cached) {
    cached.Hit? && cached.defect.None?
  }

  /** New holders for the reloaded certificates, numbered in configuration order. */
  function Made(cs: seq<CertificateConfig>, reload: set<string>, next: nat): map<string, nat> {
    if cs == [] then map[]
    else
      var made, c := Made(cs[..|cs| - 1], reload, next), cs[|cs| - 1];
      if c.id in reload then made[c.id := next + |cs| - 1] else made
  }

  function Filled(cs: seq<CertificateConfig>, reload: set<string>, next: nat, cache: map<string, Cached>): map<nat, seq<string>> {
    if cs == [] then map[]
    else
      var filled, c := Filled(cs[..|cs| - 1], reload, next, cache), cs[|cs| - 1];
      if c.id in reload && Usable(CachedFor(cache, c.id)) then filled[next + |cs| - 1 := c.domains] else filled
  }

  function Loaded(cs: seq<CertificateConfig>, reload: set<string>, cache: map<string, Cached>): map<string, Status> {
    if cs == [] then map[]
    else
      var loaded, c := Loaded(cs[..|cs| - 1], reload, cache), cs[|cs| - 1];
      if c.id in reload then loaded[c.id := LoadedStatus(c, CachedFor(cache, c.id))] else loaded
  }

  predicate WasToggled(current: Option<ProxyConfig>, c: CertificateConfig) {
    CertificateIn(current, c.id).Some? && CertificateIn(current, c.id).value.autoRenew != c.autoRenew
  }

  function Toggled(current: Option<ProxyConfig>, next: ProxyConfig): set<string> {
    set c | c in next.certificates && WasToggled(current, c) :: c.id
  }

  function Removed(s: State, next: ProxyConfig): set<string> {
    s.resolvers.Keys - CertificateIds(next.certificates)
  }

  /** Drops everything under way for the given certificates. */
  function Drop(s: State, ids: set<string>): State {
    s.(active := s.active - ids, pending := s.pending - ids, retry := s.retry - ids,
       cancelled := s.cancelled + set id | id in s.active && id in ids :: s.active[id])
  }

  function Replace(s: State, next: ProxyConfig, reload: set<string>, removed: set<string>, cache: map<string, Cached>): State {
    var cs := next.certificates;
    var made := Made(cs, reload, s.nextHolder);
    s.(index := Install(RemoveAll(s.index, removed), cs, made),
       resolvers := (s.resolvers - removed) + made,
       holders := s.holders + Filled(cs, reload, s.nextHolder, cache),
       nextHolder := s.nextHolder + |cs|,
       statuses := (s.statuses - removed) + Loaded(cs, reload, cache))
  }

  function Switch(s: State, next: ProxyConfig, cache: map<string, Cached>): State {
    var reload, removed := RequiringReload(s.config, next), Removed(s, next);
    var replaced := Replace(Drop(s, reload + removed), next, reload, removed, cache);
    replaced.(retry := replaced.retry - Toggled(s.config, next), config := Some(next))
  }

  function ApplyConfig(s: State, next: ProxyConfig, cache: map<string, Cached>, clock: Clock): State {
    ScheduleDue(Switch(s, next, cache), clock)
  }
}
