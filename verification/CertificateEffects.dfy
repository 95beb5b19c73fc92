/**
What each event does to the certificate it is about, and that it leaves the others alone, in every
run of the certificate manager (crates/gaterust-proxy/src/runtime.rs).
*/
module CertificateEffects {
  import opened Options
  import opened ProxyConfigs
  import opened CertificateRequests
  import opened CertificateIndex
  import opened CertificateState
  import opened CertificateInvariants
  import opened CertificateSwitch
  import opened CertificateRuns
  import opened CertificateRenewal

  /** Everything about a certificate is as before. */
  predicate Untouched(s: State, t: State, id: string) {
    && Get(t.statuses, id) == Get(s.statuses, id) && Get(t.active, id) == Get(s.active, id)
    && Get(t.pending, id) == Get(s.pending, id) && Get(t.retry, id) == Get(s.retry, id)
    && Get(t.resolvers, id) == Get(s.resolvers, id)
    && (id in s.resolvers ==> Get(t.holders, s.resolvers[id]) == Get(s.holders, s.resolvers[id]))
  }

  // ---- Task outputs ----

  /** The certificate is in its holder, valid until `expiresAt`, and nothing is left to do. */
  predicate Installed(s: State, t: State, id: string, expiresAt: nat) {
    && CertificateIn(s.config, id).Some? && id in s.resolvers
    && t.holders == s.holders[s.resolvers[id] := CertificateIn(s.config, id).value.domains]
    && Get(t.statuses, id) == Some(Status(Deployed, Some(expiresAt), None, []))
    && id !in t.retry && id !in t.pending
  }

  /** The failure is reported, as expired if the certificate has run out by now; what is installed
      and when it expires stays. */
  predicate Reports(s: State, t: State, id: string, problem: Problem, now: nat) {
    && t.holders == s.holders && id in s.statuses && id in t.statuses && id !in t.pending
    && var before, after := s.statuses[id], t.statuses[id];
       && after.expiresAt == before.expiresAt && after.lastError == Some(problem) && after.records == []
       && (after.phase == Expired <==> before.expiresAt.Some? && before.expiresAt.value <= now)
       && (after.phase == Failed <==> before.expiresAt.None? || before.expiresAt.value > now)
  }

  /** The order waits, and the records it needs are shown. */
  predicate Waits(s: State, t: State, id: string, order: Order, problem: Option<Problem>) {
    && t.holders == s.holders && id in s.statuses && Get(t.pending, id) == Some(order)
    && Get(t.statuses, id) == Some(Status(WaitingDns, s.statuses[id].expiresAt, problem, order.records))
    && Get(t.retry, id) == Get(s.retry, id)
  }

  /** What the outcome of an awaited task means. */
  predicate Concludes(s: State, t: State, id: string, outcome: Outcome, now: nat) {
    match outcome
    case Issued(expiresAt, None) => Installed(s, t, id, expiresAt)
    case Issued(_, Some(defect)) => Reports(s, t, id, Told(defect), now)
    case Waiting(order) => Waits(s, t, id, order, None)
    case NotReady(order, error) => Waits(s, t, id, order, Some(Told(error)))
    case Unsuccessful(error) => Reports(s, t, id, Told(error), now)
  }

  lemma FailEffect(s: State, id: string, problem: Problem, now: nat)
    requires id in s.statuses && id !in s.pending
    ensures Reports(s, Fail(s, id, problem, now), id, problem, now)
  {
  }

  lemma ConcludeEffect(s: State, id: string, request: Request, outcome: Outcome, now: nat)
    requires id in s.statuses && id in s.resolvers && id !in s.pending && HoldsDomains(s.config, id, request.certificate.domains)
    ensures Concludes(s, Conclude(s, id, request, outcome, now), id, outcome, now)
  {
    match outcome
    case Issued(_, Some(defect)) => FailEffect(s, id, Told(defect), now);
    case Unsuccessful(error) => FailEffect(s, id, Told(error), now);
    case _ =>
  }

  lemma FailUntouched(s: State, id: string, problem: Problem, now: nat, other: string)
    requires other != id
    ensures Untouched(s, Fail(s, id, problem, now), other)
  {
  }

  lemma ConcludeUntouched(s: State, id: string, request: Request, outcome: Outcome, now: nat, other: string)
    requires other != id && (id in s.resolvers && other in s.resolvers ==> s.resolvers[id] != s.resolvers[other])
    ensures Untouched(s, Conclude(s, id, request, outcome, now), other)
  {
    match outcome
    case Issued(_, defect) =>
      if id !in s.resolvers {
        FailUntouched(s, id, NoHolder, now, other);
      } else if defect.Some? {
        FailUntouched(s, id, Told(defect.value), now, other);
      }
    case Unsuccessful(error) => FailUntouched(s, id, Told(error), now, other);
    case _ =>
  }

  /**
  In every run, when the output of an awaited task is handled, its certificate is not active any
  more, the task is gone, and: an issued certificate is installed for the domains configured now
  and reported valid until its expiry, with no error and no retry left; a manual order waits with
  its records shown; a failure is reported. Every other certificate is untouched.
  */
  lemma OutputsConclude(events: seq<Event>, g: nat, now: nat, other: string)
    requires var s := Run(events); Enabled(s, Joins(g, now)) && Awaited(s.active, s.tasks[g].id, g)
    ensures var s, t := Run(events), Do(Run(events), Joins(g, now));
            var id := s.tasks[g].id;
            && id !in t.active && t.tasks == s.tasks - {g}
            && Concludes(s, t, id, s.tasks[g].outcome.value, now)
            && (other != id ==> Untouched(s, t, other))
  {
    RunKeepsInv(events);
    OutputFrom(Run(events), g, now, other);
  }

  /** The certificate's task taken out, before its outcome is dealt with. */
  function Taken(s: State, g: nat): State
    requires g in s.tasks
  {
    s.(tasks := s.tasks - {g}, active := s.active - {s.tasks[g].id})
  }

  predicate OutputReady(s: State, g: nat) {
    g in s.tasks && s.tasks[g].outcome.Some? && Awaited(s.active, s.tasks[g].id, g)
  }

  lemma HandledIs(s: State, g: nat, now: nat)
    requires OutputReady(s, g)
    ensures HandleTask(s, g, now) == Conclude(Taken(s, g), s.tasks[g].id, RequestOf(s.tasks[g].job), s.tasks[g].outcome.value, now)
  {
  }

  lemma OutputFrom(s: State, g: nat, now: nat, other: string)
    requires Orderly(s) && HoldersDistinct(s.resolvers, s.holders, s.nextHolder) && OutputReady(s, g)
    ensures var t, id := HandleTask(s, g, now), s.tasks[g].id;
            && id !in t.active && t.tasks == s.tasks - {g}
            && Concludes(s, t, id, s.tasks[g].outcome.value, now)
            && (other != id ==> Untouched(s, t, other))
  {
    HandledIs(s, g, now);
    OutputWork(s, g, now);
    OutputMeans(s, g, now);
    if other != s.tasks[g].id {
      OutputOthers(s, g, now, other);
    }
  }

  lemma OutputWork(s: State, g: nat, now: nat)
    requires OutputReady(s, g)
    ensures var t := Conclude(Taken(s, g), s.tasks[g].id, RequestOf(s.tasks[g].job), s.tasks[g].outcome.value, now);
            s.tasks[g].id !in t.active && t.tasks == s.tasks - {g}
  {
    ConcludeWork(Taken(s, g), s.tasks[g].id, RequestOf(s.tasks[g].job), s.tasks[g].outcome.value, now);
  }

  lemma OutputMeans(s: State, g: nat, now: nat)
    requires OutputReady(s, g) && TasksFresh(s.config, s.tasks, s.active) && KeysOk(s.config, s.resolvers, s.statuses)
    requires PhasesOk(s.statuses, s.active, s.pending) && OutcomesOk(s.tasks)
    ensures var t := Conclude(Taken(s, g), s.tasks[g].id, RequestOf(s.tasks[g].job), s.tasks[g].outcome.value, now);
            Concludes(s, t, s.tasks[g].id, s.tasks[g].outcome.value, now)
  {
    var task, left := s.tasks[g], Taken(s, g);
    AwaitedTask(s.config, s.tasks, s.active, task.id, g);
    NeverBoth(s.statuses, s.active, s.pending, task.id);
    ConcludeEffect(left, task.id, RequestOf(task.job), task.outcome.value, now);
    ConcludesFrom(s, left, Conclude(left, task.id, RequestOf(task.job), task.outcome.value, now), task.id, task.outcome.value, now);
  }

  lemma OutputOthers(s: State, g: nat, now: nat, other: string)
    requires OutputReady(s, g) && HoldersDistinct(s.resolvers, s.holders, s.nextHolder) && other != s.tasks[g].id
    ensures var t := Conclude(Taken(s, g), s.tasks[g].id, RequestOf(s.tasks[g].job), s.tasks[g].outcome.value, now);
            Untouched(s, t, other)
  {
    ConcludeUntouched(Taken(s, g), s.tasks[g].id, RequestOf(s.tasks[g].job), s.tasks[g].outcome.value, now, other);
    assert Untouched(s, Taken(s, g), other);
  }

  lemma ConcludesFrom(s: State, left: State, t: State, id: string, outcome: Outcome, now: nat)
    requires Concludes(left, t, id, outcome, now)
    requires left == s.(tasks := left.tasks, active := left.active)
    ensures Concludes(s, t, id, outcome, now)
  {
  }

  lemma ConcludeWork(s: State, id: string, request: Request, outcome: Outcome, now: nat)
    ensures var t := Conclude(s, id, request, outcome, now); t.active == s.active && t.tasks == s.tasks
  {
    match outcome
    case Issued(_, defect) =>
      if id !in s.resolvers {
        FailWork(s, id, NoHolder, now);
      } else if defect.Some? {
        FailWork(s, id, Told(defect.value), now);
      }
    case Unsuccessful(error) => FailWork(s, id, Told(error), now);
    case _ =>
  }

  lemma FailWork(s: State, id: string, problem: Problem, now: nat)
    ensures var t := Fail(s, id, problem, now); t.active == s.active && t.tasks == s.tasks
  {
  }

  // ---- Commands ----

  /** A task of generation `g` has started for the certificate. */
  predicate Starts(s: State, t: State, id: string, job: Job, phase: Phase) {
    var g := s.generation + 1;
    && t.generation == g && g !in s.tasks
    && t.tasks == s.tasks[g := Task(id, job, None)] && t.active == s.active[id := g] && id !in t.pending
    && id in s.statuses && id in t.statuses
    && t.statuses[id].phase == phase && t.statuses[id].lastError == None
    && t.statuses[id].expiresAt == s.statuses[id].expiresAt
    && t.permits == s.permits - 1 && SameServing(s, t) && t.retry == s.retry && t.cancelled == s.cancelled
  }

  lemma LaunchStarts(s: State, id: string, job: Job, status: Status)
    requires s.permits > 0 && TasksOk(s.tasks, s.active, s.cancelled, s.generation) && id in s.statuses
    requires status.lastError == None && status.expiresAt == s.statuses[id].expiresAt
    ensures var t := Launch(s, id, job, s.statuses[id := status]);
            Starts(s, t, id, job, status.phase) && forall other: string | other != id :: Untouched(s, t, other)
  {
  }

  /** In every run an issue command that meets no problem starts exactly one task, with a request
      that says what the configuration says, reports the certificate as being issued, and touches
      no other; one that meets a problem changes nothing. */
  lemma IssueStarts(events: seq<Event>, id: string, other: string)
    ensures var s, t := Run(events), Do(Run(events), Issues(id));
            if IssueProblem(s, id).None? then
              && Prepare(s.config, id).Ready? && UpToDate(s.config, id, Prepare(s.config, id).request)
              && Starts(s, t, id, Begin(Prepare(s.config, id).request), Issuing) && t.statuses[id].records == []
              && (other != id ==> Untouched(s, t, other))
            else t == s
  {
    RunKeepsInv(events);
    IssueFrom(Run(events), id, other);
  }

  lemma IssueFrom(s: State, id: string, other: string)
    requires TasksOk(s.tasks, s.active, s.cancelled, s.generation) && KeysOk(s.config, s.resolvers, s.statuses)
    ensures var t := StartIssue(s, id, false);
            if IssueProblem(s, id).None? then
              && Prepare(s.config, id).Ready? && UpToDate(s.config, id, Prepare(s.config, id).request)
              && Starts(s, t, id, Begin(Prepare(s.config, id).request), Issuing) && t.statuses[id].records == []
              && (other != id ==> Untouched(s, t, other))
            else t == s
  {
    if IssueProblem(s, id).None? {
      PreparedUpToDate(s.config, id);
      ConfiguredHasStatus(s, id);
      LaunchStarts(s, id, Begin(Prepare(s.config, id).request), s.statuses[id].(phase := Issuing, lastError := None, records := []));
    }
  }

  /** In every run a continue command that meets no problem starts exactly one task, with the order
      that was pending, and touches no other certificate; one that meets a problem changes nothing. */
  lemma ContinueStarts(events: seq<Event>, id: string, other: string)
    ensures var s, t := Run(events), Do(Run(events), Continues(id));
            if ContinueProblem(s, id).None? then
              && id in s.pending && Starts(s, t, id, Continue(s.pending[id]), Issuing)
              && (other != id ==> Untouched(s, t, other))
            else t == s
  {
    RunKeepsInv(events);
    ContinueFrom(Run(events), id, other);
  }

  lemma ContinueFrom(s: State, id: string, other: string)
    requires TasksOk(s.tasks, s.active, s.cancelled, s.generation) && PhasesOk(s.statuses, s.active, s.pending)
    ensures var t := StartContinue(s, id);
            if ContinueProblem(s, id).None? then
              && id in s.pending && Starts(s, t, id, Continue(s.pending[id]), Issuing)
              && (other != id ==> Untouched(s, t, other))
            else t == s
  {
    if ContinueProblem(s, id).None? {
      LaunchStarts(s, id, Continue(s.pending[id]), s.statuses[id].(phase := Issuing, lastError := None));
    }
  }

  /** In every run a task that returns gives back its permit and keeps its result for the manager;
      nothing else changes. */
  lemma FinishGivesBack(events: seq<Event>, g: nat, outcome: Outcome)
    requires Enabled(Run(events), Finishes(g, outcome))
    ensures var s, t := Run(events), Do(Run(events), Finishes(g, outcome));
            && t == s.(tasks := t.tasks, permits := s.permits + 1)
            && |Running(t.tasks)| + 1 == |Running(s.tasks)|
            && g in t.tasks && t.tasks[g] == s.tasks[g].(outcome := Some(outcome)) && t.tasks - {g} == s.tasks - {g}
  {
    FinishFrom(Run(events), g, outcome);
  }

  lemma FinishFrom(s: State, g: nat, outcome: Outcome)
    requires g in s.tasks && s.tasks[g].outcome.None?
    ensures var t := Finish(s, g, outcome);
            && t == s.(tasks := t.tasks, permits := s.permits + 1)
            && |Running(t.tasks)| + 1 == |Running(s.tasks)|
            && g in t.tasks && t.tasks[g] == s.tasks[g].(outcome := Some(outcome)) && t.tasks - {g} == s.tasks - {g}
  {
    assert Running(s.tasks) == Running(Finish(s, g, outcome).tasks) + {g};
  }

  // ---- The scheduler ----

  /** The status is as before, except that a valid or failed certificate that has run out is now
      reported as expired. */
  predicate Aged(before: Status, after: Status, now: nat) {
    if (before.phase == Deployed || before.phase == Failed) && before.expiresAt.Some? && before.expiresAt.value <= now
    then after == before.(phase := Expired)
    else after == before
  }

  lemma RenewKeepsExpiry(s: State, id: string, clock: Clock, other: string)
    ensures var t := Renew(s, id, clock);
            && (other in t.statuses <==> other in s.statuses)
            && (other in s.statuses ==> t.statuses[other].expiresAt == s.statuses[other].expiresAt)
            && (other != id ==> Get(t.pending, other) == Get(s.pending, other))
  {
    match IssueProblem(s, id)
    case Some(problem) => FailKeepsExpiry(s, id, problem, Reading(clock, id), other);
    case None => StartKeepsExpiry(s, id, other);
  }

  lemma FailKeepsExpiry(s: State, id: string, problem: Problem, now: nat, other: string)
    ensures var t := Fail(s, id, problem, now);
            && (other in t.statuses <==> other in s.statuses) && t.pending == s.pending
            && (other in s.statuses ==> t.statuses[other].expiresAt == s.statuses[other].expiresAt)
  {
  }

  lemma StartKeepsExpiry(s: State, id: string, other: string)
    ensures var t := StartIssue(s, id, true);
            && (other in t.statuses <==> other in s.statuses)
            && (other in s.statuses ==> t.statuses[other].expiresAt == s.statuses[other].expiresAt)
            && (other != id ==> Get(t.pending, other) == Get(s.pending, other))
  {
  }

  lemma {:induction false} RenewAllKeepsExpiry(s: State, ids: seq<string>, clock: Clock, other: string)
    ensures var t := RenewAll(s, ids, clock);
            && (other in t.statuses <==> other in s.statuses)
            && (other in s.statuses ==> t.statuses[other].expiresAt == s.statuses[other].expiresAt)
            && (other !in ids ==> Get(t.pending, other) == Get(s.pending, other))
  {
    if ids != [] {
      RenewAllKeepsExpiry(s, ids[..|ids| - 1], clock, other);
      RenewKeepsExpiry(RenewAll(s, ids[..|ids| - 1], clock), ids[|ids| - 1], clock, other);
      assert ids == ids[..|ids| - 1] + [ids[|ids| - 1]];
    }
  }

  /** One pass of the scheduler: nobody's certificate or expiry changes; a certificate that is not
      due is untouched but for its age; one that is due is attended to. */
  lemma ScheduleExactly(s: State, clock: Clock, id: string)
    requires ConfigOk(s.config)
    ensures var t := ScheduleDue(s, clock);
            && SameServing(s, t) && (id in t.statuses <==> id in s.statuses)
            && (id in s.statuses ==> t.statuses[id].expiresAt == s.statuses[id].expiresAt)
            && (if IdDue(s, id, clock.now) then Attended(t, id, clock.now)
                else
                  && Get(t.active, id) == Get(s.active, id) && Get(t.retry, id) == Get(s.retry, id)
                  && Get(t.pending, id) == Get(s.pending, id)
                  && (id in s.statuses ==> Aged(s.statuses[id], t.statuses[id], clock.now)))
  {
    var expired := s.(statuses := Expire(s.statuses, clock.now));
    SchedulerServesExactly(s, clock, id);
    ScheduleDueServed(s, clock);
    if s.config.Some? {
      var due := Due(expired, s.config.value.certificates, clock.now);
      DueMeansIdDue(expired, clock.now, id);
      FindCertificateFinds(s.config.value.certificates, id);
      RenewAllKeepsExpiry(expired, due, clock, id);
      RenewAllElsewhere(expired, due, clock, id);
      assert IdDue(expired, id, clock.now) == IdDue(s, id, clock.now);
    }
  }

  /** The state the scheduler of a tick or of a new configuration starts from. */
  function Scheduled(s: State, e: Event): State
    requires e.Ticks? || e.Applies?
  {
    if e.Ticks? then s else Switch(s, e.config, e.cache)
  }

  /** An auto-renewed certificate within 14 days of its known expiry. */
  predicate Renewable(t: State, id: string, now: nat) {
    CanRetry(t, id) && t.statuses[id].expiresAt.value <= now + 14 * 24 * 3600
  }

  /**
  In every run, after every tick and every new configuration: nothing that has run out is reported
  as valid or failed; an auto-renewed certificate within 14 days of its expiry has a task under way
  or a next attempt ahead; and whatever renewal was started is of such a certificate.
  */
  lemma RenewalsOnTime(events: seq<Event>, e: Event, id: string)
    requires e.Ticks? || (e.Applies? && Valid(e.config))
    ensures var t := Do(Run(events), e);
            && NoneOverdue(t.statuses, Now(e))
            && (Renewable(t, id, Now(e)) ==> UnderWay(t, id, Now(e)))
            && (StartsByItself(Run(events), e, id) ==> Renewable(t, id, Now(e)))
  {
    RunConfigOk(events);
    OnTimeFrom(Run(events), e, id);
  }

  lemma OnTimeFrom(s: State, e: Event, id: string)
    requires ConfigOk(s.config) && (e.Ticks? || (e.Applies? && Valid(e.config)))
    ensures var t := Do(s, e);
            && NoneOverdue(t.statuses, Now(e))
            && (Renewable(t, id, Now(e)) ==> UnderWay(t, id, Now(e)))
            && (StartsByItself(s, e, id) ==> Renewable(t, id, Now(e)))
  {
    ScheduleOnTime(Scheduled(s, e), e.clock, id);
    if e.Applies? {
      SwitchActive(s, e.config, e.cache, id);
    }
  }

  lemma ScheduleOnTime(base: State, clock: Clock, id: string)
    requires ConfigOk(base.config)
    ensures var t := ScheduleDue(base, clock);
            && NoneOverdue(t.statuses, clock.now)
            && (Renewable(t, id, clock.now) ==> UnderWay(t, id, clock.now))
            && (Get(t.active, id) != Get(base.active, id) ==> Renewable(t, id, clock.now))
  {
    ElapsedMarkedExpired(base, clock);
    ScheduleExactly(base, clock, id);
    assert CanRetry(ScheduleDue(base, clock), id) <==> CanRetry(base, id);
    if Renewable(base, id, clock.now) {
      WithinTwoWeeks(base, clock, id);
    }
    if IdDue(base, id, clock.now) {
      DueIsRenewable(base, id, clock.now);
    }
  }

  lemma DueIsRenewable(s: State, id: string, now: nat)
    requires IdDue(s, id, now)
    ensures Renewable(s, id, now)
  {
    FindCertificateFinds(s.config.value.certificates, id);
  }

  // ---- A new configuration ----

  /** A certificate loaded anew: its holder is new and holds a certificate for its domains exactly if
      the cache had a usable one. */
  predicate FilledFromCache(s: State, t: State, c: CertificateConfig, cached: Cached) {
    && c.id in t.resolvers && s.nextHolder <= t.resolvers[c.id] < t.nextHolder
    && Get(t.holders, t.resolvers[c.id]) == if cached.Hit? && cached.defect.None? then Some(c.domains) else None
  }

  /** What is reported of a certificate loaded anew. */
  predicate LoadedAs(c: CertificateConfig, cached: Cached, status: Status) {
    && status.records == []
    && status.expiresAt == (if cached.Hit? then Some(cached.expiresAt) else None)
    && (status.phase == Deployed <==> cached.Hit? && cached.defect.None? && cached.readAt < cached.expiresAt)
    && (status.phase == Expired <==> cached.Hit? && cached.defect.None? && cached.expiresAt <= cached.readAt)
    && (status.phase == Idle <==> cached.Miss? && c.migrationError.None?)
    && (status.phase == Failed <==>
          (cached.Hit? && cached.defect.Some?) || cached.Unreadable? || (cached.Miss? && c.migrationError.Some?))
    && status.lastError ==
         (if cached.Hit? && cached.defect.Some? then Some(Told(cached.defect.value))
          else if cached.Unreadable? then Some(Told(cached.error))
          else if c.migrationError.Some? then Some(Told(c.migrationError.value)) else None)
  }

  lemma LoadedStatusMeans(c: CertificateConfig, cached: Cached)
    ensures LoadedAs(c, cached, LoadedStatus(c, cached))
  {
  }

  /** The switch itself, before the scheduler runs: a certificate whose settings changed is loaded
      anew and has no work and no retry state; one whose settings did not is as before, except that
      toggling its renewal forgets its retry state; one that is gone is gone. */
  lemma SwitchExactly(s: State, next: ProxyConfig, cache: map<string, Cached>, id: string)
    requires KeysOk(s.config, s.resolvers, s.statuses) && IdsUnique(next.certificates)
    requires HoldersDistinct(s.resolvers, s.holders, s.nextHolder)
    ensures var t := Switch(s, next, cache);
            t.config == Some(next) &&
            if CertificateIn(Some(next), id).None? then
              id !in t.statuses && id !in t.resolvers && (id in s.resolvers ==> id !in t.active && id !in t.pending && id !in t.retry)
            else if RuntimeIn(s.config, id) != RuntimeIn(Some(next), id) then
              && FilledFromCache(s, t, CertificateIn(Some(next), id).value, CachedFor(cache, id))
              && id in t.statuses && LoadedAs(CertificateIn(Some(next), id).value, CachedFor(cache, id), t.statuses[id])
              && id !in t.active && id !in t.pending && id !in t.retry
            else
              && Get(t.statuses, id) == Get(s.statuses, id) && Get(t.active, id) == Get(s.active, id)
              && Get(t.pending, id) == Get(s.pending, id) && Get(t.resolvers, id) == Get(s.resolvers, id)
              && (id in s.resolvers ==> Get(t.holders, s.resolvers[id]) == Get(s.holders, s.resolvers[id]))
              && Get(t.retry, id) == if AutoRenewed(s.config, id) != AutoRenewed(Some(next), id) then None else Get(s.retry, id)
  {
    if CertificateIn(Some(next), id).None? {
      SwitchDrops(s, next, cache, id);
    } else if RuntimeIn(s.config, id) != RuntimeIn(Some(next), id) {
      SwitchLoads(s, next, cache, id);
    } else {
      SwitchLeaves(s, next, cache, id);
    }
  }

  lemma SwitchDrops(s: State, next: ProxyConfig, cache: map<string, Cached>, id: string)
    requires KeysOk(s.config, s.resolvers, s.statuses) && IdsUnique(next.certificates) && CertificateIn(Some(next), id).None?
    ensures var t := Switch(s, next, cache);
            id !in t.statuses && id !in t.resolvers && (id in s.resolvers ==> id !in t.active && id !in t.pending && id !in t.retry)
  {
    FindCertificateFinds(next.certificates, id);
    WorkAfterSwitch(s, next, cache, id);
    SwitchKeys(s, next, cache);
  }

  lemma SwitchLoads(s: State, next: ProxyConfig, cache: map<string, Cached>, id: string)
    requires IdsUnique(next.certificates) && HoldersDistinct(s.resolvers, s.holders, s.nextHolder)
    requires CertificateIn(Some(next), id).Some? && RuntimeIn(s.config, id) != RuntimeIn(Some(next), id)
    ensures var t := Switch(s, next, cache);
            && FilledFromCache(s, t, CertificateIn(Some(next), id).value, CachedFor(cache, id))
            && id in t.statuses && LoadedAs(CertificateIn(Some(next), id).value, CachedFor(cache, id), t.statuses[id])
            && id !in t.active && id !in t.pending && id !in t.retry
  {
    ReloadsExactly(s.config, next, id);
    WorkAfterSwitch(s, next, cache, id);
    var i := ReloadedEntries(s, next, cache, id);
    LoadedStatusMeans(next.certificates[i], CachedFor(cache, id));
  }

  lemma SwitchLeaves(s: State, next: ProxyConfig, cache: map<string, Cached>, id: string)
    requires KeysOk(s.config, s.resolvers, s.statuses) && IdsUnique(next.certificates)
    requires HoldersDistinct(s.resolvers, s.holders, s.nextHolder)
    requires CertificateIn(Some(next), id).Some? && RuntimeIn(s.config, id) == RuntimeIn(Some(next), id)
    ensures var t := Switch(s, next, cache);
            && Get(t.statuses, id) == Get(s.statuses, id) && Get(t.active, id) == Get(s.active, id)
            && Get(t.pending, id) == Get(s.pending, id) && Get(t.resolvers, id) == Get(s.resolvers, id)
            && (id in s.resolvers ==> Get(t.holders, s.resolvers[id]) == Get(s.holders, s.resolvers[id]))
            && Get(t.retry, id) == if AutoRenewed(s.config, id) != AutoRenewed(Some(next), id) then None else Get(s.retry, id)
  {
    IsKept(s, next, id);
    WorkAfterSwitch(s, next, cache, id);
    KeptEntries(s, next, cache, id);
    ToggledExactly(s.config, next, id);
    SwitchRetries(s, next, cache, id);
  }

  lemma IsKept(s: State, next: ProxyConfig, id: string)
    requires KeysOk(s.config, s.resolvers, s.statuses) && IdsUnique(next.certificates)
    requires CertificateIn(Some(next), id).Some? && RuntimeIn(s.config, id) == RuntimeIn(Some(next), id)
    ensures Kept(s, next, id) && id in s.statuses
  {
    ReloadsExactly(s.config, next, id);
    FindCertificateFinds(next.certificates, id);
    FindCertificateFinds(Certificates(s.config), id);
  }

  /**
  In every run, after a configuration is applied: a certificate whose settings changed has a new
  holder, filled exactly if the cache had a usable certificate, and the cache's expiry; one whose
  settings did not change keeps its holder, what is in it and its expiry; one that is not configured
  any more has neither holder nor status.
  */
  lemma ApplyLoads(events: seq<Event>, next: ProxyConfig, cache: map<string, Cached>, clock: Clock, id: string)
    requires Valid(next)
    ensures var s, t := Run(events), Do(Run(events), Applies(next, cache, clock));
            if CertificateIn(Some(next), id).None? then id !in t.statuses && id !in t.resolvers
            else
              && id in t.statuses
              && if RuntimeIn(s.config, id) != RuntimeIn(Some(next), id) then
                   && FilledFromCache(s, t, CertificateIn(Some(next), id).value, CachedFor(cache, id))
                   && t.statuses[id].expiresAt == if CachedFor(cache, id).Hit? then Some(CachedFor(cache, id).expiresAt) else None
                 else
                   && id in s.resolvers && id in s.statuses && Get(t.resolvers, id) == Get(s.resolvers, id)
                   && Get(t.holders, s.resolvers[id]) == Get(s.holders, s.resolvers[id])
                   && t.statuses[id].expiresAt == s.statuses[id].expiresAt
  {
    RunKeepsInv(events);
    ApplyFrom(Run(events), next, cache, clock, id);
  }

  lemma ApplyFrom(s: State, next: ProxyConfig, cache: map<string, Cached>, clock: Clock, id: string)
    requires KeysOk(s.config, s.resolvers, s.statuses) && Valid(next)
    requires HoldersDistinct(s.resolvers, s.holders, s.nextHolder)
    ensures var t := ApplyConfig(s, next, cache, clock);
            if CertificateIn(Some(next), id).None? then id !in t.statuses && id !in t.resolvers
            else
              && id in t.statuses
              && if RuntimeIn(s.config, id) != RuntimeIn(Some(next), id) then
                   && FilledFromCache(s, t, CertificateIn(Some(next), id).value, CachedFor(cache, id))
                   && t.statuses[id].expiresAt == if CachedFor(cache, id).Hit? then Some(CachedFor(cache, id).expiresAt) else None
                 else
                   && id in s.resolvers && id in s.statuses && Get(t.resolvers, id) == Get(s.resolvers, id)
                   && Get(t.holders, s.resolvers[id]) == Get(s.holders, s.resolvers[id])
                   && t.statuses[id].expiresAt == s.statuses[id].expiresAt
  {
    SwitchExactly(s, next, cache, id);
    ScheduleExactly(Switch(s, next, cache), clock, id);
    ConfiguredHasStatus(s, id);
  }
}
