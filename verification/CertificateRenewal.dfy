/**
When the certificate manager renews by itself (crates/gaterust-proxy/src/runtime.rs, `fail` and
`schedule_due`).
*/
module CertificateRenewal {
  import opened Options
  import opened ProxyConfigs
  import opened CertificateRequests
  import opened CertificateState
  import opened CertificateInvariants
  import opened CertificateRuns

  // ---- Delays ----

  lemma {:induction false} Power2Grows(a: nat, b: nat)
    requires a <= b
    ensures 1 <= Power2(a) <= Power2(b)
  {
    if a < b {
      Power2Grows(a, b - 1);
    } else if a > 0 {
      Power2Grows(a - 1, a - 1);
    }
  }

  /** The delay doubles six times and then stays; the six-hour cap never applies. */
  lemma DelayExact(attempts: nat)
    ensures Delay(attempts) == 300 * Power2(Min(attempts, 6)) < RETRY_MAX
    ensures 300 <= Delay(attempts) <= 19200
  {
    Power2Grows(Min(attempts, 6), 6);
    assert Power2(6) == 64;
  }

  lemma DelayGrows(a: nat, b: nat)
    requires a <= b
    ensures Delay(a) <= Delay(b)
  {
    DelayExact(a);
    DelayExact(b);
    Power2Grows(Min(a, 6), Min(b, 6));
  }

  // ---- One pass of the scheduler ----

  /** The retry state after one more failure. */
  predicate FailedOnce(before: Option<Retry>, after: Option<Retry>, id: string, now: nat) {
    after == Some(NextRetry(before, id, now))
  }

  predicate RetryStep(before: Option<Retry>, after: Option<Retry>, id: string, now: nat) {
    after == before || FailedOnce(before, after, id, now)
  }

  lemma RenewRetry(s: State, id: string, clock: Clock)
    ensures RetryStep(Get(s.retry, id), Get(Renew(s, id, clock).retry, id), id, Reading(clock, id))
  {
  }

  lemma {:induction false} RenewAllRetry(s: State, ids: seq<string>, clock: Clock, id: string)
    requires NoRepeats(ids)
    ensures RetryStep(Get(s.retry, id), Get(RenewAll(s, ids, clock).retry, id), id, Reading(clock, id))
  {
    if ids != [] {
      var init, last := ids[..|ids| - 1], ids[|ids| - 1];
      if id == last {
        RenewAllElsewhere(s, init, clock, id);
        RenewRetry(RenewAll(s, init, clock), id, clock);
      } else {
        RenewAllRetry(s, init, clock, id);
        RenewElsewhere(RenewAll(s, init, clock), last, clock, id);
      }
    }
  }

  lemma ScheduleRetry(s: State, clock: Clock, id: string)
    requires ConfigOk(s.config)
    ensures RetryStep(Get(s.retry, id), Get(ScheduleDue(s, clock).retry, id), id, Reading(clock, id))
  {
    var expired := s.(statuses := Expire(s.statuses, clock.now));
    if s.config.Some? {
      DueExactly(expired, s.config.value.certificates, clock.now);
      RenewAllRetry(expired, Due(expired, s.config.value.certificates, clock.now), clock, id);
    }
  }

  /** The scheduler starts nothing before its retry time. */
  lemma ScheduleStartsReady(s: State, clock: Clock, id: string)
    requires ConfigOk(s.config) && Get(ScheduleDue(s, clock).active, id) != Get(s.active, id)
    ensures RetryReady(s.retry, id, clock.now)
  {
    var expired := s.(statuses := Expire(s.statuses, clock.now));
    if s.config.Some? {
      var due := Due(expired, s.config.value.certificates, clock.now);
      RenewAllElsewhere(expired, due, clock, id);
      if id in due {
        DueIsAutoRenewed(expired, clock.now, id);
      }
    }
  }

  // ---- One event ----

  /** The event deploys, reloads or removes the certificate or toggles its renewal. */
  predicate Resets(s: State, e: Event, id: string) {
    match e
    case Applies(config, _, _) =>
      id in RequiringReload(s.config, config) || id in Removed(s, config) || id in Toggled(s.config, config)
    case Joins(g, _) => Deploys(s, g, id)
    case _ => false
  }

  predicate Deploys(s: State, g: nat, id: string) {
    && g in s.tasks && s.tasks[g].id == id && Awaited(s.active, id, g) && id in s.resolvers
    && s.tasks[g].outcome.Some? && s.tasks[g].outcome.value.Issued? && s.tasks[g].outcome.value.defect.None?
  }

  predicate ReadsClock(e: Event) {
    e.Applies? || e.Joins? || e.Ticks?
  }

  /** The clock when the event begins. */
  function Now(e: Event): nat {
    match e
    case Applies(_, _, clock) => clock.now
    case Ticks(clock) => clock.now
    case Joins(_, now) => now
    case _ => 0
  }

  /** The clock when the event records a failure of the certificate. */
  function FailTime(e: Event, id: string): nat {
    match e
    case Applies(_, _, clock) => Reading(clock, id)
    case Ticks(clock) => Reading(clock, id)
    case Joins(_, now) => now
    case _ => 0
  }

  lemma FailRetry(s: State, id: string, problem: Problem, now: nat, other: string)
    ensures RetryStep(Get(s.retry, other), Get(Fail(s, id, problem, now).retry, other), other, now)
  {
  }

  lemma ConcludeRetry(s: State, id: string, request: Request, outcome: Outcome, now: nat, other: string)
    requires !(other == id && outcome.Issued? && outcome.defect.None? && id in s.resolvers)
    ensures RetryStep(Get(s.retry, other), Get(Conclude(s, id, request, outcome, now).retry, other), other, now)
  {
    match outcome
    case Issued(_, defect) =>
      if id !in s.resolvers {
        FailRetry(s, id, NoHolder, now, other);
      } else if defect.Some? {
        FailRetry(s, id, Told(defect.value), now, other);
      }
    case Waiting(_) =>
    case NotReady(_, _) =>
    case Unsuccessful(error) => FailRetry(s, id, Told(error), now, other);
  }

  lemma JoinRetry(s: State, g: nat, now: nat, id: string)
    requires g in s.tasks && s.tasks[g].outcome.Some? && !Deploys(s, g, id)
    ensures RetryStep(Get(s.retry, id), Get(HandleTask(s, g, now).retry, id), id, now)
  {
    var task := s.tasks[g];
    if Awaited(s.active, task.id, g) {
      ConcludeRetry(s.(tasks := s.tasks - {g}, active := s.active - {task.id}), task.id, RequestOf(task.job),
                    task.outcome.value, now, id);
    }
  }

  lemma SwitchRetries(s: State, next: ProxyConfig, cache: map<string, Cached>, id: string)
    ensures var t := Switch(s, next, cache);
            Get(t.retry, id) ==
              if id in RequiringReload(s.config, next) || id in Removed(s, next) || id in Toggled(s.config, next)
              then None else Get(s.retry, id)
  {
    var gone := RequiringReload(s.config, next) + Removed(s, next);
    assert Switch(s, next, cache).retry == s.retry - gone - Toggled(s.config, next);
  }

  lemma SwitchActive(s: State, next: ProxyConfig, cache: map<string, Cached>, id: string)
    ensures var t := Switch(s, next, cache); Get(t.active, id) == None || Get(t.active, id) == Get(s.active, id)
  {
    assert Switch(s, next, cache).active == s.active - (RequiringReload(s.config, next) + Removed(s, next));
  }

  /** Unless the event resets it, the retry state stays or records one more failure; after a reset
      it is gone or records a first failure. */
  lemma EventRetry(s: State, e: Event, id: string)
    requires ConfigOk(s.config)
    ensures var after := Get(Do(s, e).retry, id);
            if Enabled(s, e) && Resets(s, e, id) then after == None || FailedOnce(None, after, id, FailTime(e, id))
            else after == Get(s.retry, id) || (ReadsClock(e) && FailedOnce(Get(s.retry, id), after, id, FailTime(e, id)))
  {
    if Enabled(s, e) {
      match e {
        case Applies(config, cache, clock) =>
          SwitchRetries(s, config, cache, id);
          ScheduleRetry(Switch(s, config, cache), clock, id);
        case Joins(g, now) =>
          if Deploys(s, g, id) {
            DeployRetry(s, g, now, id);
          } else {
            JoinRetry(s, g, now, id);
          }
        case Ticks(clock) =>
          ScheduleRetry(s, clock, id);
        case _ =>
      }
    }
  }

  lemma DeployRetry(s: State, g: nat, now: nat, id: string)
    requires Deploys(s, g, id)
    ensures Get(HandleTask(s, g, now).retry, id) == None
  {
  }

  // ---- Spacing over runs ----

  /** Readings never go back from one event to a later one. */
  ghost predicate ClockRuns(events: seq<Event>) {
    forall i, j, id | 0 <= i < j < |events| && ReadsClock(events[i]) && ReadsClock(events[j]) ::
      FailTime(events[i], id) <= Now(events[j])
  }

  /** The event records a failure of the certificate in its retry state. */
  predicate RecordsFailure(s: State, e: Event, id: string) {
    id in Do(s, e).retry && Get(Do(s, e).retry, id) != Get(s.retry, id)
  }

  /** The event starts a renewal of the certificate without being asked to. */
  predicate StartsByItself(s: State, e: Event, id: string) {
    && (e.Applies? || e.Ticks?)
    && id in Do(s, e).active && Get(Do(s, e).active, id) != Get(s.active, id)
  }

  lemma StartsWhenReady(s: State, e: Event, id: string)
    requires ConfigOk(s.config) && StartsByItself(s, e, id) && !Resets(s, e, id)
    ensures RetryReady(s.retry, id, Now(e))
  {
    if e.Ticks? {
      ScheduleStartsReady(s, e.clock, id);
    } else if Valid(e.config) {
      var switched := Switch(s, e.config, e.cache);
      SwitchActive(s, e.config, e.cache, id);
      SwitchRetries(s, e.config, e.cache, id);
      ScheduleStartsReady(switched, e.clock, id);
    }
  }

  /** The certificate has failed more than `k` times in a row and is not retried before `at`. */
  predicate HeldBack(s: State, id: string, k: nat, at: nat) {
    id in s.retry && s.retry[id].attempts > k && s.retry[id].retryAt >= at
  }

  lemma EventHoldsBack(s: State, e: Event, id: string, k: nat, failedAt: nat)
    requires ConfigOk(s.config) && HeldBack(s, id, k, failedAt + Delay(k)) && !Resets(s, e, id)
    requires ReadsClock(e) ==> failedAt <= FailTime(e, id)
    ensures HeldBack(Do(s, e), id, k, failedAt + Delay(k))
  {
    EventRetry(s, e, id);
    DelayGrows(k, s.retry[id].attempts);
  }

  lemma NowBeforeFailTime(e: Event, id: string)
    ensures Now(e) <= FailTime(e, id)
  {
  }

  function Before(events: seq<Event>, i: nat): State
    requires i <= |events|
  {
    Run(events[..i])
  }

  predicate HeldBackAt(events: seq<Event>, i: nat, id: string, k: nat, at: nat)
    requires i <= |events|
  {
    HeldBack(Before(events, i), id, k, at)
  }

  lemma BeforeNext(events: seq<Event>, i: nat)
    requires i < |events|
    ensures Before(events, i + 1) == Do(Before(events, i), events[i])
    ensures ConfigOk(Before(events, i).config)
  {
    assert events[..i + 1][..i] == events[..i];
    RunConfigOk(events[..i]);
  }

  /** No event from `i` on and before `j` resets the certificate. */
  predicate Undisturbed(events: seq<Event>, i: nat, j: nat, id: string) {
    forall m | i <= m < j <= |events| :: !Resets(Before(events, m), events[m], id)
  }

  lemma {:induction false} StaysHeldBack(events: seq<Event>, i: nat, j: nat, id: string, k: nat)
    requires ClockRuns(events) && i < j <= |events| && ReadsClock(events[i]) && Undisturbed(events, i + 1, j, id)
    requires HeldBackAt(events, i + 1, id, k, FailTime(events[i], id) + Delay(k))
    ensures HeldBackAt(events, j, id, k, FailTime(events[i], id) + Delay(k))
    decreases j
  {
    if j > i + 1 {
      StaysHeldBack(events, i, j - 1, id, k);
      NextHoldsBack(events, i, j - 1, id, k);
    }
  }

  lemma NextHoldsBack(events: seq<Event>, i: nat, m: nat, id: string, k: nat)
    requires ClockRuns(events) && i < m < |events| && ReadsClock(events[i]) && Undisturbed(events, i + 1, m + 1, id)
    requires HeldBackAt(events, m, id, k, FailTime(events[i], id) + Delay(k))
    ensures HeldBackAt(events, m + 1, id, k, FailTime(events[i], id) + Delay(k))
  {
    BeforeNext(events, m);
    NowBeforeFailTime(events[m], id);
    EventHoldsBack(Before(events, m), events[m], id, k, FailTime(events[i], id));
  }

  /** A recorded failure sets the next attempt: `attempts - 1` earlier failures count. */
  lemma FailureHoldsBack(events: seq<Event>, i: nat, id: string)
    requires i < |events| && RecordsFailure(Before(events, i), events[i], id)
    ensures ReadsClock(events[i]) && Before(events, i + 1) == Do(Before(events, i), events[i])
    ensures var retry := Do(Before(events, i), events[i]).retry[id];
            && retry.attempts > 0
            && HeldBackAt(events, i + 1, id, retry.attempts - 1, FailTime(events[i], id) + Delay(retry.attempts - 1))
  {
    BeforeNext(events, i);
    EventRetry(Before(events, i), events[i], id);
  }

  /**
  In every run in which the clock does not go back: after the failure number k (from 0) in a row
  of a certificate, the manager does not start its renewal by itself for 300 * 2^min(k, 6) seconds,
  unless the certificate is deployed, reloaded or removed or its renewal toggled in between.
  */
  lemma RenewalSpacing(events: seq<Event>, i: nat, j: nat, id: string, k: nat)
    requires ClockRuns(events) && i < j < |events|
    requires RecordsFailure(Before(events, i), events[i], id) && Do(Before(events, i), events[i]).retry[id].attempts == k + 1
    requires Undisturbed(events, i + 1, j + 1, id)
    requires StartsByItself(Before(events, j), events[j], id)
    ensures Now(events[j]) >= FailTime(events[i], id) + 300 * Power2(Min(k, 6))
  {
    FailureHoldsBack(events, i, id);
    StaysHeldBack(events, i, j, id, k);
    BeforeNext(events, j);
    StartsWhenReady(Before(events, j), events[j], id);
    DelayExact(k);
  }

  /** In every run failures in a row are counted one by one, and counting begins anew after a reset. */
  lemma FailuresCounted(events: seq<Event>, i: nat, id: string)
    requires i < |events| && RecordsFailure(Before(events, i), events[i], id)
    ensures var s := Before(events, i);
            Do(s, events[i]).retry[id].attempts ==
              1 + if id in s.retry && !(Enabled(s, events[i]) && Resets(s, events[i], id)) then s.retry[id].attempts else 0
  {
    BeforeNext(events, i);
    EventRetry(Before(events, i), events[i], id);
  }

  lemma EventRetrySoon(s: State, e: Event, id: string)
    requires ConfigOk(s.config) && id in Do(s, e).retry
    ensures || Get(Do(s, e).retry, id) == Get(s.retry, id)
            || (ReadsClock(e) && Do(s, e).retry[id].retryAt <= FailTime(e, id) + 19259)
  {
    EventRetry(s, e, id);
    if Do(s, e).retry[id].attempts > 0 {
      DelayExact(Do(s, e).retry[id].attempts - 1);
    }
  }

  /** Some event has read the clock at most 19259 seconds before `at`. */
  predicate ReadRecently(events: seq<Event>, id: string, at: nat) {
    exists i | 0 <= i < |events| :: ReadsClock(events[i]) && at <= FailTime(events[i], id) + 19259
  }

  lemma ReadRecentlyGrows(events: seq<Event>, e: Event, id: string, at: nat)
    requires ReadRecently(events, id, at)
    ensures ReadRecently(events + [e], id, at)
  {
    var i :| 0 <= i < |events| && ReadsClock(events[i]) && at <= FailTime(events[i], id) + 19259;
    assert (events + [e])[i] == events[i];
  }

  /** The next attempt, if one is set, is soon after a reading. */
  predicate RetrySoon(retry: map<string, Retry>, events: seq<Event>, id: string) {
    id in retry ==> ReadRecently(events, id, retry[id].retryAt)
  }

  lemma RetryStaysSoon(s: State, events: seq<Event>, e: Event, id: string)
    requires ConfigOk(s.config) && RetrySoon(s.retry, events, id)
    ensures RetrySoon(Do(s, e).retry, events + [e], id)
  {
    if id in Do(s, e).retry {
      EventRetrySoon(s, e, id);
      if Get(Do(s, e).retry, id) == Get(s.retry, id) {
        ReadRecentlyGrows(events, e, id, s.retry[id].retryAt);
      } else {
        assert (events + [e])[|events|] == e;
      }
    }
  }

  /** In every run the next attempt is at most 19259 seconds after a reading the run has made. */
  lemma {:induction false} RetryNeverFarAhead(events: seq<Event>, id: string)
    ensures RetrySoon(Run(events).retry, events, id)
  {
    if events != [] {
      var init, last := events[..|events| - 1], events[|events| - 1];
      RunConfigOk(init);
      RetryNeverFarAhead(init, id);
      RetryStaysSoon(Run(init), init, last, id);
      assert events == init + [last];
    }
  }

  // ---- The scheduler serves what is due ----

  /** A renewal runs, or the refused start is recorded and will be tried again later. */
  predicate Attended(t: State, id: string, now: nat) {
    && id in t.statuses
    && (|| (id in t.active && t.statuses[id].phase == Renewing)
        || (id in t.retry && t.retry[id].retryAt > now && t.statuses[id].lastError.Some?))
  }

  lemma FailAttends(s: State, id: string, problem: Problem, failedAt: nat, now: nat)
    requires CanRetry(s, id) && now <= failedAt
    ensures Attended(Fail(s, id, problem, failedAt), id, now)
  {
    DelayExact(if id in s.retry then s.retry[id].attempts else 0);
  }

  lemma RenewAttends(s: State, id: string, clock: Clock)
    requires CanRetry(s, id)
    ensures Attended(Renew(s, id, clock), id, clock.now)
  {
    if IssueProblem(s, id).Some? {
      FailAttends(s, id, IssueProblem(s, id).value, Reading(clock, id), clock.now);
    }
  }

  lemma {:induction false} RenewAllAttends(s: State, ids: seq<string>, clock: Clock, id: string)
    requires NoRepeats(ids) && id in ids && CanRetry(s, id)
    ensures Attended(RenewAll(s, ids, clock), id, clock.now)
  {
    var init, last := ids[..|ids| - 1], ids[|ids| - 1];
    var before := RenewAll(s, init, clock);
    RenewAllElsewhere(s, init, clock, id);
    if id == last {
      assert Get(before.statuses, id) == Get(s.statuses, id);
      RenewAttends(before, id, clock);
    } else {
      RenewAllAttends(s, init, clock, id);
      RenewElsewhere(before, last, clock, id);
      assert Get(RenewAll(s, ids, clock).statuses, id) == Get(before.statuses, id);
      assert Get(RenewAll(s, ids, clock).active, id) == Get(before.active, id);
      assert Get(RenewAll(s, ids, clock).retry, id) == Get(before.retry, id);
    }
  }

  predicate IdDue(s: State, id: string, now: nat) {
    CertificateIn(s.config, id).Some? && IsDue(s, CertificateIn(s.config, id).value, now)
  }

  lemma DueMeansIdDue(s: State, now: nat, id: string)
    requires s.config.Some? && Valid(s.config.value)
    ensures id in Due(s, s.config.value.certificates, now) <==> IdDue(s, id, now)
    ensures NoRepeats(Due(s, s.config.value.certificates, now))
  {
    DueExactly(s, s.config.value.certificates, now);
    FindCertificateFinds(s.config.value.certificates, id);
    if id in Due(s, s.config.value.certificates, now) {
      DueIsAutoRenewed(s, now, id);
    }
  }

  /** One pass of the scheduler attends to every certificate that is due and starts or delays no
      other. */
  lemma SchedulerServesExactly(s: State, clock: Clock, id: string)
    requires ConfigOk(s.config)
    ensures var t := ScheduleDue(s, clock);
            if IdDue(s, id, clock.now) then Attended(t, id, clock.now)
            else Get(t.active, id) == Get(s.active, id) && Get(t.retry, id) == Get(s.retry, id)
  {
    var expired := s.(statuses := Expire(s.statuses, clock.now));
    if s.config.Some? {
      DueMeansIdDue(expired, clock.now, id);
      FindCertificateFinds(s.config.value.certificates, id);
      var due := Due(expired, s.config.value.certificates, clock.now);
      if id in due {
        RenewAllAttends(expired, due, clock, id);
      } else {
        RenewAllElsewhere(expired, due, clock, id);
      }
    }
  }

  predicate UnderWay(s: State, id: string, now: nat) {
    id in s.active || (id in s.retry && s.retry[id].retryAt > now)
  }

  lemma RunConfigOk(events: seq<Event>)
    ensures ConfigOk(Run(events).config)
  {
    RunKeepsInv(events);
  }

  /** In every run a tick within 14 days of an auto-renewed certificate's expiry leaves it with a
      task under way or a next attempt still ahead. */
  lemma RenewedInTime(events: seq<Event>, clock: Clock, id: string)
    requires CanRetry(Run(events), id) && Run(events).statuses[id].expiresAt.value <= clock.now + 14 * 24 * 3600
    ensures UnderWay(Do(Run(events), Ticks(clock)), id, clock.now)
  {
    RunConfigOk(events);
    WithinTwoWeeks(Run(events), clock, id);
  }

  lemma WithinTwoWeeks(s: State, clock: Clock, id: string)
    requires ConfigOk(s.config) && CanRetry(s, id) && s.statuses[id].expiresAt.value <= clock.now + 14 * 24 * 3600
    ensures UnderWay(Do(s, Ticks(clock)), id, clock.now)
  {
    FindCertificateFinds(s.config.value.certificates, id);
    SchedulerServesExactly(s, clock, id);
    var t := ScheduleDue(s, clock);
    if !IdDue(s, id, clock.now) {
      assert id in s.active || !RetryReady(s.retry, id, clock.now);
      assert Get(t.active, id) == Get(s.active, id) && Get(t.retry, id) == Get(s.retry, id);
    }
  }

  /** Nothing that has expired by `now` is still reported as valid or failed. */
  predicate NoneOverdue(statuses: map<string, Status>, now: nat) {
    forall id <- statuses :: NotOverdue(statuses[id], now)
  }

  predicate NotOverdue(status: Status, now: nat) {
    status.phase == Deployed || status.phase == Failed ==> status.expiresAt.None? || status.expiresAt.value > now
  }

  lemma RenewNotOverdue(s: State, id: string, clock: Clock)
    requires NoneOverdue(s.statuses, clock.now)
    ensures NoneOverdue(Renew(s, id, clock).statuses, clock.now)
  {
    if IssueProblem(s, id).Some? && id in s.statuses {
      assert NotOverdue(FailedStatus(s.statuses[id], IssueProblem(s, id).value, Reading(clock, id)), clock.now);
    }
  }

  lemma {:induction false} RenewAllNotOverdue(s: State, ids: seq<string>, clock: Clock)
    requires NoneOverdue(s.statuses, clock.now)
    ensures NoneOverdue(RenewAll(s, ids, clock).statuses, clock.now)
  {
    if ids != [] {
      RenewAllNotOverdue(s, ids[..|ids| - 1], clock);
      RenewNotOverdue(RenewAll(s, ids[..|ids| - 1], clock), ids[|ids| - 1], clock);
    }
  }

  /** After one pass of the scheduler no expired certificate is reported as valid or failed. */
  lemma ElapsedMarkedExpired(s: State, clock: Clock)
    ensures NoneOverdue(ScheduleDue(s, clock).statuses, clock.now)
  {
    var expired := s.(statuses := Expire(s.statuses, clock.now));
    assert NoneOverdue(expired.statuses, clock.now);
    if s.config.Some? {
      RenewAllNotOverdue(expired, Due(expired, s.config.value.certificates, clock.now), clock);
    }
  }

  /** In every run, when the awaited task of an auto-renewed certificate with a known expiry fails,
      the failure is recorded and the next attempt set, after the delay and as many seconds more as
      the sum of the id's bytes modulo 60. */
  lemma FailedOutputRecorded(events: seq<Event>, g: nat, now: nat)
    requires var s := Run(events);
             && Enabled(s, Joins(g, now)) && s.tasks[g].outcome.value.Unsuccessful?
             && Awaited(s.active, s.tasks[g].id, g) && CanRetry(s, s.tasks[g].id)
    ensures var s := Run(events);
            var id := s.tasks[g].id;
            && RecordsFailure(s, Joins(g, now), id)
            && var after := Do(s, Joins(g, now)).retry[id];
               after.retryAt - now - 300 * Power2(Min(after.attempts - 1, 6)) == ByteSum(id) % 60
  {
    JoinRecords(Run(events), g, now);
  }

  lemma JoinRecords(s: State, g: nat, now: nat)
    requires g in s.tasks && s.tasks[g].outcome.Some? && s.tasks[g].outcome.value.Unsuccessful?
    requires Awaited(s.active, s.tasks[g].id, g) && CanRetry(s, s.tasks[g].id)
    ensures var id, t := s.tasks[g].id, HandleTask(s, g, now);
            && id in t.retry && Get(t.retry, id) != Get(s.retry, id) && t.retry[id].attempts > 0
            && t.retry[id].retryAt - now - 300 * Power2(Min(t.retry[id].attempts - 1, 6)) == ByteSum(id) % 60
  {
    var id := s.tasks[g].id;
    DelayExact(if id in s.retry then s.retry[id].attempts else 0);
  }

  /** `ByteSum` adds up the bytes. */
  lemma {:induction false} ByteSumAdds(a: string, b: string)
    ensures ByteSum(a + b) == ByteSum(a) + ByteSum(b)
    ensures forall c: char :: ByteSum([c]) == c as nat
  {
    forall c: char ensures ByteSum([c]) == c as nat {
      assert [c][..0] == "";
    }
    if b == "" {
      assert a + b == a;
    } else {
      assert (a + b)[..|a + b| - 1] == a + b[..|b| - 1];
      ByteSumAdds(a, b[..|b| - 1]);
    }
  }
}
