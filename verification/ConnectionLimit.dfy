/**
The proxy's connection limit (crates/gaterust-proxy/src/connection.rs).

`acquire` is a loop over two atomics and a Tokio `Notify`; permits are returned by `Drop`.
Every atomic access is one step here, so a run is any interleaving of any number of
acquirers, droppers and limit changes. `Notify` behaves as documented by Tokio:
`notify_one` wakes one registered waiter or else stores one permit, `notify_waiters` wakes
all registered waiters and stores nothing, and dropping a future that was woken by
`notify_one` without being polled again hands the wake-up on.
*/
module ConnectionLimit {

  /** What the acquirer's `Notified` future has seen. `Done`: it consumed the stored permit. */
  datatype Signal = Waiting | One | All | Done

  /** Where an acquirer stands in its loop. */
  datatype Acquirer =
    | Start
    | Enabled(signal: Signal)
    | Loaded(active: nat, signal: Signal)
    | Trying(active: nat, maximum: nat, signal: Signal)
    | Blocked(signal: Signal)
  {
    predicate IsWaiting() {
      !Start? && signal == Waiting
    }

    predicate HoldsWakeUp() {
      !Start? && signal == One
    }

    /** Still going to look at the counter, or about to take a slot. */
    predicate Running(maximum: nat) {
      Start? || Enabled? || Trying? || (Loaded? && active < maximum)
    }

    /** Will sleep, or sleeps, on a wake-up that has not come. */
    predicate Committed(maximum: nat) {
      IsWaiting() && (Blocked? || (Loaded? && active >= maximum))
    }
  }

  /**
  `held`: permits that exist. `droppers`: permits whose count is already returned but whose
  `notify_one` is still to come. `setters`: limit changes stored but not yet announced.
  `ceiling`: the largest maximum ever stored.
  */
  datatype State = State(
    maximum: nat,
    active: nat,
    stored: bool,
    acquirers: map<nat, Acquirer>,
    held: nat,
    droppers: nat,
    setters: nat,
    ceiling: nat)

  datatype Step =
    | Arrive(id: nat)
    | Enable(id: nat)
    | LoadActive(id: nat)
    | LoadMaximum(id: nat)
    | Exchange(id: nat, spurious: bool, next: nat)
    | Wake(id: nat)
    | Cancel(id: nat, next: nat)
    | ReturnPermit
    | NotifyOne(next: nat)
    | StoreMaximum(maximum: nat)
    | NotifyWaiters

  function Initial(maximum: nat): State {
    State(maximum, 0, false, map[], 0, 0, 0, maximum)
  }

  predicate AnyWaiting(s: State) {
    exists id <- s.acquirers :: s.acquirers[id].IsWaiting()
  }

  function WithSignal(a: Acquirer, signal: Signal): Acquirer
    requires !a.Start?
  {
    match a
    case Enabled(_) => Enabled(signal)
    case Loaded(active, _) => Loaded(active, signal)
    case Trying(active, maximum, _) => Trying(active, maximum, signal)
    case Blocked(_) => Blocked(signal)
  }

  predicate CanWake(s: State, next: nat) {
    AnyWaiting(s) ==> next in s.acquirers && s.acquirers[next].IsWaiting()
  }

  /** `notify_one`, waking `next` if anybody waits. */
  function WakeOne(s: State, next: nat): State
    requires CanWake(s, next)
  {
    if AnyWaiting(s) then s.(acquirers := s.acquirers[next := WithSignal(s.acquirers[next], One)])
    else s.(stored := true)
  }

  function WakeAll(s: State): State {
    s.(acquirers := map id | id in s.acquirers ::
        if s.acquirers[id].IsWaiting() then WithSignal(s.acquirers[id], All) else s.acquirers[id])
  }

  /** Drops the future of an acquirer already taken out of `s`. */
  function DropFuture(s: State, signal: Signal, next: nat): State
    requires signal == One ==> CanWake(s, next)
  {
    if signal == One then WakeOne(s, next) else s
  }

  function Without(s: State, id: nat): State {
    s.(acquirers := s.acquirers - {id})
  }

  /** The exchange finds the counter as it was loaded and does not fail spuriously. */
  predicate Succeeds(s: State, step: Step)
    requires step.Exchange? && step.id in s.acquirers && s.acquirers[step.id].Trying?
  {
    !step.spurious && s.active == s.acquirers[step.id].active
  }

  predicate Possible(s: State, step: Step) {
    match step
    case Arrive(id) => id !in s.acquirers
    case Enable(id) => id in s.acquirers && s.acquirers[id].Start?
    case LoadActive(id) => id in s.acquirers && s.acquirers[id].Enabled?
    case LoadMaximum(id) => id in s.acquirers && s.acquirers[id].Loaded?
    case Exchange(id, _, next) =>
      && id in s.acquirers && s.acquirers[id].Trying?
      && (s.acquirers[id].signal == One ==> CanWake(Without(s, id), next))
    case Wake(id) => id in s.acquirers && s.acquirers[id].Blocked? && s.acquirers[id].signal != Waiting
    case Cancel(id, next) =>
      && id in s.acquirers && s.acquirers[id].Blocked?
      && (s.acquirers[id].signal == One ==> CanWake(Without(s, id), next))
    case ReturnPermit => s.held > 0
    case NotifyOne(next) => s.droppers > 0 && CanWake(s, next)
    case StoreMaximum(_) => true
    case NotifyWaiters => s.setters > 0
  }

  function Do(s: State, step: Step): State
    requires Possible(s, step)
    requires s.held <= s.active
  {
    match step
    case Arrive(id) => s.(acquirers := s.acquirers[id := Start])
    case Enable(id) =>
      if s.stored then s.(stored := false, acquirers := s.acquirers[id := Enabled(Done)])
      else s.(acquirers := s.acquirers[id := Enabled(Waiting)])
    case LoadActive(id) =>
      s.(acquirers := s.acquirers[id := Loaded(s.active, s.acquirers[id].signal)])
    case LoadMaximum(id) =>
      var a := s.acquirers[id];
      s.(acquirers := s.acquirers[id :=
          if a.active < s.maximum then Trying(a.active, s.maximum, a.signal) else Blocked(a.signal)])
    case Exchange(id, _, next) =>
      var dropped := DropFuture(Without(s, id), s.acquirers[id].signal, next);
      if Succeeds(s, step) then dropped.(active := s.active + 1, held := s.held + 1)
      else dropped.(acquirers := dropped.acquirers[id := Start])
    case Wake(id) => s.(acquirers := s.acquirers[id := Start])
    case Cancel(id, next) => DropFuture(Without(s, id), s.acquirers[id].signal, next)
    case ReturnPermit => s.(active := s.active - 1, held := s.held - 1, droppers := s.droppers + 1)
    case NotifyOne(next) => WakeOne(s, next).(droppers := s.droppers - 1)
    case StoreMaximum(maximum) =>
      s.(maximum := maximum, setters := s.setters + 1,
         ceiling := if maximum > s.ceiling then maximum else s.ceiling)
    case NotifyWaiters => WakeAll(s).(setters := s.setters - 1)
  }

  /** Any schedule: a step that is not possible where it comes is skipped. */
  function Run(s: State, steps: seq<Step>): (t: State)
    requires Counted(s)
    ensures Counted(t)
    decreases steps
  {
    if steps == [] then s
    else if Possible(s, steps[0]) then Run(Do(s, steps[0]), steps[1..])
    else Run(s, steps[1..])
  }

  // ---- Invariants ----

  /** The counter is the number of permits that exist. */
  predicate Counted(s: State) {
    s.active == s.held
  }

  /** Nothing was ever granted beyond the largest maximum. */
  predicate WithinCeiling(s: State) {
    && s.active <= s.ceiling && s.maximum <= s.ceiling
    && forall id <- s.acquirers | s.acquirers[id].Trying? ::
         s.acquirers[id].active < s.acquirers[id].maximum <= s.ceiling
  }

  /** A stored permit and a registered waiter exclude each other. */
  predicate StoredAlone(s: State) {
    s.stored ==> !AnyWaiting(s)
  }

  function WakeUps(acquirers: map<nat, Acquirer>): set<nat> {
    set id <- acquirers | acquirers[id].HoldsWakeUp()
  }

  function Runners(acquirers: map<nat, Acquirer>, maximum: nat): set<nat> {
    set id <- acquirers | acquirers[id].Running(maximum)
  }

  function Cover(s: State): nat {
    |WakeUps(s.acquirers)| + |Runners(s.acquirers, s.maximum)|
  }

  predicate SomeoneCommitted(s: State) {
    exists id <- s.acquirers :: s.acquirers[id].Committed(s.maximum)
  }

  /** While an acquirer is committed to sleeping, every free slot has a wake-up on its way or
      an acquirer that will still look, unless a limit change is about to wake everybody. */
  predicate SlotsCovered(s: State) {
    s.setters == 0 && SomeoneCommitted(s)
    ==> s.maximum - s.active <= s.droppers + Cover(s)
  }

  predicate Inv(s: State) {
    Counted(s) && WithinCeiling(s) && StoredAlone(s) && SlotsCovered(s)
  }

  // ---- One acquirer moves ----

  lemma SizeWithout(ids: set<nat>, id: nat)
    ensures |ids| == |ids - {id}| + (if id in ids then 1 else 0)
  {
    if id in ids {
      assert ids == (ids - {id}) + {id};
    } else {
      assert ids == ids - {id};
    }
  }

  /** What one acquirer adds to the cover of the free slots. */
  function Weight(a: Acquirer, maximum: nat): nat {
    (if a.HoldsWakeUp() then 1 else 0) + (if a.Running(maximum) then 1 else 0)
  }

  lemma CoverSplits(s: State, id: nat)
    ensures Cover(s) == Cover(Without(s, id)) + (if id in s.acquirers then Weight(s.acquirers[id], s.maximum) else 0)
  {
    SizeWithout(WakeUps(s.acquirers), id);
    SizeWithout(Runners(s.acquirers, s.maximum), id);
    assert WakeUps(s.acquirers - {id}) == WakeUps(s.acquirers) - {id};
    assert Runners(s.acquirers - {id}, s.maximum) == Runners(s.acquirers, s.maximum) - {id};
  }

  /** When one acquirer moves, the cover changes by its own weight and nothing else. */
  lemma OneMoves(s: State, t: State, id: nat)
    requires s.acquirers - {id} == t.acquirers - {id} && s.maximum == t.maximum
    ensures Cover(s) - (if id in s.acquirers then Weight(s.acquirers[id], s.maximum) else 0)
         == Cover(t) - (if id in t.acquirers then Weight(t.acquirers[id], t.maximum) else 0)
  {
    CoverSplits(s, id);
    CoverSplits(t, id);
  }

  /** Waking one waiter adds one wake-up. */
  lemma WakeOneCovers(s: State, next: nat)
    requires CanWake(s, next) && AnyWaiting(s)
    ensures Cover(WakeOne(s, next)) == Cover(s) + 1
  {
    OneMoves(s, WakeOne(s, next), next);
  }

  /** A wake-up held by a departing acquirer is not lost while somebody waits. */
  lemma DropFutureCovers(s: State, id: nat, next: nat)
    requires id in s.acquirers && !s.acquirers[id].Start?
    requires s.acquirers[id].signal == One ==> CanWake(Without(s, id), next)
    requires AnyWaiting(Without(s, id))
    ensures Cover(DropFuture(Without(s, id), s.acquirers[id].signal, next))
         == Cover(s) - (if s.acquirers[id].Running(s.maximum) then 1 else 0)
  {
    OneMoves(s, Without(s, id), id);
    if s.acquirers[id].signal == One {
      WakeOneCovers(Without(s, id), next);
    }
  }

  // ---- Every step keeps the invariant ----

  lemma StepKeepsBasics(s: State, step: Step)
    requires Inv(s) && Possible(s, step)
    ensures var t := Do(s, step);
            Counted(t) && WithinCeiling(t) && StoredAlone(t)
  {
  }

  /** An acquirer that moves on by itself. */
  lemma LoopKeepsCover(s: State, step: Step)
    requires Inv(s) && Possible(s, step)
    requires step.Arrive? || step.Enable? || step.LoadActive? || step.LoadMaximum? || step.Wake?
    ensures SlotsCovered(Do(s, step))
  {
    var t := Do(s, step);
    if t.setters == 0 && SomeoneCommitted(t) {
      OneMoves(s, t, step.id);
      var id :| id in t.acquirers && t.acquirers[id].Committed(t.maximum);
      if id != step.id {
        assert s.acquirers[id].Committed(s.maximum);
      }
    }
  }

  /** An acquirer that leaves, or starts over, and drops its future. */
  lemma DropKeepsCover(s: State, step: Step)
    requires Inv(s) && Possible(s, step)
    requires step.Exchange? || step.Cancel?
    ensures SlotsCovered(Do(s, step))
  {
    var t := Do(s, step);
    if t.setters == 0 && SomeoneCommitted(t) {
      var id :| id in t.acquirers && t.acquirers[id].Committed(t.maximum);
      assert s.acquirers[id].Committed(s.maximum);
      assert Without(s, step.id).acquirers[id].IsWaiting();
      DropFutureCovers(s, step.id, step.next);
      var dropped := DropFuture(Without(s, step.id), s.acquirers[step.id].signal, step.next);
      OneMoves(dropped, t, step.id);
    }
  }

  lemma NotifyKeepsCover(s: State, step: Step)
    requires Inv(s) && Possible(s, step)
    requires step.NotifyOne?
    ensures SlotsCovered(Do(s, step))
  {
    var t := Do(s, step);
    if t.setters == 0 && SomeoneCommitted(t) {
      var id :| id in t.acquirers && t.acquirers[id].Committed(t.maximum);
      assert s.acquirers[id].Committed(s.maximum) && AnyWaiting(s);
      WakeOneCovers(s, step.next);
      OneMoves(WakeOne(s, step.next), t, step.next);
    }
  }

  lemma StepKeepsInv(s: State, step: Step)
    requires Inv(s) && Possible(s, step)
    ensures Inv(Do(s, step))
  {
    StepKeepsBasics(s, step);
    match step
    case Exchange(_, _, _) => DropKeepsCover(s, step);
    case Cancel(_, _) => DropKeepsCover(s, step);
    case NotifyOne(_) => NotifyKeepsCover(s, step);
    case ReturnPermit =>
    case StoreMaximum(_) =>
    case NotifyWaiters =>
      assert !AnyWaiting(Do(s, step));
      assert !SomeoneCommitted(Do(s, step));
    case _ => LoopKeepsCover(s, step);
  }

  lemma {:induction false} RunKeepsInv(s: State, steps: seq<Step>)
    requires Inv(s)
    ensures Inv(Run(s, steps))
    decreases steps
  {
    if steps != [] {
      if Possible(s, steps[0]) {
        StepKeepsInv(s, steps[0]);
        RunKeepsInv(Do(s, steps[0]), steps[1..]);
      } else {
        RunKeepsInv(s, steps[1..]);
      }
    }
  }

  // ---- What callers get ----

  /** No lost wake-up: in every run, an acquirer that sleeps without a wake-up while a slot is
      free is not alone. A wake-up is on its way, or another acquirer is awake or woken. */
  lemma NoLostWakeUp(maximum: nat, steps: seq<Step>, sleeper: nat)
    requires var s := Run(Initial(maximum), steps);
             && sleeper in s.acquirers && s.acquirers[sleeper] == Blocked(Waiting)
             && s.active < s.maximum
    ensures var s := Run(Initial(maximum), steps);
            || s.droppers > 0 || s.setters > 0
            || exists id <- s.acquirers :: s.acquirers[id].HoldsWakeUp() || s.acquirers[id].Running(s.maximum)
  {
    var s := Run(Initial(maximum), steps);
    assert !AnyWaiting(Initial(maximum)) && !SomeoneCommitted(Initial(maximum));
    RunKeepsInv(Initial(maximum), steps);
    assert s.acquirers[sleeper].Committed(s.maximum);
    if s.droppers == 0 && s.setters == 0 {
      assert |WakeUps(s.acquirers)| + |Runners(s.acquirers, s.maximum)| > 0;
      if |WakeUps(s.acquirers)| > 0 {
        var id :| id in WakeUps(s.acquirers);
      } else {
        var id :| id in Runners(s.acquirers, s.maximum);
      }
    }
  }

  /** In every run the counter is the number of permits and stays below the largest limit set. */
  lemma PermitsBounded(maximum: nat, steps: seq<Step>)
    ensures var s := Run(Initial(maximum), steps);
            s.active == s.held <= s.ceiling
  {
    assert !AnyWaiting(Initial(maximum)) && !SomeoneCommitted(Initial(maximum));
    RunKeepsInv(Initial(maximum), steps);
  }

  /** With the limit never changed, it is never exceeded. */
  lemma {:induction false} FixedLimitHolds(s: State, steps: seq<Step>)
    requires Inv(s) && s.ceiling == s.maximum
    requires forall step <- steps :: !step.StoreMaximum?
    ensures var t := Run(s, steps);
            t.maximum == s.maximum && t.held <= s.maximum
    decreases steps
  {
    if steps != [] {
      if Possible(s, steps[0]) {
        StepKeepsInv(s, steps[0]);
        FixedLimitHolds(Do(s, steps[0]), steps[1..]);
      } else {
        FixedLimitHolds(s, steps[1..]);
      }
    }
  }

  /** A grant never exceeds the maximum that this very attempt loaded. */
  lemma GrantWithinLoadedMaximum(maximum: nat, steps: seq<Step>, step: Step)
    requires var s := Run(Initial(maximum), steps);
             step.Exchange? && Possible(s, step) && Succeeds(s, step)
    ensures var s := Run(Initial(maximum), steps);
            Do(s, step).active <= s.acquirers[step.id].maximum
  {
    assert !AnyWaiting(Initial(maximum)) && !SomeoneCommitted(Initial(maximum));
    RunKeepsInv(Initial(maximum), steps);
  }

  // ---- Free slots are taken ----

  lemma RunHead(s: State, step: Step, rest: seq<Step>)
    requires Counted(s) && Possible(s, step)
    ensures Counted(Do(s, step)) && Run(s, [step] + rest) == Run(Do(s, step), rest)
  {
    assert ([step] + rest)[1..] == rest;
  }

  /** In every run an acquirer at the top of its loop that is not disturbed gets a permit if a slot is
      free, and otherwise waits. */
  lemma AcquiresIfFree(maximum: nat, steps: seq<Step>, id: nat) returns (own: seq<Step>)
    requires var s := Run(Initial(maximum), steps); id in s.acquirers && s.acquirers[id].Start?
    ensures forall step <- own :: step.Enable? || step.LoadActive? || step.LoadMaximum? || step.Exchange?
    ensures var s := Run(Initial(maximum), steps);
            var t := Run(s, own);
            if s.active < s.maximum then t.held == s.held + 1 && t.active == s.active + 1 && id !in t.acquirers
            else t.held == s.held && t.active == s.active && id in t.acquirers && t.acquirers[id].Blocked?
  {
    own := AcquireFrom(Run(Initial(maximum), steps), id);
  }

  lemma AcquireFrom(s: State, id: nat) returns (own: seq<Step>)
    requires Counted(s) && id in s.acquirers && s.acquirers[id].Start?
    ensures forall step <- own :: step.Enable? || step.LoadActive? || step.LoadMaximum? || step.Exchange?
    ensures var t := Run(s, own);
            if s.active < s.maximum then t.held == s.held + 1 && t.active == s.active + 1 && id !in t.acquirers
            else t.held == s.held && t.active == s.active && id in t.acquirers && t.acquirers[id].Blocked?
  {
    var a := Do(s, Enable(id));
    var b := Do(a, LoadActive(id));
    var c := Do(b, LoadMaximum(id));
    var rest := [];
    if s.active < s.maximum {
      var e := Exchange(id, false, id);
      assert Possible(c, e) && Succeeds(c, e);
      RunHead(c, e, []);
      rest := [e] + [];
    }
    RunHead(b, LoadMaximum(id), rest);
    RunHead(a, LoadActive(id), [LoadMaximum(id)] + rest);
    RunHead(s, Enable(id), [LoadActive(id)] + ([LoadMaximum(id)] + rest));
    own := [Enable(id)] + ([LoadActive(id)] + ([LoadMaximum(id)] + rest));
  }

  /** In every run returning a permit frees exactly one slot. */
  lemma ReturnFrees(maximum: nat, steps: seq<Step>)
    requires Possible(Run(Initial(maximum), steps), ReturnPermit)
    ensures var s, t := Run(Initial(maximum), steps), Do(Run(Initial(maximum), steps), ReturnPermit);
            t.held + 1 == s.held && t.active + 1 == s.active && t.maximum == s.maximum && t.droppers == s.droppers + 1
  {
  }

  /** The limit at the start or last set. */
  function LastMaximum(maximum: nat, steps: seq<Step>): nat
    decreases steps
  {
    if steps == [] then maximum
    else if steps[0].StoreMaximum? then LastMaximum(steps[0].maximum, steps[1..])
    else LastMaximum(maximum, steps[1..])
  }

  /** In every run the limit in force is the one last set. */
  lemma {:induction false} LimitInForce(s: State, steps: seq<Step>)
    requires Counted(s)
    ensures Run(s, steps).maximum == LastMaximum(s.maximum, steps)
    decreases steps
  {
    if steps != [] {
      LimitInForce(if Possible(s, steps[0]) then Do(s, steps[0]) else s, steps[1..]);
    }
  }
}
