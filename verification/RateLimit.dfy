/**
The tunnel rate limiter (crates/gaterust-tunnel/src/rate_limit.rs).

A limiter keeps one instant, `next`, up to which the link is already booked. Every
reservation books its cost behind `next` and may be released up to `burst` early. Instants
and durations are counted in nanoseconds.
*/
module RateLimit {
  import opened Numbers

  const NANOS_PER_SECOND: nat := 1_000_000_000
  const BURST: nat := 100_000_000
  const MAX_DATAGRAM: nat := 65535

  /** One call of `reserve`: the size asked for and the clock reading the caller passed. */
  datatype Reservation = Reservation(bytes: nat, now: nat)

  function Max(a: int, b: int): int {
    if a < b then b else a
  }

  function DivCeil(n: nat, d: nat): (q: nat)
    requires d > 0
    ensures q * d >= n
    ensures q > 0 ==> (q - 1) * d < n
  {
    (n + d - 1) / d
  }

  /** The time a reservation books, clamped to 64 bits as the source does. */
  function Cost(rate: nat, bytes: nat): nat
    requires rate > 0
  {
    var nanos := DivCeil(bytes * NANOS_PER_SECOND, rate);
    if nanos <= U64_MAX then nanos else U64_MAX
  }

  function Advance(rate: nat, next: nat, r: Reservation): nat
    requires rate > 0
  {
    Max(next, r.now) + Cost(rate, r.bytes)
  }

  /** When the bytes of a reservation made at `now` may go out, once `next` is the new booking. */
  function ReleaseTime(burst: nat, next: nat, now: nat): nat {
    Max(now, next - burst)
  }

  class Limited {
    const rate: nat
    const burst: nat
    var next: nat

    constructor (rate: nat, now: nat)
      requires rate > 0
      ensures this.rate == rate && 10 * burst == NANOS_PER_SECOND && next == now
    {
      this.rate := rate;
      burst := BURST;
      next := now;
    }

    method Reserve(bytes: nat, now: nat) returns (delay: nat)
      requires rate > 0 && bytes <= U64_MAX
      modifies this
      ensures next == Advance(rate, old(next), Reservation(bytes, now))
      ensures now + delay == ReleaseTime(burst, next, now)
    {
      var nanos := DivCeil(bytes * NANOS_PER_SECOND, rate);
      var cost := if nanos <= U64_MAX then nanos else U64_MAX;
      next := (if next > now then next else now) + cost;
      var earliest := if next >= burst then next - burst else now;
      delay := if earliest > now then earliest - now else 0;
    }
  }

  // ---- Whole sequences of reservations ----

  /** The booking after all of `rs`. */
  function NextAfter(rate: nat, next: nat, rs: seq<Reservation>): nat
    requires rate > 0
    decreases rs
  {
    if rs == [] then next else NextAfter(rate, Advance(rate, next, rs[0]), rs[1..])
  }

  predicate InWindow(burst: nat, next: nat, r: Reservation, s: nat, t: nat) {
    s <= ReleaseTime(burst, next, r.now) <= t
  }

  /** Bytes of `rs` released at some instant of [s, t]. */
  function BytesReleased(rate: nat, burst: nat, next: nat, rs: seq<Reservation>, s: nat, t: nat): nat
    requires rate > 0
    decreases rs
  {
    if rs == [] then 0
    else
      var n := Advance(rate, next, rs[0]);
      (if InWindow(burst, n, rs[0], s, t) then rs[0].bytes else 0)
      + BytesReleased(rate, burst, n, rs[1..], s, t)
  }

  /** The cost of the first reservation of `rs` released in [s, t], or 0 when there is none. */
  function FirstCost(rate: nat, burst: nat, next: nat, rs: seq<Reservation>, s: nat, t: nat): nat
    requires rate > 0
    decreases rs
  {
    if rs == [] then 0
    else
      var n := Advance(rate, next, rs[0]);
      if InWindow(burst, n, rs[0], s, t) then Cost(rate, rs[0].bytes)
      else FirstCost(rate, burst, n, rs[1..], s, t)
  }

  /** The cost booked by the reservations released in [s, t]. */
  function CostReleased(rate: nat, burst: nat, next: nat, rs: seq<Reservation>, s: nat, t: nat): nat
    requires rate > 0
    decreases rs
  {
    if rs == [] then 0
    else
      var n := Advance(rate, next, rs[0]);
      (if InWindow(burst, n, rs[0], s, t) then Cost(rate, rs[0].bytes) else 0)
      + CostReleased(rate, burst, n, rs[1..], s, t)
  }

  /** No reservation of `rs` is so large that its cost is clamped. */
  predicate Unclamped(rate: nat, rs: seq<Reservation>) {
    forall r <- rs :: r.bytes * NANOS_PER_SECOND <= rate * U64_MAX
  }

  /** A reservation books the time its bytes need at `rate` exactly when its cost is not clamped. */
  lemma CostCoversBytes(rate: nat, bytes: nat)
    requires rate > 0
    ensures bytes * NANOS_PER_SECOND <= rate * Cost(rate, bytes)
       <==> bytes * NANOS_PER_SECOND <= rate * U64_MAX
  {
    var n := bytes * NANOS_PER_SECOND;
    var nanos := DivCeil(n, rate);
    assert nanos * rate >= n;
    if nanos <= U64_MAX {
      assert Cost(rate, bytes) == nanos;
      assert rate * nanos == nanos * rate;
      Scale(rate, nanos, U64_MAX);
    } else {
      assert Cost(rate, bytes) == U64_MAX;
    }
  }

  lemma Scale(k: nat, a: nat, b: nat)
    requires a <= b
    ensures k * a <= k * b
  {
    assert k * b == k * a + k * (b - a);
  }

  /** Everything released up to `t` fits between the booking before it and `t + burst`. */
  lemma {:induction false} CostFits(rate: nat, burst: nat, next: nat, rs: seq<Reservation>, s: nat, t: nat)
    requires rate > 0
    ensures var c := CostReleased(rate, burst, next, rs, s, t);
            c == 0 || c <= t + burst - next
    decreases rs
  {
    if rs != [] {
      CostFits(rate, burst, Advance(rate, next, rs[0]), rs[1..], s, t);
    }
  }

  lemma {:induction false} CostBound(rate: nat, burst: nat, next: nat, rs: seq<Reservation>, s: nat, t: nat)
    requires rate > 0 && s <= t
    ensures CostReleased(rate, burst, next, rs, s, t)
         <= (t - s) + Max(burst, FirstCost(rate, burst, next, rs, s, t))
    decreases rs
  {
    if rs != [] {
      var n := Advance(rate, next, rs[0]);
      if InWindow(burst, n, rs[0], s, t) {
        CostFits(rate, burst, Max(next, rs[0].now), rs, s, t);
        CostFits(rate, burst, n, rs[1..], s, t);
      } else {
        CostBound(rate, burst, n, rs[1..], s, t);
      }
    }
  }

  lemma Add(rate: nat, b: nat, c: nat, bytes: nat, cost: nat)
    requires b * NANOS_PER_SECOND <= rate * c && bytes * NANOS_PER_SECOND <= rate * cost
    ensures (b + bytes) * NANOS_PER_SECOND <= rate * (c + cost)
  {
  }

  lemma {:induction false} BytesWithinCost(rate: nat, burst: nat, next: nat, rs: seq<Reservation>, s: nat, t: nat)
    requires rate > 0 && Unclamped(rate, rs)
    ensures BytesReleased(rate, burst, next, rs, s, t) * NANOS_PER_SECOND
         <= rate * CostReleased(rate, burst, next, rs, s, t)
    decreases rs
  {
    if rs != [] {
      var n := Advance(rate, next, rs[0]);
      BytesWithinCost(rate, burst, n, rs[1..], s, t);
      if InWindow(burst, n, rs[0], s, t) {
        CostCoversBytes(rate, rs[0].bytes);
        Add(rate, rs[0].bytes, Cost(rate, rs[0].bytes),
            BytesReleased(rate, burst, n, rs[1..], s, t), CostReleased(rate, burst, n, rs[1..], s, t));
      }
    }
  }

  /** The bytes released in [s, t] are within the rate, up to the burst or the first reservation. */
  predicate Bounded(rate: nat, burst: nat, next: nat, rs: seq<Reservation>, s: nat, t: nat)
    requires rate > 0
  {
    s <= t ==>
      BytesReleased(rate, burst, next, rs, s, t) * NANOS_PER_SECOND
        <= rate * ((t - s) + Max(burst, FirstCost(rate, burst, next, rs, s, t)))
  }

  /** The rate bound over any window, for any sequence of reservations and any clock readings. */
  lemma RateBound(rate: nat, burst: nat, next: nat, rs: seq<Reservation>, s: nat, t: nat)
    requires rate > 0 && Unclamped(rate, rs)
    ensures Bounded(rate, burst, next, rs, s, t)
  {
    if s <= t {
      BytesWithinCost(rate, burst, next, rs, s, t);
      CostBound(rate, burst, next, rs, s, t);
      Scale(rate, CostReleased(rate, burst, next, rs, s, t),
            (t - s) + Max(burst, FirstCost(rate, burst, next, rs, s, t)));
    }
  }

  // ---- When the bound fails ----

  lemma {:induction false} FirstCostClamped(rate: nat, burst: nat, next: nat, rs: seq<Reservation>, s: nat, t: nat)
    requires rate > 0
    ensures FirstCost(rate, burst, next, rs, s, t) <= U64_MAX
    decreases rs
  {
    if rs != [] {
      FirstCostClamped(rate, burst, Advance(rate, next, rs[0]), rs[1..], s, t);
    }
  }

  /** Every reservation is released at some instant, with all of its bytes. */
  lemma {:induction false} Released(rate: nat, burst: nat, next: nat, rs: seq<Reservation>, k: nat) returns (instant: nat)
    requires rate > 0 && k < |rs|
    ensures BytesReleased(rate, burst, next, rs, instant, instant) >= rs[k].bytes
    decreases rs
  {
    var n := Advance(rate, next, rs[0]);
    if k == 0 {
      instant := ReleaseTime(burst, n, rs[0].now);
    } else {
      instant := Released(rate, burst, n, rs[1..], k - 1);
    }
  }

  /** A clamped reservation breaks the bound at the very instant of its release. */
  lemma ClampedBreaksBound(rate: nat, burst: nat, next: nat, rs: seq<Reservation>, k: nat) returns (instant: nat)
    requires rate > 0 && burst <= U64_MAX && k < |rs| && rs[k].bytes * NANOS_PER_SECOND > rate * U64_MAX
    ensures !Bounded(rate, burst, next, rs, instant, instant)
  {
    instant := Released(rate, burst, next, rs, k);
    FirstCostClamped(rate, burst, next, rs, instant, instant);
    Scale(NANOS_PER_SECOND, rs[k].bytes, BytesReleased(rate, burst, next, rs, instant, instant));
    Scale(rate, Max(burst, FirstCost(rate, burst, next, rs, instant, instant)), U64_MAX);
  }

  /** The bound holds over all windows if and only if no reservation is clamped. */
  lemma RateBoundExactly(rate: nat, burst: nat, next: nat, rs: seq<Reservation>)
    requires rate > 0 && burst <= U64_MAX
    ensures (forall s: nat, t: nat :: Bounded(rate, burst, next, rs, s, t)) <==> Unclamped(rate, rs)
  {
    if Unclamped(rate, rs) {
      forall s: nat, t: nat ensures Bounded(rate, burst, next, rs, s, t) {
        RateBound(rate, burst, next, rs, s, t);
      }
    } else {
      var k :| 0 <= k < |rs| && rs[k].bytes * NANOS_PER_SECOND > rate * U64_MAX;
      var instant := ClampedBreaksBound(rate, burst, next, rs, k);
    }
  }

  /** At one byte per second, a reservation of 18446744074 bytes is too large. */
  lemma OversizedBreaksBound(now: nat) returns (instant: nat)
    ensures !Bounded(1, BURST, now, [Reservation(18446744074, now)], instant, instant)
  {
    instant := ClampedBreaksBound(1, BURST, now, [Reservation(18446744074, now)], 0);
  }

  /** The largest datagram is never clamped, so the bound holds for all traffic of the relay. */
  lemma DatagramsUnclamped(rate: nat, rs: seq<Reservation>)
    requires rate > 0 && forall r <- rs :: r.bytes <= MAX_DATAGRAM
    ensures Unclamped(rate, rs)
  {
    assert rate * U64_MAX >= U64_MAX;
  }

  // ---- The limiter delays no more than it must ----

  function TotalCost(rate: nat, rs: seq<Reservation>): nat
    requires rate > 0
  {
    if rs == [] then 0 else Cost(rate, rs[0].bytes) + TotalCost(rate, rs[1..])
  }

  /** The booking is the longest backlog: no arrival `k` leaves more work than it, and one
      arrival (or the initial booking) leaves exactly that much. */
  lemma {:induction false} NextIsLongestBacklog(rate: nat, next: nat, rs: seq<Reservation>)
    requires rate > 0
    ensures next + TotalCost(rate, rs) <= NextAfter(rate, next, rs)
    ensures forall k | 0 <= k < |rs| :: rs[k].now + TotalCost(rate, rs[k..]) <= NextAfter(rate, next, rs)
    ensures NextAfter(rate, next, rs) == next + TotalCost(rate, rs)
         || exists k | 0 <= k < |rs| :: NextAfter(rate, next, rs) == rs[k].now + TotalCost(rate, rs[k..])
    decreases rs
  {
    if rs != [] {
      var n := Advance(rate, next, rs[0]);
      NextIsLongestBacklog(rate, n, rs[1..]);
      forall k | 0 < k < |rs| ensures rs[k..] == rs[1..][k - 1..] {}
      assert rs[0..] == rs;
      var end := NextAfter(rate, n, rs[1..]);
      if end != n + TotalCost(rate, rs[1..]) {
        var j :| 0 <= j < |rs[1..]| && end == rs[1..][j].now + TotalCost(rate, rs[1..][j..]);
        assert end == rs[j + 1].now + TotalCost(rate, rs[j + 1..]);
      } else if next < rs[0].now {
        assert end == rs[0].now + TotalCost(rate, rs[0..]);
      }
    }
  }

  /** When reservation `k` of `rs` is released. */
  function ReleasedAt(rate: nat, burst: nat, next: nat, rs: seq<Reservation>, k: nat): nat
    requires rate > 0 && k < |rs|
  {
    ReleaseTime(burst, NextAfter(rate, next, rs[..k + 1]), rs[k].now)
  }

  /** A reservation goes out at once exactly if all booked work, its own included, ends within the
      burst; otherwise exactly the burst before the end of that work. */
  lemma DelayExactly(rate: nat, burst: nat, next: nat, rs: seq<Reservation>, k: nat)
    requires rate > 0 && k < |rs|
    ensures var end, out := NextAfter(rate, next, rs[..k + 1]), ReleasedAt(rate, burst, next, rs, k);
            if end <= rs[k].now + burst then out == rs[k].now else out + burst == end
  {
  }

  /** With a clock that does not go back and nothing booked beforehand, no delay exceeds the work
      reserved so far less the burst. */
  lemma DelayBounded(rate: nat, burst: nat, next: nat, rs: seq<Reservation>, k: nat)
    requires rate > 0 && k < |rs| && next <= rs[k].now && forall i | 0 <= i <= k :: rs[i].now <= rs[k].now
    ensures ReleasedAt(rate, burst, next, rs, k) - rs[k].now <= Max(0, TotalCost(rate, rs[..k + 1]) - burst)
  {
    var pre := rs[..k + 1];
    NextIsLongestBacklog(rate, next, pre);
    DelayExactly(rate, burst, next, rs, k);
    forall i | 0 <= i < |pre| ensures TotalCost(rate, pre[i..]) <= TotalCost(rate, pre) && pre[i].now <= rs[k].now {
      SuffixCost(rate, pre, i);
    }
  }

  lemma {:induction false} SuffixCost(rate: nat, rs: seq<Reservation>, i: nat)
    requires rate > 0 && i <= |rs|
    ensures TotalCost(rate, rs[i..]) <= TotalCost(rate, rs)
    decreases i
  {
    if i == 0 {
      assert rs[0..] == rs;
    } else {
      assert rs[1..][i - 1..] == rs[i..];
      SuffixCost(rate, rs[1..], i - 1);
    }
  }
}
