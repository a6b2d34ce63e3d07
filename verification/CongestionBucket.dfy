/**
 TokenBucketRateLimiter (src/network/limiter.py): a polling token bucket whose
 rate is halved by congestion backoff and creeps back by 5% per grant. The 0.1
 floor of the backoff decides when the target rate is a real ceiling.
 */
module CongestionBucket {
  import opened RealMath
  import opened Options
  import opened Ledger

  const BACKOFF_FLOOR := 0.1
  const BACKOFF_FACTOR := 0.5
  const RECOVERY_FACTOR := 1.05

  datatype Bucket = Bucket(target: real, capacity: real, current: real, tokens: real, at: real)

  datatype Event = Attempt(now: real, amount: real) | Backoff

  function Replenished(b: Bucket, now: real): Bucket {
    b.(tokens := Min(b.capacity, b.tokens + Accrued(now - b.at, b.current)), at := now)
  }

  function Recovered(target: real, current: real): real {
    if current < target then Min(target, current * RECOVERY_FACTOR) else current
  }

  function BackedOff(current: real): real {
    Max(BACKOFF_FLOOR, current * BACKOFF_FACTOR)
  }

  /** `log` records the opening and every grant. */
  datatype Run = Run(bucket: Bucket, log: seq<Entry>)

  function Open(target: real, capacity: real, now: real): Run {
    Run(Bucket(target, capacity, target, capacity, now), [Entry(now, 0.0, capacity)])
  }

  /**
   What the lock body does once the bucket is replenished. A negative amount puts tokens in; what
   overflows the bucket is gone at the next replenishment, and the log does not count on it.
   */
  function Settle(r: Run, amount: real): Run {
    var b := r.bucket;
    if b.tokens >= amount then
      Run(b.(tokens := b.tokens - amount, current := Recovered(b.target, b.current)),
          r.log + [Entry(b.at, amount, Min(b.capacity, b.tokens - amount))])
    else r
  }

  function Step(r: Run, e: Event): Run {
    match e
    case Attempt(now, amount) => Settle(r.(bucket := Replenished(r.bucket, now)), amount)
    case Backoff => r.(bucket := r.bucket.(current := BackedOff(r.bucket.current)))
  }

  /** The rate backoffs can reach: the target, or the floor when the target lies below it. */
  function Ceiling(target: real): real {
    Max(target, BACKOFF_FLOOR)
  }

  function TermsAt(b: Bucket, rate: real): Terms {
    Terms(b.capacity, rate)
  }

  /** A grant takes no more than the capacity and leaves no debt, unless the capacity itself is one. */
  predicate IsGrant(capacity: real, e: Entry) {
    e.amount <= capacity && e.level >= Min(0.0, capacity)
  }

  /** The bucket's rate stays at or below `rate`, and its log is accounted for at that rate. */
  ghost predicate InvAt(r: Run, rate: real) {
    && 0.0 < r.bucket.target <= rate
    && 0.0 < r.bucket.current <= rate
    && Covers(TermsAt(r.bucket, rate), r.log, Min(r.bucket.capacity, r.bucket.tokens), r.bucket.at)
    && r.log[0].amount == 0.0
    && forall k :: 0 < k < |r.log| ==> IsGrant(r.bucket.capacity, r.log[k])
  }

  ghost predicate Inv(r: Run) {
    InvAt(r, Ceiling(r.bucket.target))
  }

  lemma ReplenishKeepsInv(r: Run, rate: real, now: real)
    requires InvAt(r, rate) && r.bucket.at <= now
    ensures InvAt(r.(bucket := Replenished(r.bucket, now)), rate)
  {
    var b, t := r.bucket, TermsAt(r.bucket, rate);
    AccruesWithin(t, b.current, b.at, now);
    AccruedSign(now - b.at, b.current);
    Idle(t, r.log, Min(b.capacity, b.tokens), b.at, Replenished(b, now).tokens, now);
  }

  lemma SettleKeepsInv(r: Run, rate: real, amount: real)
    requires InvAt(r, rate) && r.bucket.tokens <= r.bucket.capacity
    ensures InvAt(Settle(r, amount), rate)
  {
    var b := r.bucket;
    if b.tokens >= amount {
      var e := Entry(b.at, amount, Min(b.capacity, b.tokens - amount));
      Post(TermsAt(b, rate), r.log, b.tokens, b.at, e);
      assert IsGrant(b.capacity, e);
    }
  }

  ghost predicate Allowed(r: Run, e: Event) {
    e.Attempt? ==> r.bucket.at <= e.now
  }

  /** Polls keep any accounting rate; a backoff keeps those from its floor up. */
  lemma StepKeepsInv(r: Run, rate: real, e: Event)
    requires InvAt(r, rate) && Allowed(r, e) && (e.Backoff? ==> rate >= BACKOFF_FLOOR)
    ensures InvAt(Step(r, e), rate) && Step(r, e).bucket.target == r.bucket.target
    ensures Step(r, e).bucket.capacity == r.bucket.capacity
  {
    match e
    case Attempt(now, amount) =>
      ReplenishKeepsInv(r, rate, now);
      SettleKeepsInv(r.(bucket := Replenished(r.bucket, now)), rate, amount);
    case Backoff =>
  }

  ghost predicate Runs(r: Run, events: seq<Event>)
    decreases |events|
  {
    events != [] ==> Allowed(r, events[0]) && Runs(Step(r, events[0]), events[1..])
  }

  ghost function Execute(r: Run, events: seq<Event>): Run
    decreases |events|
  {
    if events == [] then r else Execute(Step(r, events[0]), events[1..])
  }

  /** Every run keeps an accounting rate, provided backoffs occur only where it is at least their floor. */
  lemma {:induction false} ExecuteKeepsInv(r: Run, rate: real, events: seq<Event>)
    requires InvAt(r, rate) && Runs(r, events)
    requires rate >= BACKOFF_FLOOR || forall e <- events :: e.Attempt?
    ensures InvAt(Execute(r, events), rate)
    ensures Execute(r, events).bucket.target == r.bucket.target
    ensures Execute(r, events).bucket.capacity == r.bucket.capacity
    decreases |events|
  {
    if events != [] {
      assert events[0] in events;
      StepKeepsInv(r, rate, events[0]);
      ExecuteKeepsInv(Step(r, events[0]), rate, events[1..]);
    }
  }

  // ---------- When the target is a ceiling ----------

  /** The amounts granted by entries i..j fit in the capacity plus `rate` times the window. */
  ghost predicate Within(r: Run, rate: real, i: nat, j: nat)
    requires i <= j < |r.log|
  {
    Total(r.log, i, j + 1) <= r.bucket.capacity + Accrued(r.log[j].at - r.log[i].at, rate)
  }

  /** A bucket of negative capacity grants negative amounts only. */
  lemma {:induction false} NegativeTotal(log: seq<Entry>, capacity: real, i: nat, j: nat)
    requires 0 < i <= j < |log| && capacity < 0.0 && forall k :: 0 < k < |log| ==> IsGrant(capacity, log[k])
    ensures Total(log, i, j + 1) <= capacity
    decreases j - i
  {
    assert Total(log, i, j + 1) == Total(log, i, j) + log[j].amount;
    assert IsGrant(capacity, log[j]);
    if i < j { NegativeTotal(log, capacity, i, j - 1); }
  }

  lemma AmountsInWindow(r: Run, rate: real, i: nat, j: nat)
    requires InvAt(r, rate) && 0 < i <= j < |r.log|
    ensures Within(r, rate, i, j)
  {
    var t := TermsAt(r.bucket, rate);
    WindowBound(t, r.log, i, j);
    RefillIsProduct(t, r.log[i].at, r.log[j].at);
    assert IsGrant(r.bucket.capacity, r.log[j]);
    if r.bucket.capacity < 0.0 {
      NegativeTotal(r.log, r.bucket.capacity, i, j);
      AccruedSign(r.log[j].at - r.log[i].at, rate);
    }
  }

  /** Without a backoff every target, however small, is a real ceiling: rate and windows keep to it. */
  lemma TargetHoldsWithoutBackoff(target: real, capacity: real, now: real, events: seq<Event>)
    requires target > 0.0 && Runs(Open(target, capacity, now), events) && forall e <- events :: e.Attempt?
    ensures var r := Execute(Open(target, capacity, now), events);
            && r.bucket.current == target
            && forall i, j | 0 < i <= j < |r.log| :: Within(r, target, i, j)
  {
    var r := Execute(Open(target, capacity, now), events);
    ExecuteKeepsInv(Open(target, capacity, now), target, events);
    RecoveryIsCompound(Open(target, capacity, now), events);
    StaysAtTarget(target, |r.log| - 1);
    forall i, j | 0 < i <= j < |r.log|
      ensures Within(r, target, i, j)
    {
      AmountsInWindow(r, target, i, j);
    }
  }

  ghost predicate RateStaysAtTarget(target: real, capacity: real) {
    forall now, events | Runs(Open(target, capacity, now), events) ::
      0.0 < Execute(Open(target, capacity, now), events).bucket.current <= target
  }

  ghost predicate WindowsStayAtTarget(target: real, capacity: real) {
    forall now, events | Runs(Open(target, capacity, now), events) ::
      forall i, j | 0 < i <= j < |Execute(Open(target, capacity, now), events).log| ::
        Within(Execute(Open(target, capacity, now), events), target, i, j)
  }

  /**
   In every run the rate stays at or below the target, and every window of grants fits in the
   capacity plus the target rate, exactly when the target is at least the 0.1 floor of the backoff.
   */
  lemma TargetHoldsIffAtLeastFloor(target: real, capacity: real)
    requires target > 0.0 && capacity > 0.0
    ensures RateStaysAtTarget(target, capacity) <==> target >= BACKOFF_FLOOR
    ensures WindowsStayAtTarget(target, capacity) <==> target >= BACKOFF_FLOOR
  {
    if target >= BACKOFF_FLOOR {
      forall now, events | Runs(Open(target, capacity, now), events)
        ensures 0.0 < Execute(Open(target, capacity, now), events).bucket.current <= target
        ensures forall i, j | 0 < i <= j < |Execute(Open(target, capacity, now), events).log| ::
          Within(Execute(Open(target, capacity, now), events), target, i, j)
      {
        var r := Execute(Open(target, capacity, now), events);
        ExecuteKeepsInv(Open(target, capacity, now), target, events);
        forall i, j | 0 < i <= j < |r.log|
          ensures Within(r, target, i, j)
        {
          AmountsInWindow(r, target, i, j);
        }
      }
    } else {
      var r, events := FloorBreaksWindow(target, capacity);
      var open := Open(target, capacity, 0.0);
      assert Runs(open, [Backoff]) && [Backoff][1..] == [];
      assert Execute(open, [Backoff]) == Step(open, Backoff);
    }
  }

  /** Below the floor one backoff lifts the rate to 0.1, and it never comes back down. */
  lemma {:induction false} StuckAtFloor(r: Run, events: seq<Event>)
    requires r.bucket.target < BACKOFF_FLOOR && r.bucket.current == BACKOFF_FLOOR
    ensures Execute(r, events).bucket.current == BACKOFF_FLOOR
    decreases |events|
  {
    if events != [] {
      StuckAtFloor(Step(r, events[0]), events[1..]);
    }
  }

  /** And the overshoot is real: drain, back off, wait, and the window takes more than the target allows. */
  lemma FloorBreaksWindow(target: real, capacity: real) returns (r: Run, events: seq<Event>)
    requires 0.0 < target < BACKOFF_FLOOR && capacity > 0.0
    ensures Runs(Open(target, capacity, 0.0), events) && r == Execute(Open(target, capacity, 0.0), events)
    ensures |r.log| == 3 && !Within(r, target, 1, 2)
  {
    var open := Open(target, capacity, 0.0);
    var later, gain := capacity, Accrued(capacity, BACKOFF_FLOOR);
    events := [Attempt(0.0, capacity), Backoff, Attempt(later, gain)];
    var drained := Step(open, events[0]);
    assert drained.bucket == Bucket(target, capacity, target, 0.0, 0.0);
    var slowed := Step(drained, events[1]);
    assert slowed.bucket == Bucket(target, capacity, BACKOFF_FLOOR, 0.0, 0.0);
    r := Step(slowed, events[2]);
    AccruedNothing(target);
    assert Replenished(slowed.bucket, later).tokens == gain;
    assert events[1..] == [Backoff, Attempt(later, gain)] && events[1..][1..] == [Attempt(later, gain)];
    assert Runs(slowed, [Attempt(later, gain)]) && Execute(slowed, [Attempt(later, gain)]) == r by {
      assert [Attempt(later, gain)][1..] == [];
      assert Runs(r, []);
    }
    assert Runs(drained, events[1..]) && Execute(drained, events[1..]) == r;
    assert r.log == [Entry(0.0, 0.0, capacity), Entry(0.0, capacity, 0.0), Entry(later, gain, 0.0)];
    assert Total(r.log, 1, 3) == Total(r.log, 1, 2) + gain;
    assert Total(r.log, 1, 2) == Total(r.log, 1, 1) + capacity;
    assert Total(r.log, 1, 3) == capacity + gain;
    SlowerYieldsLess(target, r.log[2].at - r.log[1].at);
  }

  lemma SlowerYieldsLess(slow: real, span: real)
    requires slow < BACKOFF_FLOOR && 0.0 < span
    ensures Accrued(span, slow) < Accrued(span, BACKOFF_FLOOR)
  {
    assert (BACKOFF_FLOOR - slow) * span > 0.0;
  }

  // ---------- Recovery ----------

  function Compounded(target: real, current: real, n: nat): real {
    Min(target, current * Pow(RECOVERY_FACTOR, n))
  }

  lemma {:induction false} PowAtLeastOne(n: nat)
    ensures Pow(RECOVERY_FACTOR, n) >= 1.0
  {
    if n > 0 { PowAtLeastOne(n - 1); }
  }

  lemma StaysAtTarget(target: real, n: nat)
    requires target > 0.0
    ensures Compounded(target, target, n) == target
  {
    PowAtLeastOne(n);
    MulMonotone(1.0, Pow(RECOVERY_FACTOR, n), target);
  }

  lemma CapThenScale(target: real, current: real, next: real, p: real, q: real)
    requires 0.0 < target && 0.0 < current <= target && 1.0 <= p && q == RECOVERY_FACTOR * p
    requires next == Min(target, current * RECOVERY_FACTOR)
    ensures Min(target, next * p) == Min(target, current * q)
  {
    MulRegroups(current, RECOVERY_FACTOR, p);
    MulMonotone(1.0, p, target);
    if current * RECOVERY_FACTOR > target {
      MulMonotone(target, current * RECOVERY_FACTOR, p);
    }
  }

  lemma CompoundStep(target: real, current: real, n: nat)
    requires 0.0 < current <= target && 0 < n
    ensures Compounded(target, Recovered(target, current), n - 1) == Compounded(target, current, n)
  {
    PowAtLeastOne(n - 1);
    if current == target {
      assert Recovered(target, current) == Min(target, current * RECOVERY_FACTOR);
    }
    CapThenScale(target, current, Recovered(target, current),
                 Pow(RECOVERY_FACTOR, n - 1), Pow(RECOVERY_FACTOR, n));
  }

  /**
   Without a further backoff, whatever polls fail in between, n grants compound the rate by
   1.05 each, up to the target.
   */
  lemma {:induction false} RecoveryIsCompound(r: Run, events: seq<Event>)
    requires 0.0 < r.bucket.current <= r.bucket.target
    requires forall e <- events :: e.Attempt?
    ensures |Execute(r, events).log| >= |r.log|
    ensures Execute(r, events).bucket.current ==
              Compounded(r.bucket.target, r.bucket.current, |Execute(r, events).log| - |r.log|)
    decreases |events|
  {
    if events == [] {
      assert Pow(RECOVERY_FACTOR, 0) == 1.0;
    } else {
      var next := Step(r, events[0]);
      assert events[0] in events;
      RecoveryIsCompound(next, events[1..]);
      if |next.log| > |r.log| {
        CompoundStep(r.bucket.target, r.bucket.current, |Execute(r, events).log| - |r.log|);
      }
    }
  }

  // ---------- What a grant and a backoff leave behind ----------

  predicate Passes(b: Bucket, now: real, amount: real) {
    Replenished(b, now).tokens >= amount
  }

  /** The level a replenishment at the instant brings. */
  function LevelAt(b: Bucket, now: real): real {
    Min(b.capacity, b.tokens + Accrued(now - b.at, b.current))
  }

  /** A refused poll takes nothing and leaves the rate alone. */
  lemma RefusalTakesNothing(r: Run, now: real, amount: real)
    requires !Passes(r.bucket, now, amount)
    ensures Step(r, Attempt(now, amount)) == r.(bucket := r.bucket.(tokens := LevelAt(r.bucket, now), at := now))
  {}

  /** Behind a granted poll a second one passes at the same instant exactly when both fit the level together. */
  lemma SecondPassesIff(r: Run, now: real, first: real, second: real)
    requires first >= 0.0 && Passes(r.bucket, now, first)
    ensures Passes(Step(r, Attempt(now, first)).bucket, now, second) <==> first + second <= LevelAt(r.bucket, now)
  {
    AccruedNothing(Step(r, Attempt(now, first)).bucket.current);
  }

  /** n polls for one token each, at one instant. */
  function Polls(r: Run, now: real, n: nat): Run {
    if n == 0 then r else Step(Polls(r, now, n - 1), Attempt(now, 1.0))
  }

  ghost predicate AllPass(r: Run, now: real, n: nat) {
    forall k: nat | k < n :: Passes(Polls(r, now, k).bucket, now, 1.0)
  }

  /** In every state, n > 0 polls for one token each pass at one instant exactly when n is within the level. */
  lemma {:induction false} BurstPassesIff(r: Run, now: real, n: nat)
    requires n > 0
    ensures AllPass(r, now, n) <==> n as real <= LevelAt(r.bucket, now)
    ensures AllPass(r, now, n) ==>
              var b := Polls(r, now, n).bucket;
              b.at == now && b.tokens == LevelAt(r.bucket, now) - n as real && b.capacity == r.bucket.capacity
    decreases n
  {
    var before := Polls(r, now, n - 1);
    assert AllPass(r, now, n) <==> AllPass(r, now, n - 1) && Passes(before.bucket, now, 1.0);
    if n == 1 {
      assert before == r;
    } else {
      BurstPassesIff(r, now, n - 1);
      AccruedNothing(before.bucket.current);
    }
  }

  /** The burst of a fresh limiter: exactly as many as the capacity holds pass at the opening instant. */
  lemma OpeningBurst(target: real, capacity: real, now: real, n: nat)
    requires capacity >= 0.0
    ensures AllPass(Open(target, capacity, now), now, n) <==> n as real <= capacity
  {
    AccruedNothing(target);
    if n > 0 {
      BurstPassesIff(Open(target, capacity, now), now, n);
    }
  }

  function Backoffs(r: Run, k: nat): Run {
    if k == 0 then r else Step(Backoffs(r, k - 1), Backoff)
  }

  /** A fraction of a rate, but never below 0.1. */
  function Lowered(rate: real, fraction: real): real {
    Max(0.1, rate * fraction)
  }

  /** k backoffs in a row halve the rate k times, down to 0.1, and leave level and log alone. */
  lemma {:induction false} BackoffsExact(r: Run, k: nat)
    requires k > 0
    ensures Backoffs(r, k) == r.(bucket := r.bucket.(current := Lowered(r.bucket.current, Pow(0.5, k))))
    decreases k
  {
    var rate := r.bucket.current;
    assert Pow(0.5, k) == 0.5 * Pow(0.5, k - 1);
    if k == 1 {
      assert Backoffs(r, 0) == r && Pow(0.5, 0) == 1.0 && Pow(0.5, 1) == 0.5;
    } else {
      BackoffsExact(r, k - 1);
      HalveOnce(rate, Pow(0.5, k - 1), Pow(0.5, k));
    }
  }

  lemma HalveOnce(rate: real, p: real, q: real)
    requires q == 0.5 * p
    ensures BackedOff(Lowered(rate, p)) == Lowered(rate, q)
  {
    HalfOfFloored(rate * p);
    HalfOfProduct(rate, p, q);
  }

  lemma HalfOfProduct(rate: real, p: real, q: real)
    requires q == 0.5 * p
    ensures rate * q == (rate * p) * 0.5
  {
    MulRegroups(rate, p, 0.5);
    assert q == p * 0.5;
  }

  lemma HalfOfFloored(x: real)
    ensures BackedOff(Max(0.1, x)) == Max(0.1, x * 0.5)
  {}

  // ---------- The limiter object ----------

  function SleepTime(b: Bucket, amount: real): real
    requires b.current > 0.0
  {
    Delay(amount - b.tokens, b.current)
  }

  lemma SleepIsPositive(b: Bucket, amount: real)
    requires b.current > 0.0 && b.tokens < amount
    ensures SleepTime(b, amount) > 0.0
  {
    DelaySign(amount - b.tokens, b.current);
  }

  /** A refused caller that waits d finds enough tokens exactly when d is at least the computed sleep. */
  lemma SleepIsExact(b: Bucket, amount: real, d: real)
    requires b.current > 0.0 && b.tokens < amount && 0.0 <= d
    ensures Replenished(b, b.at + d).tokens >= amount <==> d >= SleepTime(b, amount) && amount <= b.capacity
  {
    MetFromDelayOn(amount - b.tokens, d, b.current);
  }

  class TokenBucketRateLimiter {
    const targetMaxRate: real
    const capacity: real
    var currentMaxRate: real
    var tokens: real
    var lastUpdate: real
    ghost var log: seq<Entry>

    ghost function State(): Run
      reads this
    {
      Run(Bucket(targetMaxRate, capacity, currentMaxRate, tokens, lastUpdate), log)
    }

    ghost predicate Valid()
      reads this
    {
      Inv(State())
    }

    /** Without a capacity of its own the bucket holds one second's worth of tokens. */
    constructor (maxRate: real, capacity: Option<real>, now: real)
      requires maxRate > 0.0
      ensures Valid()
      ensures State() == Open(maxRate, if capacity.Some? then capacity.value else maxRate, now)
    {
      var room := if capacity.Some? then capacity.value else maxRate;
      targetMaxRate, this.capacity := maxRate, room;
      currentMaxRate := maxRate;
      tokens := room;
      lastUpdate := now;
      log := [Entry(now, 0.0, room)];
    }

    method Replenish(now: real)
      requires Valid() && lastUpdate <= now
      modifies this`tokens, this`lastUpdate
      ensures Valid()
      ensures State() == old(State()).(bucket := Replenished(old(State()).bucket, now))
      ensures tokens <= capacity
    {
      ReplenishKeepsInv(State(), Ceiling(targetMaxRate), now);
      var elapsed := now - lastUpdate;
      var tokensToAdd := Accrued(elapsed, currentMaxRate);
      tokens := Min(capacity, tokens + tokensToAdd);
      lastUpdate := now;
    }

    /** One pass of the loop of `acquire`. */
    method TryAcquire(now: real, amount: real) returns (granted: bool, sleepTime: real)
      requires Valid() && lastUpdate <= now
      modifies this
      ensures Valid()
      ensures State() == Step(old(State()), Attempt(now, amount))
      ensures granted <==> LevelAt(old(State().bucket), now) >= amount
      ensures !granted ==> tokens == LevelAt(old(State().bucket), now) && currentMaxRate == old(currentMaxRate)
      ensures granted ==>
                && tokens == LevelAt(old(State().bucket), now) - amount
                && log == old(log) + [Entry(now, amount, Min(capacity, tokens))]
      ensures !granted ==> log == old(log) && tokens < amount && sleepTime == SleepTime(State().bucket, amount)
      ensures lastUpdate == now
    {
      Replenish(now);
      SettleKeepsInv(State(), Ceiling(targetMaxRate), amount);
      if tokens >= amount {
        tokens := tokens - amount;
        log := log + [Entry(lastUpdate, amount, Min(capacity, tokens))];
        if currentMaxRate < targetMaxRate {
          currentMaxRate := Min(targetMaxRate, currentMaxRate * RECOVERY_FACTOR);
        }
        return true, 0.0;
      }
      var tokensNeeded := amount - tokens;
      return false, Delay(tokensNeeded, currentMaxRate);
    }

    /** `acquire` with nobody else taking: one sleep suffices exactly when the amount fits the bucket. */
    method AcquireAlone(now: real, amount: real, overshoots: seq<real>)
      returns (granted: bool, sleeps: nat, at: real)
      requires Valid() && lastUpdate <= now && forall o <- overshoots :: o >= 0.0
      modifies this
      ensures Valid()
      ensures amount > capacity ==> !granted && sleeps == |overshoots| && log == old(log)
      ensures amount <= capacity && |overshoots| >= 1 ==> granted
      ensures granted ==> sleeps <= |overshoots| && sleeps <= 1
      ensures granted ==> log == old(log) + [Entry(at, amount, Min(capacity, tokens))]
      ensures now <= at == lastUpdate
    {
      at, sleeps := now, 0;
      var sleepTime: real;
      granted, sleepTime := TryAcquire(at, amount);
      while !granted && sleeps < |overshoots|
        invariant Valid() && sleeps <= |overshoots|
        invariant granted ==> amount <= capacity && sleeps <= 1
        invariant granted ==> log == old(log) + [Entry(at, amount, Min(capacity, tokens))]
        invariant now <= at == lastUpdate
        invariant amount <= capacity ==> granted || sleeps == 0
        invariant !granted ==> log == old(log) && tokens < amount
        invariant !granted ==> sleepTime == SleepTime(State().bucket, amount)
        decreases |overshoots| - sleeps
      {
        assert overshoots[sleeps] in overshoots;
        SleepIsPositive(State().bucket, amount);
        SleepIsExact(State().bucket, amount, SleepTime(State().bucket, amount) + overshoots[sleeps]);
        at := at + sleepTime + overshoots[sleeps];
        granted, sleepTime := TryAcquire(at, amount);
        sleeps := sleeps + 1;
      }
    }

    method TriggerCongestionBackoff()
      requires Valid()
      modifies this`currentMaxRate
      ensures Valid()
      ensures State() == Step(old(State()), Backoff)
      ensures currentMaxRate <= targetMaxRate <==> targetMaxRate >= BACKOFF_FLOOR
    {
      StepKeepsInv(State(), Ceiling(targetMaxRate), Backoff);
      currentMaxRate := Max(BACKOFF_FLOOR, currentMaxRate * BACKOFF_FACTOR);
    }
  }
}
