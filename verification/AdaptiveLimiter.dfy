/**
 AdaptiveRateLimiter (src/network/limiter.py): a token bucket that never loops.
 A caller that finds no token books the future by moving `lastRefill` ahead of
 the clock, so the next caller may see a negative elapsed time. The model shows
 that this is exactly the first-come-first-served ideal bucket, and that the
 hard cap holds over every window of every run in which 429s and successes
 keep moving the rate between calls.
 */
module AdaptiveLimiter {
  import opened RealMath
  import opened Options
  import opened ProviderLimits
  import opened Ledger
  import opened Aimd

  const BURST_CAPACITY := 10
  const CAPACITY: real := BURST_CAPACITY as real

  // ---------- The ideal bucket ----------

  /** `tokens` were left when the last grant was made at instant `at`. */
  datatype Bucket = Bucket(tokens: real, at: real)

  function Level(b: Bucket, rate: real, t: real): real {
    Min(CAPACITY, b.tokens + Accrued(t - b.at, rate))
  }

  /** The ideal bucket reaches one token at g, not before the caller, the previous grant, or any earlier instant. */
  ghost predicate EarliestGrant(b: Bucket, rate: real, now: real, g: real) {
    && now <= g
    && b.at <= g
    && Level(b, rate, g) >= 1.0
    && forall t :: now <= t < g && b.at <= t ==> Level(b, rate, t) < 1.0
  }

  /** The grant instant, and the bucket one token poorer at that instant. */
  function Grant(b: Bucket, rate: real, now: real): Bucket
    requires rate > 0.0
  {
    var start := Max(now, b.at);
    var g := if Level(b, rate, start) >= 1.0 then start else b.at + Delay(1.0 - b.tokens, rate);
    Bucket(Level(b, rate, g) - 1.0, g)
  }

  /** The instant at which the refill alone brings the bucket to one token. */
  function Due(b: Bucket, rate: real): real
    requires rate > 0.0
  {
    b.at + Delay(1.0 - b.tokens, rate)
  }

  lemma LevelReachesOne(b: Bucket, rate: real, t: real)
    requires rate > 0.0
    ensures Level(b, rate, t) >= 1.0 <==> t >= Due(b, rate)
    ensures t == Due(b, rate) ==> Level(b, rate, t) == 1.0
  {
    MetFromDelayOn(1.0 - b.tokens, t - b.at, rate);
  }

  /** The grant falls at the latest of the caller, the previous grant and the due instant. */
  lemma GrantInstant(b: Bucket, rate: real, now: real)
    requires rate > 0.0
    ensures Grant(b, rate, now).at == Max(Max(now, b.at), Due(b, rate))
    ensures 0.0 <= Grant(b, rate, now).tokens <= CAPACITY - 1.0
    ensures Grant(b, rate, now).at == Due(b, rate) ==> Grant(b, rate, now).tokens == 0.0
  {
    LevelReachesOne(b, rate, Max(now, b.at));
    LevelReachesOne(b, rate, Grant(b, rate, now).at);
  }

  /** The grant is the one and only earliest instant. */
  lemma GrantIffEarliest(b: Bucket, rate: real, now: real, g: real)
    requires rate > 0.0
    ensures EarliestGrant(b, rate, now, g) <==> g == Grant(b, rate, now).at
  {
    GrantInstant(b, rate, now);
    var first := Grant(b, rate, now).at;
    LevelReachesOne(b, rate, g);
    LevelReachesOne(b, rate, first);
    if g == first {
      forall t | now <= t < g && b.at <= t
        ensures Level(b, rate, t) < 1.0
      {
        LevelReachesOne(b, rate, t);
      }
    }
  }

  /** A caller that finds the bucket booked ahead waits exactly 1/rate longer than the one before. */
  lemma BookedCallersAreSpaced(b: Bucket, rate: real, now: real)
    requires rate > 0.0 && b.tokens == 0.0 && now <= b.at
    ensures Grant(b, rate, now) == Bucket(0.0, b.at + Delay(1.0, rate))
  {
    DelaySign(1.0, rate);
    GrantInstant(b, rate, now);
  }

  // ---------- Runs: acquires and rate signals in any order ----------

  datatype Event = Acquire(now: real) | Signal(signal: Aimd.Signal)

  /** `log[0]` is the opening entry; every later entry is one grant. */
  datatype Run = Run(controller: Controller, bucket: Bucket, clock: real, log: seq<Entry>)

  ghost function Open(controller: Controller, now: real): (r: Run)
    ensures Aimd.Valid(controller) ==> Inv(r)
  {
    Run(controller, Bucket(CAPACITY, now), now, [Entry(now, 0.0, CAPACITY)])
  }

  function Step(r: Run, e: Event): Run
    requires r.controller.rate > 0.0
  {
    match e
    case Acquire(now) =>
      var b := Grant(r.bucket, r.controller.rate, now);
      r.(bucket := b, clock := now, log := r.log + [Entry(b.at, 1.0, b.tokens)])
    case Signal(s) => r.(controller := OnSignal(r.controller, s))
  }

  function CapTerms(r: Run): Terms {
    Terms(CAPACITY, r.controller.hardCap)
  }

  ghost predicate Inv(r: Run) {
    && Aimd.Valid(r.controller)
    && 0.0 <= r.bucket.tokens
    && r.clock <= r.bucket.at
    && (r.bucket.at > r.clock ==> r.bucket.tokens == 0.0)
    && Covers(CapTerms(r), r.log, r.bucket.tokens, r.bucket.at)
    && r.log[|r.log| - 1].at == r.bucket.at && r.log[|r.log| - 1].level == r.bucket.tokens
    && UnitCharges(r.log)
  }

  lemma GrantIsPaidFor(b: Bucket, rate: real, hardCap: real, now: real)
    requires 0.0 < rate <= hardCap
    ensures var g := Grant(b, rate, now);
            && b.at <= g.at && now <= g.at && 0.0 <= g.tokens <= CAPACITY - 1.0
            && (g.at > now && b.at <= now ==> g.tokens == 0.0)
            && g.tokens + 1.0 <= b.tokens + Refill(Terms(CAPACITY, hardCap), b.at, g.at)
  {
    GrantInstant(b, rate, now);
    AccruesWithin(Terms(CAPACITY, hardCap), rate, b.at, Grant(b, rate, now).at);
  }

  lemma StepKeepsInv(r: Run, e: Event)
    requires Inv(r) && (e.Acquire? ==> r.clock <= e.now)
    ensures Inv(Step(r, e)) && Step(r, e).controller.hardCap == r.controller.hardCap
    ensures r.log <= Step(r, e).log
  {
    match e
    case Acquire(now) =>
      var b := Grant(r.bucket, r.controller.rate, now);
      GrantIsPaidFor(r.bucket, r.controller.rate, r.controller.hardCap, now);
      if r.bucket.at > now {
        BookedCallersAreSpaced(r.bucket, r.controller.rate, now);
      }
      Post(CapTerms(r), r.log, r.bucket.tokens, r.bucket.at, Entry(b.at, 1.0, b.tokens));
    case Signal(s) =>
      SignalKeepsValid(r.controller, s);
  }

  ghost predicate InOrder(clock: real, events: seq<Event>)
    decreases |events|
  {
    events != [] ==>
      && (events[0].Acquire? ==> clock <= events[0].now)
      && InOrder(if events[0].Acquire? then events[0].now else clock, events[1..])
  }

  ghost function Execute(r: Run, events: seq<Event>): Run
    requires Inv(r) && InOrder(r.clock, events)
    decreases |events|
  {
    if events == [] then r else
    StepKeepsInv(r, events[0]);
    Execute(Step(r, events[0]), events[1..])
  }

  lemma {:induction false} ExecuteKeepsInv(r: Run, events: seq<Event>)
    requires Inv(r) && InOrder(r.clock, events)
    ensures Inv(Execute(r, events)) && Execute(r, events).controller.hardCap == r.controller.hardCap
    ensures r.log <= Execute(r, events).log
    decreases |events|
  {
    if events != [] {
      StepKeepsInv(r, events[0]);
      ExecuteKeepsInv(Step(r, events[0]), events[1..]);
    }
  }

  // ---------- The promises ----------

  /** Grants i..j number at most the burst capacity plus hard cap times the window, and never go back in time. */
  ghost predicate WithinCap(log: seq<Entry>, hardCap: real, i: nat, j: nat)
    requires i <= j < |log|
  {
    && log[i].at <= log[j].at
    && (j - i + 1) as real <= CAPACITY + Accrued(log[j].at - log[i].at, hardCap)
  }

  lemma GrantsInWindow(r: Run, i: nat, j: nat)
    requires Inv(r) && 0 < i <= j < |r.log|
    ensures WithinCap(r.log, r.controller.hardCap, i, j)
  {
    UnitWindow(CapTerms(r), r.log, i, j);
  }

  /** Counted from the opening instant, the first j grants fit in the capacity plus hard cap times the time so far. */
  lemma GrantsSinceOpening(r: Run, j: nat)
    requires Inv(r) && 0 < j < |r.log|
    ensures r.log[0].at <= r.log[j].at
    ensures j as real <= CAPACITY + Accrued(r.log[j].at - r.log[0].at, r.controller.hardCap)
  {
    UnitWindow(CapTerms(r), r.log, 0, j);
  }

  /** From a fresh limiter, whatever the calls, 429s and successes, every window of grants respects the hard cap. */
  lemma HardCapOverEveryWindow(c: Controller, now: real, events: seq<Event>)
    requires Aimd.Valid(c) && InOrder(now, events)
    ensures var log := Execute(Open(c, now), events).log;
            forall i, j :: 0 < i <= j < |log| ==> WithinCap(log, c.hardCap, i, j)
  {
    var r := Execute(Open(c, now), events);
    ExecuteKeepsInv(Open(c, now), events);
    forall i, j | 0 < i <= j < |r.log|
      ensures WithinCap(r.log, c.hardCap, i, j)
    {
      GrantsInWindow(r, i, j);
    }
  }

  function Burst(b: Bucket, rate: real, now: real, n: nat): Bucket
    requires rate > 0.0
  {
    if n == 0 then b else Grant(Burst(b, rate, now, n - 1), rate, now)
  }

  /**
   n simultaneous callers of any bucket, idle, partly filled or booked ahead: those for whom it then
   holds a token pass at once, and the rest are spaced 1/rate apart, the first of them as soon as
   the refill makes up for what it lacks.
   */
  lemma {:induction false} BurstSchedule(b: Bucket, rate: real, now: real, n: nat)
    requires rate > 0.0 && n > 0
    ensures var start := Max(now, b.at);
            var level := Min(CAPACITY, b.tokens + Accrued(start - b.at, rate));
            Burst(b, rate, now, n) ==
              if n as real <= level then Bucket(level - n as real, start)
              else Bucket(0.0, start + Delay(n as real - level, rate))
    decreases n
  {
    var start := Max(now, b.at);
    var level := Level(b, rate, start);
    if n == 1 {
      FirstOfBurst(b, rate, now);
    } else {
      BurstSchedule(b, rate, now, n - 1);
      var before := Burst(b, rate, now, n - 1);
      if (n - 1) as real <= level {
        FirstOfBurst(before, rate, now);
        AccruedNothing(rate);
      } else {
        SpacingAdds(start, (n - 1) as real - level, rate);
        BookedCallersAreSpaced(before, rate, now);
      }
    }
  }

  lemma FirstOfBurst(b: Bucket, rate: real, now: real)
    requires rate > 0.0
    ensures var start := Max(now, b.at);
            var level := Level(b, rate, start);
            Grant(b, rate, now) ==
              if 1.0 <= level then Bucket(level - 1.0, start) else Bucket(0.0, start + Delay(1.0 - level, rate))
  {
    var start := Max(now, b.at);
    var level := Level(b, rate, start);
    LevelReachesOne(b, rate, start);
    GrantInstant(b, rate, now);
    if level < 1.0 {
      DelayAfter(1.0 - b.tokens, start - b.at, rate, 1.0 - level);
    }
  }

  function Acquires(n: nat, now: real): seq<Event> {
    seq(n, _ => Acquire(now))
  }

  /** From a fresh limiter ten callers pass at the opening instant, and caller number k > 10 after (k - 10)/rate. */
  lemma {:induction false} OpeningBurst(c: Controller, now: real, n: nat)
    requires Aimd.Valid(c) && n > 0
    ensures InOrder(now, Acquires(n, now))
    ensures var r := Execute(Open(c, now), Acquires(n, now));
            && r.bucket == Burst(Bucket(CAPACITY, now), c.rate, now, n)
            && r.controller == c && r.clock == now && |r.log| == n + 1
            && r.log[n].at == if n <= BURST_CAPACITY then now else now + Delay((n - BURST_CAPACITY) as real, c.rate)
    decreases n
  {
    BurstSchedule(Bucket(CAPACITY, now), c.rate, now, n);
    AccruedNothing(c.rate);
    var open := Open(c, now);
    assert Acquires(n, now) == Acquires(n - 1, now) + [Acquire(now)];
    if n == 1 {
      assert Acquires(0, now) == [];
    } else {
      OpeningBurst(c, now, n - 1);
    }
    ExecuteKeepsInv(open, Acquires(n - 1, now));
    ExecuteAppend(open, Acquires(n - 1, now), now);
  }

  lemma FullBucketGrants(b: Bucket, rate: real, now: real)
    requires rate > 0.0 && 1.0 <= b.tokens <= CAPACITY && now == b.at
    ensures Grant(b, rate, now) == Bucket(b.tokens - 1.0, now)
  {
    AccruedNothing(rate);
  }

  lemma SpacingAdds(now: real, k: real, rate: real)
    requires rate > 0.0 && 0.0 <= k
    ensures now <= now + Delay(k, rate)
    ensures now + Delay(k, rate) + Delay(1.0, rate) == now + Delay(k + 1.0, rate)
  {
    DelaySign(k, rate);
  }

  /** The window bound is tight: at the hard cap a burst of n > 10 callers meets it with equality. */
  lemma WindowBoundIsTight(hardCap: real, now: real, n: nat)
    requires hardCap > 0.0 && n >= BURST_CAPACITY
    ensures n as real == CAPACITY + Accrued(Burst(Bucket(CAPACITY, now), hardCap, now, n).at - now, hardCap)
  {
    BurstSchedule(Bucket(CAPACITY, now), hardCap, now, n);
    AccruedNothing(hardCap);
    DelayAccrues((n - BURST_CAPACITY) as real, hardCap);
  }

  // ---------- When the bare cap holds ----------

  /** Grants after entry i number at most the tokens it left plus the hard cap times the time since. */
  lemma GrantsAfter(r: Run, i: nat, j: nat)
    requires Inv(r) && i < j < |r.log|
    ensures r.log[i].at <= r.log[j].at
    ensures (j - i) as real <= r.log[i].level + Accrued(r.log[j].at - r.log[i].at, r.controller.hardCap)
  {
    UnitsSince(CapTerms(r), r.log, i, j);
  }

  /** Grant j and the ones before it, back to but without entry i, fit in the bare cap times the time since entry i. */
  ghost predicate BareCap(log: seq<Entry>, hardCap: real, i: nat, j: nat)
    requires i < j < |log|
  {
    (j - i) as real <= Accrued(log[j].at - log[i].at, hardCap)
  }

  ghost predicate BareCapSince(log: seq<Entry>, hardCap: real, i: nat) {
    forall j: nat | i < j < |log| :: BareCap(log, hardCap, i, j)
  }

  /** Whatever is called and signalled from here on, later grants keep to the bare cap, counted from the last one. */
  ghost predicate BareCapFromHere(r: Run)
    requires Inv(r)
  {
    forall events | InOrder(r.clock, events) ::
      BareCapSince(Execute(r, events).log, r.controller.hardCap, |r.log| - 1)
  }

  /** After a grant that emptied the bucket. */
  lemma EmptiedKeepsBareCap(r: Run, i: nat)
    requires Inv(r) && i < |r.log| && r.log[i].level == 0.0
    ensures BareCapSince(r.log, r.controller.hardCap, i)
  {
    forall j: nat | i < j < |r.log|
      ensures BareCap(r.log, r.controller.hardCap, i, j)
    {
      GrantsAfter(r, i, j);
    }
  }

  /** Successes enough to bring the rate to the cap. */
  lemma {:induction false} ClimbToCap(r: Run, n: nat) returns (events: seq<Event>)
    requires Inv(r)
    ensures InOrder(r.clock, events)
    ensures Execute(r, events) == r.(controller := Successes(r.controller, n))
    decreases n
  {
    if n == 0 {
      events := [];
    } else {
      StepKeepsInv(r, Signal(Success));
      var next := Step(r, Signal(Success));
      var rest := ClimbToCap(next, n - 1);
      events := [Signal(Success)] + rest;
      assert events[1..] == rest;
    }
  }

  lemma {:induction false} ExecuteAppend(r: Run, events: seq<Event>, now: real)
    requires Inv(r) && InOrder(r.clock, events) && Inv(Execute(r, events)) && Execute(r, events).clock <= now
    ensures InOrder(r.clock, events + [Acquire(now)])
    ensures Execute(r, events + [Acquire(now)]) == Step(Execute(r, events), Acquire(now))
    decreases |events|
  {
    var all := events + [Acquire(now)];
    if events == [] {
      assert all[1..] == [];
    } else {
      StepKeepsInv(r, events[0]);
      assert all[1..] == events[1..] + [Acquire(now)];
      ExecuteAppend(Step(r, events[0]), events[1..], now);
    }
  }

  /** At the cap, a bucket with something left grants again in less than 1/cap. */
  lemma LeftoverGrantsEarly(b: Bucket, rate: real, now: real)
    requires rate > 0.0 && now == b.at && b.tokens > 0.0
    ensures 1.0 > Accrued(Grant(b, rate, now).at - b.at, rate)
  {
    var g := Grant(b, rate, now).at;
    GrantInstant(b, rate, now);
    DelayAccrues(1.0 - b.tokens, rate);
    AccruedNothing(rate);
    assert g == b.at || g == Due(b, rate);
    if g == Due(b, rate) {
      assert g - b.at == Delay(1.0 - b.tokens, rate);
    }
  }

  /** From a state with tokens left, successes and one more call break the bare cap. */
  lemma LeftoverBreaksBareCap(r: Run) returns (events: seq<Event>)
    requires Inv(r) && r.bucket.tokens > 0.0
    ensures InOrder(r.clock, events) && |Execute(r, events).log| == |r.log| + 1
    ensures !BareCap(Execute(r, events).log, r.controller.hardCap, |r.log| - 1, |r.log|)
  {
    var c := r.controller;
    var steps := Ceil((c.hardCap - c.rate) / ADDITIVE_INCREASE_RPS);
    var n := SUCCESSES_BEFORE_INCREASE * if steps >= 0 then steps else 0;
    ReachesCapFrom(c, n);
    var climb := ClimbToCap(r, n);
    ExecuteKeepsInv(r, climb);
    ExecuteAppend(r, climb, r.clock);
    events := climb + [Acquire(r.clock)];
    LeftoverGrantsEarly(r.bucket, c.hardCap, r.clock);
  }

  /**
   The documented bare cap, with no burst on top, holds after a grant whatever follows if and only
   if that grant emptied the bucket.
   */
  lemma BareCapIffNothingLeft(r: Run)
    requires Inv(r)
    ensures BareCapFromHere(r) <==> r.log[|r.log| - 1].level == 0.0
  {
    var i := |r.log| - 1;
    if r.bucket.tokens > 0.0 {
      var events := LeftoverBreaksBareCap(r);
    } else {
      forall events | InOrder(r.clock, events)
        ensures BareCapSince(Execute(r, events).log, r.controller.hardCap, i)
      {
        ExecuteKeepsInv(r, events);
        EmptiedKeepsBareCap(Execute(r, events), i);
      }
    }
  }

  // ---------- The limiter object ----------

  /** The `api_rate_limits` table: one row per namespace. */
  class RateStore {
    var rates: map<string, real>

    constructor ()
      ensures rates == map[]
    {
      rates := map[];
    }
  }

  class AdaptiveRateLimiter {
    const namespace: string
    const hardCap: real
    const minRate: real
    const store: RateStore
    var rate: real
    var learnedMax: real
    var consecutiveSuccesses: nat
    var tokens: real
    var lastRefill: real
    ghost var clock: real
    ghost var log: seq<Entry>

    ghost function State(): Run
      reads this
    {
      Run(Controller(hardCap, rate, learnedMax, consecutiveSuccesses), Bucket(tokens, lastRefill), clock, log)
    }

    /** The run invariant, and with one writer per namespace the stored rate is the live one. */
    ghost predicate Valid()
      reads this, store
    {
      && Inv(State())
      && minRate == MinRate(hardCap)
      && namespace in store.rates && store.rates[namespace] == rate
    }

    constructor (namespace: string, configuredCap: real, store: RateStore, now: real)
      requires configuredCap > 0.0
      modifies store
      ensures Valid()
      ensures this.namespace == namespace && this.store == store
      ensures hardCap == GetHardCapRps(namespace, configuredCap)
      ensures State() == Open(Start(if namespace in old(store.rates) then Some(old(store.rates)[namespace]) else None,
                                    hardCap), now)
      ensures store.rates == old(store.rates)[namespace := rate]
    {
      this.namespace, this.store := namespace, store;
      var cap := GetHardCapRps(namespace, configuredCap);
      hardCap := cap;
      minRate := Min(MIN_RATE_RPS, cap);
      var loaded := LoadRate(store, namespace, cap);
      rate := Clamp(cap, loaded);
      learnedMax := Clamp(cap, Clamp(cap, loaded));
      consecutiveSuccesses := 0;
      tokens := CAPACITY;
      lastRefill := now;
      clock := now;
      log := [Entry(now, 0.0, CAPACITY)];
      new;
      SaveRate();
      assert State() == Open(State().controller, now);
    }

    static method LoadRate(store: RateStore, namespace: string, hardCap: real) returns (loaded: real)
      ensures loaded == Start(if namespace in store.rates then Some(store.rates[namespace]) else None, hardCap).rate
    {
      if namespace in store.rates {
        return Clamp(hardCap, store.rates[namespace]);
      }
      return Clamp(hardCap, InitialRateForCap(hardCap));
    }

    method SaveRate()
      modifies store
      ensures store.rates == old(store.rates)[namespace := rate]
    {
      store.rates := store.rates[namespace := rate];
    }

    /** Takes the first-come-first-served earliest slot; the caller may proceed from `grantedAt` on. */
    method Acquire(now: real) returns (grantedAt: real)
      requires Valid() && clock <= now
      modifies this`tokens, this`lastRefill, this`clock, this`log
      ensures Valid()
      ensures State() == Step(old(State()), Event.Acquire(now))
      ensures EarliestGrant(old(State().bucket), rate, now, grantedAt)
      ensures |log| == |old(log)| + 1 && log[|log| - 1].at == grantedAt
    {
      StepKeepsInv(State(), Event.Acquire(now));
      GrantIffEarliest(State().bucket, rate, now, Grant(State().bucket, rate, now).at);
      grantedAt := Book(now);
      clock := now;
      log := log + [Entry(lastRefill, 1.0, tokens)];
    }

    /** The lock body of `acquire`, and the sleep after it. */
    method Book(now: real) returns (grantedAt: real)
      requires 0.0 < rate && (lastRefill > now ==> tokens == 0.0)
      modifies this`tokens, this`lastRefill
      ensures Bucket(tokens, lastRefill) == Grant(Bucket(old(tokens), old(lastRefill)), rate, now)
      ensures grantedAt == lastRefill
    {
      var waitTime := 0.0;
      var elapsed := now - lastRefill;
      var refilled := Min(CAPACITY, tokens + Accrued(elapsed, rate));
      BookingIsGrant(Bucket(tokens, lastRefill), rate, now, elapsed, refilled);
      tokens := refilled;
      lastRefill := now;
      if tokens >= 1.0 {
        tokens := tokens - 1.0;
      } else {
        waitTime := if rate > 0.0 then Delay(1.0 - tokens, rate) else 0.0;
        tokens := 0.0;
        lastRefill := now + waitTime;
      }
      grantedAt := now + waitTime;
    }

    method RecordSuccess()
      requires Valid()
      modifies this`rate, this`consecutiveSuccesses, store
      ensures Valid()
      ensures State() == Step(old(State()), Signal(Success))
      ensures rate > old(rate) <==>
                old(rate) < hardCap && (old(rate) < learnedMax || old(consecutiveSuccesses) >= 49)
      ensures rate > old(rate) ==> rate == Min(hardCap, old(rate) + 0.5)
      ensures consecutiveSuccesses ==
                if rate > old(rate) && old(consecutiveSuccesses) >= 49 then 0 else old(consecutiveSuccesses) + 1
      ensures store.rates == old(store.rates)[namespace := rate]
    {
      StepKeepsInv(State(), Signal(Success));
      consecutiveSuccesses := consecutiveSuccesses + 1;
      if rate < learnedMax || (consecutiveSuccesses >= SUCCESSES_BEFORE_INCREASE && rate < hardCap) {
        var oldRate := rate;
        rate := Clamp(hardCap, rate + ADDITIVE_INCREASE_RPS);
        if rate != oldRate {
          SaveRate();
        }
        if consecutiveSuccesses >= SUCCESSES_BEFORE_INCREASE {
          consecutiveSuccesses := 0;
        }
      }
    }

    method RecordTooMany()
      requires Valid()
      modifies this`rate, this`consecutiveSuccesses, store
      ensures Valid()
      ensures State() == Step(old(State()), Signal(TooMany))
      ensures consecutiveSuccesses == 0 && rate == Max(Min(0.1, hardCap), 0.75 * old(rate))
      ensures store.rates == old(store.rates)[namespace := rate]
    {
      StepKeepsInv(State(), Signal(TooMany));
      consecutiveSuccesses := 0;
      var oldRate := rate;
      rate := Clamp(hardCap, Max(minRate, rate * MULTIPLICATIVE_DECREASE));
      if rate != oldRate {
        SaveRate();
      }
    }
  }

  /** The code's two branches, with an elapsed time that may be negative, land on the ideal grant. */
  lemma BookingIsGrant(b: Bucket, rate: real, now: real, elapsed: real, refilled: real)
    requires rate > 0.0 && (b.at > now ==> b.tokens == 0.0)
    requires elapsed == now - b.at && refilled == Min(CAPACITY, b.tokens + Accrued(elapsed, rate))
    ensures Grant(b, rate, now) ==
              if refilled >= 1.0 then Bucket(refilled - 1.0, now) else Bucket(0.0, now + Delay(1.0 - refilled, rate))
  {
    LevelReachesOne(b, rate, now);
    GrantInstant(b, rate, now);
    DelaySign(1.0, rate);
    DelaySign(1.0 - b.tokens, rate);
    if refilled < 1.0 {
      DelayAfter(1.0 - b.tokens, elapsed, rate, 1.0 - refilled);
    }
  }
}
