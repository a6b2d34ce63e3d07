/**
 The additive-increase / multiplicative-decrease rate controller inside
 AdaptiveRateLimiter (src/network/limiter.py, src/_internal/aimd.py), as a
 function of the signals it receives: what it converges to, how fast, and what
 survives a restart.
 */
module Aimd {
  import opened RealMath
  import opened Options

  const MIN_RATE_RPS := 0.1
  const DEFAULT_INITIAL_RATE_RPS := 1.0
  const ADDITIVE_INCREASE_RPS := 0.5
  const MULTIPLICATIVE_DECREASE := 0.75
  const SUCCESSES_BEFORE_INCREASE := 50

  function InitialRateForCap(hardCap: real): real {
    Min(hardCap, Max(MIN_RATE_RPS, DEFAULT_INITIAL_RATE_RPS))
  }

  function MinRate(hardCap: real): real {
    Min(MIN_RATE_RPS, hardCap)
  }

  function Clamp(hardCap: real, rate: real): real {
    Max(MinRate(hardCap), Min(hardCap, rate))
  }

  datatype Controller = Controller(hardCap: real, rate: real, learnedMax: real, streak: nat)

  datatype Signal = Success | TooMany

  /** What every history keeps: the rate range, and that a long streak is possible only at the cap. */
  ghost predicate Valid(c: Controller) {
    && 0.0 < c.hardCap
    && MinRate(c.hardCap) <= c.rate <= c.hardCap
    && MinRate(c.hardCap) <= c.learnedMax <= c.hardCap
    && (c.streak >= SUCCESSES_BEFORE_INCREASE ==> c.rate == c.hardCap)
  }

  function OnSuccess(c: Controller): Controller {
    var streak := c.streak + 1;
    if c.rate < c.learnedMax || (streak >= SUCCESSES_BEFORE_INCREASE && c.rate < c.hardCap)
    then c.(rate := Clamp(c.hardCap, c.rate + ADDITIVE_INCREASE_RPS),
            streak := if streak >= SUCCESSES_BEFORE_INCREASE then 0 else streak)
    else c.(streak := streak)
  }

  function OnTooMany(c: Controller): Controller {
    c.(rate := Clamp(c.hardCap, Max(MinRate(c.hardCap), c.rate * MULTIPLICATIVE_DECREASE)), streak := 0)
  }

  function OnSignal(c: Controller, s: Signal): Controller {
    match s
    case Success => OnSuccess(c)
    case TooMany => OnTooMany(c)
  }

  function Replay(c: Controller, signals: seq<Signal>): Controller
    decreases |signals|
  {
    if signals == [] then c else Replay(OnSignal(c, signals[0]), signals[1..])
  }

  /** A signal keeps the range, never moves the cap, and only a 429 can lower the rate. */
  lemma SignalKeepsValid(c: Controller, s: Signal)
    requires Valid(c)
    ensures Valid(OnSignal(c, s))
    ensures OnSignal(c, s).hardCap == c.hardCap && OnSignal(c, s).learnedMax == c.learnedMax
    ensures s.Success? ==> c.rate <= OnSignal(c, s).rate <= c.rate + ADDITIVE_INCREASE_RPS
    ensures s.TooMany? ==> OnSignal(c, s).rate <= c.rate
  {}

  lemma {:induction false} ReplayKeepsValid(c: Controller, signals: seq<Signal>)
    requires Valid(c)
    ensures Valid(Replay(c, signals)) && Replay(c, signals).hardCap == c.hardCap
    ensures Replay(c, signals).learnedMax == c.learnedMax
    decreases |signals|
  {
    if signals != [] {
      SignalKeepsValid(c, signals[0]);
      ReplayKeepsValid(OnSignal(c, signals[0]), signals[1..]);
    }
  }

  // ---------- Convergence ----------

  function Successes(c: Controller, n: nat): Controller
    decreases n
  {
    if n == 0 then c else Successes(OnSuccess(c), n - 1)
  }

  function Backoffs(c: Controller, k: nat): Controller
    decreases k
  {
    if k == 0 then c else Backoffs(OnTooMany(c), k - 1)
  }

  /** One step per 50 successes. */
  function Climbed(successes: nat): real {
    ADDITIVE_INCREASE_RPS * (successes / SUCCESSES_BEFORE_INCREASE) as real
  }

  lemma ClimbedOneMore(successes: nat)
    ensures Climbed(successes + SUCCESSES_BEFORE_INCREASE) == Climbed(successes) + ADDITIVE_INCREASE_RPS
    ensures successes < SUCCESSES_BEFORE_INCREASE ==> Climbed(successes) == 0.0
    ensures 0.0 <= Climbed(successes)
  {}

  /** How a success moves rate and streak below the cap: both phases, with or without the streak starting over. */
  lemma SuccessBelowCap(c: Controller)
    requires Valid(c) && c.rate < c.hardCap
    ensures var d := OnSuccess(c);
            && (d.streak == c.streak + 1 || d.streak + SUCCESSES_BEFORE_INCREASE == c.streak + 1)
            && (d.streak != c.streak + 1 || c.rate < c.learnedMax ==>
                  d.rate == Min(c.hardCap, c.rate + ADDITIVE_INCREASE_RPS))
            && (d.streak == c.streak + 1 && c.rate >= c.learnedMax ==> d.rate == c.rate)
  {}

  /** Every 50 consecutive successes raise the rate by at least 0.5 or reach the cap, in either phase. */
  lemma {:induction false} ClimbAtLeast(c: Controller, n: nat)
    requires Valid(c)
    ensures Valid(Successes(c, n)) && Successes(c, n).hardCap == c.hardCap
    ensures Successes(c, n).rate >= Min(c.hardCap, c.rate + Climbed(c.streak + n))
    decreases n
  {
    ClimbedOneMore(c.streak + n);
    if n > 0 {
      var next := OnSuccess(c);
      SignalKeepsValid(c, Success);
      ClimbAtLeast(next, n - 1);
      ClimbedOneMore(next.streak + n - 1);
      if c.rate < c.hardCap { SuccessBelowCap(c); }
    }
  }

  /** At or above the rate the session started from, the climb is exactly one step per 50 successes. */
  lemma {:induction false} ClimbExact(c: Controller, n: nat)
    requires Valid(c) && c.rate >= c.learnedMax
    ensures Successes(c, n).rate == Min(c.hardCap, c.rate + Climbed(c.streak + n))
    decreases n
  {
    ClimbedOneMore(c.streak + n);
    if n > 0 {
      var next := OnSuccess(c);
      SignalKeepsValid(c, Success);
      ClimbExact(next, n - 1);
      ClimbedOneMore(next.streak + n - 1);
      if c.rate < c.hardCap { SuccessBelowCap(c); }
    }
  }

  /** Below that rate, every single success adds a step, clamped at the cap (not at the old rate). */
  lemma {:induction false} FastRecovery(c: Controller, n: nat)
    requires Valid(c)
    requires n > 0 ==> c.rate + ADDITIVE_INCREASE_RPS * (n - 1) as real < c.learnedMax
    ensures Successes(c, n).rate == Min(c.hardCap, c.rate + ADDITIVE_INCREASE_RPS * n as real)
    decreases n
  {
    SignalKeepsValid(c, Success);
    if n > 0 {
      FastRecovery(OnSuccess(c), n - 1);
    }
  }

  /** From a fresh streak the cap is reached after 50 * ceil((cap - rate) / 0.5) successes and not one sooner. */
  lemma ReachesCapExactly(c: Controller, n: nat)
    requires Valid(c) && c.streak == 0
    ensures n >= SUCCESSES_BEFORE_INCREASE * Ceil((c.hardCap - c.rate) / ADDITIVE_INCREASE_RPS) ==>
              Successes(c, n).rate == c.hardCap
    ensures c.rate >= c.learnedMax && Successes(c, n).rate == c.hardCap ==>
              n >= SUCCESSES_BEFORE_INCREASE * Ceil((c.hardCap - c.rate) / ADDITIVE_INCREASE_RPS)
  {
    var steps := Ceil((c.hardCap - c.rate) / ADDITIVE_INCREASE_RPS);
    var done := n / SUCCESSES_BEFORE_INCREASE;
    ClimbAtLeast(c, n);
    assert (c.hardCap - c.rate) / ADDITIVE_INCREASE_RPS <= steps as real;
    if c.rate >= c.learnedMax && Successes(c, n).rate == c.hardCap {
      ClimbExact(c, n);
      assert (c.hardCap - c.rate) / ADDITIVE_INCREASE_RPS <= done as real;
      assert steps <= done;
    }
  }

  /** Whatever streak it starts with, that many successes bring the rate to the cap. */
  lemma ReachesCapFrom(c: Controller, n: nat)
    requires Valid(c) && n >= SUCCESSES_BEFORE_INCREASE * Ceil((c.hardCap - c.rate) / ADDITIVE_INCREASE_RPS)
    ensures Successes(c, n).rate == c.hardCap
  {
    var steps := Ceil((c.hardCap - c.rate) / ADDITIVE_INCREASE_RPS);
    ClimbAtLeast(c, n);
    assert (c.hardCap - c.rate) / ADDITIVE_INCREASE_RPS <= steps as real;
    assert steps <= (c.streak + n) / SUCCESSES_BEFORE_INCREASE;
  }

  function Decayed(floor: real, rate: real, k: nat): real {
    Max(floor, rate * Pow(MULTIPLICATIVE_DECREASE, k))
  }

  /** k consecutive 429s multiply the rate by 0.75^k, floored at the minimum rate. */
  lemma {:induction false} BackoffsExact(c: Controller, k: nat)
    requires Valid(c)
    ensures Backoffs(c, k).rate == Decayed(MinRate(c.hardCap), c.rate, k)
    decreases k
  {
    if k > 0 {
      var d := OnTooMany(c);
      SignalKeepsValid(c, TooMany);
      assert d.rate == Decayed(MinRate(c.hardCap), c.rate, 1);
      BackoffsExact(d, k - 1);
      DecayStep(MinRate(c.hardCap), c.rate, k);
    }
  }

  lemma DecayStep(floor: real, rate: real, k: nat)
    requires 0.0 < floor && 0 < k
    ensures Decayed(floor, Decayed(floor, rate, 1), k - 1) == Decayed(floor, rate, k)
  {
    PowAtMostOne(k - 1);
    FloorThenScale(floor, rate, Decayed(floor, rate, 1),
                   Pow(MULTIPLICATIVE_DECREASE, k - 1), Pow(MULTIPLICATIVE_DECREASE, k));
  }

  lemma FloorThenScale(floor: real, rate: real, next: real, p: real, q: real)
    requires 0.0 < floor && 0.0 <= p <= 1.0 && q == MULTIPLICATIVE_DECREASE * p
    requires next == Max(floor, rate * MULTIPLICATIVE_DECREASE)
    ensures Max(floor, next * p) == Max(floor, rate * q)
  {
    var lowered := rate * MULTIPLICATIVE_DECREASE;
    MulRegroups(rate, MULTIPLICATIVE_DECREASE, p);
    assert rate * q == lowered * p;
    if lowered < floor {
      MulMonotone(p, 1.0, next);
      MulMonotone(lowered, next, p);
      assert lowered * p <= next * p <= floor;
    } else {
      assert next == lowered;
    }
  }

  lemma {:induction false} PowAtMostOne(k: nat)
    ensures 0.0 < Pow(MULTIPLICATIVE_DECREASE, k) <= 1.0
  {
    if k > 0 { PowAtMostOne(k - 1); }
  }

  // ---------- Histories of one kind ----------

  lemma {:induction false} ReplayOfBackoffs(c: Controller, signals: seq<Signal>)
    requires forall s <- signals :: s == TooMany
    ensures Replay(c, signals) == Backoffs(c, |signals|)
    decreases |signals|
  {
    if signals != [] {
      assert signals[0] in signals && forall s <- signals[1..] :: s in signals;
      ReplayOfBackoffs(OnTooMany(c), signals[1..]);
    }
  }

  /** Only a 429 lowers the rate. */
  lemma {:induction false} ReplayWithoutBackoff(c: Controller, signals: seq<Signal>)
    requires Valid(c) && forall s <- signals :: s == Success
    ensures Replay(c, signals).rate >= c.rate
    decreases |signals|
  {
    if signals != [] {
      assert signals[0] in signals && forall s <- signals[1..] :: s in signals;
      SignalKeepsValid(c, Success);
      ReplayWithoutBackoff(OnSuccess(c), signals[1..]);
    }
  }

  // ---------- Every 429 starts the streak over ----------

  function Wins(n: nat): seq<Signal> {
    seq(n, _ => Success)
  }

  lemma {:induction false} ReplaySplits(c: Controller, a: seq<Signal>, b: seq<Signal>)
    ensures Replay(c, a + b) == Replay(Replay(c, a), b)
    decreases |a|
  {
    if a == [] {
      assert a + b == b;
    } else {
      assert (a + b)[1..] == a[1..] + b;
      ReplaySplits(OnSignal(c, a[0]), a[1..], b);
    }
  }

  lemma ReplayOneMore(c: Controller, a: seq<Signal>, s: Signal)
    ensures Replay(c, a + [s]) == OnSignal(Replay(c, a), s)
  {
    var d := Replay(c, a);
    ReplaySplits(c, a, [s]);
    assert [s][1..] == [];
    assert Replay(d, [s]) == Replay(OnSignal(d, s), []);
  }

  lemma {:induction false} ReplayOfWins(c: Controller, n: nat)
    ensures Replay(c, Wins(n)) == Successes(c, n)
    decreases n
  {
    if n > 0 {
      assert Wins(n)[1..] == Wins(n - 1);
      ReplayOfWins(OnSuccess(c), n - 1);
    }
  }

  /** After any history a 429 brings the rate to three quarters, not below the floor, and ends the streak. */
  lemma TooManyAfter(c: Controller, before: seq<Signal>)
    requires Valid(c)
    ensures var d := Replay(c, before + [TooMany]);
            && Valid(d) && d.hardCap == c.hardCap && d.learnedMax == c.learnedMax && d.streak == 0
            && d.rate == Max(MinRate(c.hardCap), 0.75 * Replay(c, before).rate)
  {
    ReplayKeepsValid(c, before);
    ReplayOneMore(c, before, TooMany);
    SignalKeepsValid(Replay(c, before), TooMany);
  }

  lemma ClimbFromNothing(d: Controller, n: nat)
    requires Valid(d) && d.streak == 0
    ensures Replay(d, Wins(n)).rate >= Min(d.hardCap, d.rate + Climbed(n))
    ensures d.rate >= d.learnedMax ==> Replay(d, Wins(n)).rate == Min(d.hardCap, d.rate + Climbed(n))
  {
    ReplayOfWins(d, n);
    ClimbAtLeast(d, n);
    if d.rate >= d.learnedMax {
      ClimbExact(d, n);
    }
  }

  /** And n successes after it count from nothing: none before the 429 is credited to the climb. */
  lemma StreakStartsOver(c: Controller, before: seq<Signal>, n: nat)
    requires Valid(c)
    ensures var lowered := Max(MinRate(c.hardCap), 0.75 * Replay(c, before).rate);
            var rate := Replay(c, before + [TooMany] + Wins(n)).rate;
            && rate >= Min(c.hardCap, lowered + Climbed(n))
            && (lowered >= c.learnedMax ==> rate == Min(c.hardCap, lowered + Climbed(n)))
  {
    TooManyAfter(c, before);
    ReplaySplits(c, before + [TooMany], Wins(n));
    ClimbFromNothing(Replay(c, before + [TooMany]), n);
  }

  // ---------- Restarts ----------

  /** What the constructor computes from the row found in the rate table, if any. */
  function Start(stored: Option<real>, hardCap: real): Controller {
    var loaded := Clamp(hardCap, match stored case Some(r) => r case None => InitialRateForCap(hardCap));
    Controller(hardCap, loaded, loaded, 0)
  }

  /** With no row stored the first rate is one request per second, or the cap if that is less. */
  lemma FirstStart(hardCap: real)
    requires hardCap > 0.0
    ensures Start(None, hardCap).rate == if hardCap <= 1.0 then hardCap else 1.0
  {}

  datatype Session = Session(hardCap: real, signals: seq<Signal>)

  /** The row left in the rate table after the sessions, each under its own cap. */
  function StoredAfter(stored: Option<real>, sessions: seq<Session>): Option<real>
    decreases |sessions|
  {
    if sessions == [] then stored else
    var s := sessions[0];
    StoredAfter(Some(Replay(Start(stored, s.hardCap), s.signals).rate), sessions[1..])
  }

  /** Through any history of sessions the stored rate is in the range of the last session's cap. */
  lemma {:induction false} StoredRateInRange(stored: Option<real>, sessions: seq<Session>)
    requires sessions != [] && forall s <- sessions :: s.hardCap > 0.0
    ensures StoredAfter(stored, sessions).Some?
    ensures 0.0 < MinRate(sessions[|sessions| - 1].hardCap)
    ensures MinRate(sessions[|sessions| - 1].hardCap) <= StoredAfter(stored, sessions).value
            <= sessions[|sessions| - 1].hardCap
    decreases |sessions|
  {
    var s := sessions[0];
    ReplayKeepsValid(Start(stored, s.hardCap), s.signals);
    var next := Some(Replay(Start(stored, s.hardCap), s.signals).rate);
    if |sessions| == 1 {
      assert StoredAfter(next, sessions[1..]) == next;
    } else {
      StoredRateInRange(next, sessions[1..]);
    }
  }

  /** A restart under the same cap resumes at exactly the rate the last session ended with. */
  lemma RestartRestoresRate(stored: Option<real>, hardCap: real, signals: seq<Signal>)
    requires hardCap > 0.0
    ensures var last := Replay(Start(stored, hardCap), signals);
            var again := Start(Some(last.rate), hardCap);
            again.rate == last.rate && again.learnedMax == last.rate && again.streak == 0
  {
    ReplayKeepsValid(Start(stored, hardCap), signals);
  }

  /** The row after a session under one cap, given its signals, and a bare start under another. */
  function Detour(low: real, high: real, learned: real, signals: seq<Signal>): Option<real> {
    StoredAfter(Some(learned), [Session(low, signals), Session(high, [])])
  }

  /** What a detour leaves is the rate it ended with, raised to the floor of the cap that comes after. */
  lemma DetourLeaves(low: real, high: real, learned: real, signals: seq<Signal>)
    requires 0.0 < low <= high
    ensures Detour(low, high, learned, signals)
         == Some(Max(MinRate(high), Replay(Start(Some(learned), low), signals).rate))
    ensures Detour(low, high, learned, signals).value <= Max(MinRate(high), low)
    ensures signals == [] && MinRate(high) <= learned ==>
              Detour(low, high, learned, signals) == Some(Max(MinRate(high), Min(learned, low)))
  {
    var first := Replay(Start(Some(learned), low), signals);
    ReplayKeepsValid(Start(Some(learned), low), signals);
    assert [Session(low, signals), Session(high, [])][1..] == [Session(high, [])];
    assert StoredAfter(Some(first.rate), [Session(high, [])]) == Some(Start(Some(first.rate), high).rate);
  }

  /**
   Whatever 429s and successes a session under a lower cap sees, it forgets the learned rate
   exactly when that rate was above the lower cap and above the floor; otherwise some session
   keeps it, the one without signals for one.
   */
  lemma LowerCapForgets(low: real, high: real, learned: real)
    requires 0.0 < low <= high && MinRate(high) <= learned <= high
    ensures (forall signals :: Detour(low, high, learned, signals) != Some(learned))
       <==> learned > low && learned > MinRate(high)
  {
    forall signals
      ensures Detour(low, high, learned, signals).Some?
      ensures Detour(low, high, learned, signals).value <= Max(MinRate(high), low)
    {
      DetourLeaves(low, high, learned, signals);
    }
    DetourLeaves(low, high, learned, []);
  }
}
