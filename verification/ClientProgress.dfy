/**
 That the requests of ResilientHttpClient (src/network/resilience.py) come to an end: whatever the
 interleaving, somebody can always move, and all of them together move a bounded number of times.
 */
module ClientProgress {
  import opened RealMath
  import opened Counting
  import opened ClientRuns
  import G = ConcurrencyGate
  import L = LlmLimiter
  import C = CongestionBucket

  // ---------- Somebody can move ----------

  /** Every request fits the token bucket at all. */
  ghost predicate RequestsFit(c: Config, s: Client) {
    match s.second
    case Unlimited => true
    case Rpm(r) => r.bucket.capacity >= 1.0
    case Llm(r) => forall t :: 0 <= t < |c.estimates| ==> L.Charge(TokenCharge(c.estimates[t])) <= r.limits.tpm
  }

  /** An instant at which the second limiter grants, if nobody else takes from it. */
  lemma SecondGrantsLater(second: Second, clock: real, from: real, tokens: int) returns (now: real)
    requires SecondInv(second, clock) && clock <= from
    requires second.Rpm? ==> second.rpmRun.bucket.capacity >= 1.0
    requires second.Llm? ==> L.Charge(tokens) <= second.llmRun.limits.tpm
    ensures from <= now && PollGrants(second, now, tokens)
  {
    match second
    case Unlimited => now := from;
    case Rpm(r) =>
      var b := r.bucket;
      if b.tokens >= 1.0 {
        now := from;
        AccruedSign(now - b.at, b.current);
      } else {
        now := Max(from, b.at + C.SleepTime(b, 1.0));
        assert b.at + (now - b.at) == now;
        C.SleepIsExact(b, 1.0, now - b.at);
      }
    case Llm(r) =>
      var b, amount := r.buckets, L.Charge(tokens);
      now := Max(from, b.at + L.WaitTime(r.limits, b, amount));
      assert b.at + (now - b.at) == now;
      L.WaitIsExact(r.limits, b, amount, now - b.at);
  }

  /**
   No request is ever stuck: while one is in flight, some request in flight can take a step
   that moves it on, at once or after a finite wait. A sleeper at the gate always has a holder
   to wake it.
   */
  lemma SomeoneCanMove(c: Config, s: Client, t: nat) returns (e: Step)
    requires Inv(c, s) && RequestsFit(c, s) && t < |s.phases| && !AtRest()(s.phases[t])
    ensures WellFormed(c, s) && Enabled(c, s, e)
    ensures !AtRest()(s.phases[e.task]) && Apply(c, s, e).phases[e.task] != s.phases[e.task]
  {
    InvIsWellFormed(c, s);
    match s.phases[t]
    case Deciding(_) => e := Step(t, Book, s.clock);
    case Booked(_, g) =>
      assert CarriesOwn(s, t);
      var now := SecondGrantsLater(s.second, s.clock, Max(s.clock, GrantAt(s, g)), TokenCharge(c.estimates[t]));
      e := Step(t, Clear, now);
    case Queued(_, _) => e := Step(t, Check, s.clock);
    case Calling(_) => e := Step(t, Respond(Ok), s.clock);
    case Settling(a, r) => e := Step(t, Release, s.clock);
    case Asleep(_, _) =>
      CountPositive(Project(s).phases, G.Is(G.Asleep));
      assert G.Is(G.Asleep)(Project(s).phases[t]);
      CountPositive(Project(s).phases, G.Is(G.Holding));
      var h :| 0 <= h < |s.phases| && G.Is(G.Holding)(Project(s).phases[h]);
      e := Step(h, if s.phases[h].Calling? then Respond(Ok) else Release, s.clock);
  }

  // ---------- Bounded work ----------

  /** Steps one attempt can cost: one for each phase, and one wake-up of every request when it ends. */
  function PerAttempt(n: nat): nat {
    n + 6
  }

  function Attempts(c: Config, n: nat, attempts: int): nat {
    (if attempts >= 0 then attempts else 0) * PerAttempt(n)
  }

  /** Work a request has before it when n of them share the gate: attempts to come, then what is left of this one. */
  function Weight(c: Config, n: nat): Phase -> nat {
    (p: Phase) =>
      match p
      case Idle => Attempts(c, n, MaxAttempts(c.maxRetries)) + 1
      case Finished(_) => 0
      case Deciding(a) => Attempts(c, n, MaxAttempts(c.maxRetries) - a + 1)
      case Booked(a, _) => Attempts(c, n, MaxAttempts(c.maxRetries) - a) + n + 5
      case Queued(a, _) => Attempts(c, n, MaxAttempts(c.maxRetries) - a) + n + 4
      case Asleep(a, _) => Attempts(c, n, MaxAttempts(c.maxRetries) - a) + n + 3
      case Calling(a) => Attempts(c, n, MaxAttempts(c.maxRetries) - a) + n + 2
      case Settling(a, _) => Attempts(c, n, MaxAttempts(c.maxRetries) - a) + n + 1
  }

  function WorkLeft(c: Config, s: Client): nat {
    Sum(s.phases, Weight(c, |s.phases|))
  }

  /** The step moves its request on: everything but a refused poll of the second limiter, and corrections. */
  ghost predicate Moves(c: Config, s: Client, e: Step)
    requires WellFormed(c, s) && Enabled(c, s, e)
  {
    Apply(c, s, e).phases[e.task] != s.phases[e.task]
  }

  lemma AttemptsStep(c: Config, n: nat, attempts: int)
    requires attempts >= 1
    ensures Attempts(c, n, attempts) == Attempts(c, n, attempts - 1) + PerAttempt(n)
  {}

  /** A move makes its own request lighter, and one that frees a slot by more than all the wake-ups it causes. */
  lemma MoveIsLighter(c: Config, s: Client, e: Step)
    requires WellFormed(c, s) && Enabled(c, s, e) && AttemptInRange(c, s.phases[e.task])
    ensures var w, n := Weight(c, |s.phases|), |s.phases|;
            && (e.action.Release? ==>
                  w(Next(c, s.phases[e.task].attempt, s.phases[e.task].response)) + n + 1 <= w(s.phases[e.task]))
            && (!e.action.Release? && Moves(c, s, e) ==>
                  w(Apply(c, s, e).phases[e.task]) + 1 <= w(s.phases[e.task]))
  {
    var n, max := |s.phases|, MaxAttempts(c.maxRetries);
    match s.phases[e.task]
    case Deciding(a) => AttemptsStep(c, n, max - a + 1);
    case Settling(a, _) => if a < max { AttemptsStep(c, n, max - a); }
    case _ =>
  }

  /** A woken request is heavier by one at most. */
  lemma WakingAddsOne(c: Config, phases: seq<Phase>, n: nat, k: nat)
    requires k < |phases|
    ensures Weight(c, n)(WakeAll(phases)[k]) <= Weight(c, n)(phases[k]) + 1
  {
    if phases[k].Asleep? {
      assert WakeAll(phases)[k] == Queued(phases[k].attempt, phases[k].grant);
    }
  }

  lemma WakingAddsOnes(c: Config, phases: seq<Phase>, n: nat)
    ensures Sum(WakeAll(phases), Weight(c, n)) <= Sum(phases, Weight(c, n)) + |phases|
  {
    var w, woken := Weight(c, n), WakeAll(phases);
    forall k | 0 <= k < |phases|
      ensures w(woken[k]) <= w(phases[k]) + 1
    {
      WakingAddsOne(c, phases, n, k);
    }
    SumGrowsByOnes(phases, woken, w);
  }

  lemma MoveIsWork(c: Config, s: Client, e: Step)
    requires WellFormed(c, s) && Enabled(c, s, e) && AttemptInRange(c, s.phases[e.task])
    ensures |Apply(c, s, e).phases| == |s.phases|
    ensures WorkLeft(c, Apply(c, s, e)) + (if Moves(c, s, e) then 1 else 0) <= WorkLeft(c, s)
  {
    var t, w, after := e.task, Weight(c, |s.phases|), Apply(c, s, e);
    MoveIsLighter(c, s, e);
    if e.action.Release? {
      var next := Next(c, s.phases[t].attempt, s.phases[t].response);
      assert after.phases == WakeAll(s.phases[t := next]);
      SumUpdate(s.phases, t, next, w);
      WakingAddsOnes(c, s.phases[t := next], |s.phases|);
    } else {
      assert after.phases == s.phases[t := after.phases[t]];
      SumUpdate(s.phases, t, after.phases[t], w);
    }
  }

  /** How many steps of a run move a request on. */
  ghost function MovesMade(c: Config, s: Client, steps: seq<Step>): nat
    requires Runs(c, s, steps)
    decreases |steps|
  {
    if steps == [] then 0
    else (if Moves(c, s, steps[0]) then 1 else 0) + MovesMade(c, Apply(c, s, steps[0]), steps[1..])
  }

  lemma {:induction false} MovesUseUpWork(c: Config, s: Client, steps: seq<Step>)
    requires Inv(c, s) && Runs(c, s, steps)
    ensures MovesMade(c, s, steps) + WorkLeft(c, After(c, s, steps)) <= WorkLeft(c, s)
    decreases |steps|
  {
    if steps != [] {
      assert RequestInv(c, s, steps[0].task);
      MoveIsWork(c, s, steps[0]);
      StepKeepsInv(c, s, steps[0]);
      MovesUseUpWork(c, Apply(c, s, steps[0]), steps[1..]);
    }
  }

  /**
   Apart from refused polls and corrections, n requests of at most m attempts each make at most
   n * (m * (n + 6) + 1) steps, in whatever order they interleave and however the rate moves.
   */
  lemma WorkIsBounded(c: Config, s: Client, steps: seq<Step>)
    requires Fresh(c, s) && Runs(c, s, steps)
    ensures MovesMade(c, s, steps) <= |s.phases| * (MaxAttempts(c.maxRetries) * (|s.phases| + 6) + 1)
  {
    FreshHasInv(c, s);
    MovesUseUpWork(c, s, steps);
    SumOfEquals(s.phases, Weight(c, |s.phases|), Attempts(c, |s.phases|, MaxAttempts(c.maxRetries)) + 1);
  }

  /** So once no request can move any more, every one of them has finished. */
  lemma EveryoneFinishes(c: Config, s: Client, steps: seq<Step>)
    requires Fresh(c, s) && RequestsFit(c, s) && Runs(c, s, steps)
    requires var r := After(c, s, steps);
             WellFormed(c, r) && forall e | Enabled(c, r, e) :: !Moves(c, r, e)
    ensures |After(c, s, steps).phases| == |s.phases|
    ensures forall p <- After(c, s, steps).phases :: p.Finished?
  {
    var r := After(c, s, steps);
    FreshHasInv(c, s);
    RunsKeepInv(c, s, steps);
    TermsStay(c, s, steps);
    forall t | 0 <= t < |r.phases|
      ensures r.phases[t].Finished?
    {
      if r.phases[t].Idle? {
        var begin := Step(t, Begin, r.clock);
        assert Enabled(c, r, begin) && Moves(c, r, begin);
      } else if !r.phases[t].Finished? {
        var e := SomeoneCanMove(c, r, t);
        assert Moves(c, r, e);
      }
    }
  }
}
