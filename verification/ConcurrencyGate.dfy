/**
 DynamicConcurrencyLimiter (src/network/concurrency.py) as a monitor: any number
 of tasks, one condition variable, and a limit that follows the adaptive rate
 while tasks wait. Each lock body is one atomic step.
 */
module ConcurrencyGate {
  import opened RealMath
  import opened Counting
  import AdaptiveLimiter

  /**
   Where a task stands: outside, holding the lock's queue about to test the limit (newly
   arrived or notified), asleep in `condition.wait()`, or inside with a slot.
   */
  datatype Phase = Away | Ready | Asleep | Holding

  datatype Gate = Gate(rate: real, active: int, phases: seq<Phase>)

  datatype Config = Config(hardCap: real, latencyMultiplier: real)

  function DynamicLimit(c: Config, rate: real): int {
    var scaled := Truncate(rate * c.latencyMultiplier);
    if scaled >= 1 then scaled else 1
  }

  /** `Retune` is any change of rate by anybody: success, 429, or another client of the limiter. */
  datatype Step = Arrive(task: nat) | Check(task: nat) | Release(task: nat) | Retune(rate: real)

  predicate Enabled(c: Config, g: Gate, s: Step) {
    match s
    case Arrive(t) => t < |g.phases| && g.phases[t] == Away
    case Check(t) => t < |g.phases| && g.phases[t] == Ready
    case Release(t) => t < |g.phases| && g.phases[t] == Holding
    case Retune(rate) => 0.0 < rate <= c.hardCap
  }

  function NotifyAll(phases: seq<Phase>): (woken: seq<Phase>)
    ensures |woken| == |phases|
    ensures forall t :: 0 <= t < |phases| ==> woken[t] == if phases[t] == Asleep then Ready else phases[t]
  {
    seq(|phases|, t requires 0 <= t < |phases| => if phases[t] == Asleep then Ready else phases[t])
  }

  function Apply(c: Config, g: Gate, s: Step): Gate
    requires Enabled(c, g, s)
  {
    match s
    case Arrive(t) => g.(phases := g.phases[t := Ready])
    case Check(t) =>
      if g.active >= DynamicLimit(c, g.rate)
      then g.(phases := g.phases[t := Asleep])
      else g.(active := g.active + 1, phases := g.phases[t := Holding])
    case Release(t) => g.(active := g.active - 1, phases := NotifyAll(g.phases[t := Away]))
    case Retune(rate) => g.(rate := rate)
  }

  // ---------- Counting ----------

  function Is(p: Phase): Phase -> bool {
    q => q == p
  }

  function IsUnfinished(): Phase -> bool {
    q => q != Away
  }

  lemma CountNotifyAll(phases: seq<Phase>)
    ensures Count(NotifyAll(phases), Is(Holding)) == Count(phases, Is(Holding))
    ensures Count(NotifyAll(phases), IsUnfinished()) == Count(phases, IsUnfinished())
    ensures Count(NotifyAll(phases), Is(Asleep)) == 0
  {
    CountAgrees(NotifyAll(phases), Is(Holding), phases, Is(Holding));
    CountAgrees(NotifyAll(phases), IsUnfinished(), phases, IsUnfinished());
    CountPositive(NotifyAll(phases), Is(Asleep));
  }

  // ---------- Safety ----------

  /**
   Slots are exactly the holders; they never outnumber the limit at the hard cap, even when a
   429 drops the limit below them; and nobody sleeps unless somebody will wake them.
   */
  ghost predicate Inv(c: Config, g: Gate) {
    && 0.0 < g.rate <= c.hardCap
    && g.active == Count(g.phases, Is(Holding))
    && g.active <= DynamicLimit(c, c.hardCap)
    && (Count(g.phases, Is(Asleep)) > 0 ==> Count(g.phases, Is(Holding)) > 0)
  }

  function Initial(c: Config, rate: real, tasks: nat): Gate {
    Gate(rate, 0, seq(tasks, _ => Away))
  }

  lemma InitialHasInv(c: Config, rate: real, tasks: nat)
    requires 0.0 < rate <= c.hardCap
    ensures Inv(c, Initial(c, rate, tasks))
  {
    CountPositive(Initial(c, rate, tasks).phases, Is(Holding));
    CountPositive(Initial(c, rate, tasks).phases, Is(Asleep));
  }

  lemma TruncateMonotone(x: real, y: real)
    requires x <= y
    ensures Truncate(x) <= Truncate(y)
  {}

  /** A limit never exceeds the limit at the hard cap, whatever the sign of the multiplier. */
  lemma LimitAtMostCapLimit(c: Config, rate: real)
    requires 0.0 < rate <= c.hardCap
    ensures 1 <= DynamicLimit(c, rate) <= DynamicLimit(c, c.hardCap)
  {
    var m := c.latencyMultiplier;
    var low, high := rate * m, c.hardCap * m;
    if m >= 0.0 {
      MulMonotone(rate, c.hardCap, m);
      TruncateMonotone(low, high);
    } else {
      MulMonotone(0.0, rate, -m);
      TruncateMonotone(low, 0.0);
    }
  }

  lemma StepKeepsInv(c: Config, g: Gate, s: Step)
    requires Inv(c, g) && Enabled(c, g, s)
    ensures Inv(c, Apply(c, g, s))
    ensures |Apply(c, g, s).phases| == |g.phases|
  {
    match s
    case Arrive(t) =>
      CountUpdate(g.phases, t, Ready, Is(Holding));
      CountUpdate(g.phases, t, Ready, Is(Asleep));
    case Check(t) =>
      LimitAtMostCapLimit(c, g.rate);
      var q := if g.active >= DynamicLimit(c, g.rate) then Asleep else Holding;
      CountUpdate(g.phases, t, q, Is(Holding));
      CountUpdate(g.phases, t, q, Is(Asleep));
    case Release(t) =>
      CountUpdate(g.phases, t, Away, Is(Holding));
      CountNotifyAll(g.phases[t := Away]);
    case Retune(_) =>
  }

  // ---------- Runs ----------

  ghost predicate Runs(c: Config, g: Gate, steps: seq<Step>)
    decreases |steps|
  {
    steps != [] ==> Enabled(c, g, steps[0]) && Runs(c, Apply(c, g, steps[0]), steps[1..])
  }

  ghost function After(c: Config, g: Gate, steps: seq<Step>): Gate
    requires Runs(c, g, steps)
    decreases |steps|
  {
    if steps == [] then g else After(c, Apply(c, g, steps[0]), steps[1..])
  }

  /** Every state of every interleaving is safe. */
  lemma {:induction false} RunsKeepInv(c: Config, g: Gate, steps: seq<Step>)
    requires Inv(c, g) && Runs(c, g, steps)
    ensures Inv(c, After(c, g, steps)) && |After(c, g, steps).phases| == |g.phases|
    decreases |steps|
  {
    if steps != [] {
      StepKeepsInv(c, g, steps[0]);
      RunsKeepInv(c, Apply(c, g, steps[0]), steps[1..]);
    }
  }

  /** A slot is taken exactly when the holders are below the limit of that very instant. */
  lemma AdmittedIffBelowLimit(c: Config, g: Gate, t: nat)
    requires Inv(c, g) && Enabled(c, g, Check(t))
    ensures Apply(c, g, Check(t)).phases[t] == Holding <==> Count(g.phases, Is(Holding)) < DynamicLimit(c, g.rate)
    ensures Count(Apply(c, g, Check(t)).phases, Is(Holding)) > Count(g.phases, Is(Holding)) ==>
              Count(Apply(c, g, Check(t)).phases, Is(Holding)) <= DynamicLimit(c, g.rate)
  {
    CountUpdate(g.phases, t, Holding, Is(Holding));
    CountUpdate(g.phases, t, Asleep, Is(Holding));
  }

  // ---------- No lost wakeup, no deadlock ----------

  function Unfinished(g: Gate): nat {
    Count(g.phases, IsUnfinished())
  }

  /** Room for one test of the limit by every task, for each of the `unfinished`. */
  function Rounds(unfinished: nat, tasks: nat): nat {
    unfinished * (tasks + 1)
  }

  /** Work left before everybody has been served: releases first, then tests of the limit. */
  function WorkLeft(g: Gate): nat {
    Rounds(Unfinished(g), |g.phases|) + Count(g.phases, Is(Ready))
  }

  predicate IsWork(s: Step) {
    s.Check? || s.Release?
  }

  /** While anybody is unfinished, somebody can take a step of work: the gate never deadlocks. */
  lemma SomeoneCanWork(c: Config, g: Gate) returns (s: Step)
    requires Inv(c, g) && Unfinished(g) > 0
    ensures IsWork(s) && Enabled(c, g, s)
  {
    CountPositive(g.phases, IsUnfinished());
    CountPositive(g.phases, Is(Holding));
    CountPositive(g.phases, Is(Asleep));
    if Count(g.phases, Is(Holding)) > 0 {
      var t :| 0 <= t < |g.phases| && g.phases[t] == Holding;
      s := Release(t);
    } else {
      var t :| 0 <= t < |g.phases| && g.phases[t] != Away;
      assert g.phases[t] != Asleep && g.phases[t] != Holding by {
        assert Is(Asleep)(g.phases[t]) <==> g.phases[t] == Asleep;
        assert Is(Holding)(g.phases[t]) <==> g.phases[t] == Holding;
      }
      s := Check(t);
    }
  }

  lemma WorkDecreases(c: Config, g: Gate, s: Step)
    requires Inv(c, g) && Enabled(c, g, s) && !s.Arrive?
    ensures WorkLeft(Apply(c, g, s)) <= WorkLeft(g) - if IsWork(s) then 1 else 0
  {
    match s
    case Check(t) =>
      CheckSettlesOne(c, g, t);
    case Release(t) =>
      ReleaseFinishesOne(c, g, t);
      RoundsDrop(Unfinished(g), |g.phases|);
    case Retune(_) =>
  }

  lemma CheckSettlesOne(c: Config, g: Gate, t: nat)
    requires Enabled(c, g, Check(t))
    ensures Unfinished(Apply(c, g, Check(t))) == Unfinished(g)
    ensures Count(Apply(c, g, Check(t)).phases, Is(Ready)) == Count(g.phases, Is(Ready)) - 1
  {
    var q := if g.active >= DynamicLimit(c, g.rate) then Asleep else Holding;
    CountUpdate(g.phases, t, q, Is(Ready));
    CountUpdate(g.phases, t, q, IsUnfinished());
  }

  lemma ReleaseFinishesOne(c: Config, g: Gate, t: nat)
    requires Enabled(c, g, Release(t))
    ensures Unfinished(Apply(c, g, Release(t))) == Unfinished(g) - 1
    ensures Count(Apply(c, g, Release(t)).phases, Is(Ready)) <= |g.phases|
  {
    CountUpdate(g.phases, t, Away, IsUnfinished());
    CountNotifyAll(g.phases[t := Away]);
    CountAtMostLength(NotifyAll(g.phases[t := Away]), Is(Ready));
  }

  lemma RoundsDrop(unfinished: nat, tasks: nat)
    requires unfinished > 0
    ensures Rounds(unfinished - 1, tasks) + tasks + 1 == Rounds(unfinished, tasks)
  {}

  function WorkDone(steps: seq<Step>): nat {
    if steps == [] then 0 else (if IsWork(steps[0]) then 1 else 0) + WorkDone(steps[1..])
  }

  /** With no new arrivals every run does a bounded amount of work, however the rate moves meanwhile. */
  lemma {:induction false} WorkIsBounded(c: Config, g: Gate, steps: seq<Step>)
    requires Inv(c, g) && Runs(c, g, steps)
    requires forall s <- steps :: !s.Arrive?
    ensures WorkDone(steps) + WorkLeft(After(c, g, steps)) <= WorkLeft(g)
    decreases |steps|
  {
    if steps != [] {
      StepKeepsInv(c, g, steps[0]);
      WorkDecreases(c, g, steps[0]);
      WorkIsBounded(c, Apply(c, g, steps[0]), steps[1..]);
    }
  }

  /** So a run that cannot do any more work has served everybody: no task is left asleep. */
  lemma EveryoneIsServed(c: Config, g: Gate, steps: seq<Step>)
    requires Inv(c, g) && Runs(c, g, steps)
    requires forall s :: IsWork(s) ==> !Enabled(c, After(c, g, steps), s)
    ensures After(c, g, steps).active == 0 && |After(c, g, steps).phases| == |g.phases|
    ensures forall p <- After(c, g, steps).phases :: p == Away
  {
    var end := After(c, g, steps);
    RunsKeepInv(c, g, steps);
    if Unfinished(end) > 0 {
      var s := SomeoneCanWork(c, end);
    }
    CountPositive(end.phases, IsUnfinished());
    CountPositive(end.phases, Is(Holding));
    forall p | p in end.phases
      ensures p == Away
    {
      var t :| 0 <= t < |end.phases| && end.phases[t] == p;
      assert !IsUnfinished()(end.phases[t]);
    }
    assert forall t :: 0 <= t < |end.phases| ==> end.phases[t] in end.phases;
  }

  /** One more step at the end of a run. */
  lemma {:induction false} Extend(c: Config, g: Gate, steps: seq<Step>, s: Step)
    requires Runs(c, g, steps) && Enabled(c, After(c, g, steps), s)
    ensures Runs(c, g, steps + [s]) && After(c, g, steps + [s]) == Apply(c, After(c, g, steps), s)
    decreases |steps|
  {
    if steps == [] {
      assert steps + [s] == [s];
    } else {
      assert (steps + [s])[1..] == steps[1..] + [s];
      Extend(c, Apply(c, g, steps[0]), steps[1..], s);
    }
  }

  ghost predicate ReachedBy(c: Config, g: Gate, rate: real, tasks: nat, steps: seq<Step>) {
    && 0.0 < rate <= c.hardCap
    && Runs(c, Initial(c, rate, tasks), steps)
    && After(c, Initial(c, rate, tasks), steps) == g
  }

  ghost predicate Reachable(c: Config, g: Gate) {
    exists rate: real, tasks: nat, steps: seq<Step> ::
      ReachedBy(c, g, rate, tasks, steps)
  }

  lemma ReachableStep(c: Config, g: Gate, s: Step)
    requires Reachable(c, g) && Enabled(c, g, s)
    ensures Reachable(c, Apply(c, g, s))
  {
    var rate: real, tasks: nat, steps: seq<Step> :|
      ReachedBy(c, g, rate, tasks, steps);
    Extend(c, Initial(c, rate, tasks), steps, s);
    assert ReachedBy(c, Apply(c, g, s), rate, tasks, steps + [s]);
  }

  lemma ReachableHasInv(c: Config, g: Gate)
    requires Reachable(c, g)
    ensures Inv(c, g)
  {
    var rate: real, tasks: nat, steps: seq<Step> :|
      ReachedBy(c, g, rate, tasks, steps);
    InitialHasInv(c, rate, tasks);
    RunsKeepInv(c, Initial(c, rate, tasks), steps);
  }

  // ---------- Sleepers beside free slots ----------

  /** Nobody sleeps while a slot is free. */
  ghost predicate NoIdleSlot(c: Config, g: Gate) {
    Count(g.phases, Is(Asleep)) > 0 ==> g.active >= DynamicLimit(c, g.rate)
  }

  /** The step raises the limit above the holders while somebody sleeps: nobody is woken. */
  ghost predicate Strands(c: Config, g: Gate, s: Step) {
    s.Retune? && Count(g.phases, Is(Asleep)) > 0 && g.active < DynamicLimit(c, s.rate)
  }

  /** A raise past the holders is the one step that leaves a slot idle beside a sleeper; every release mends it. */
  lemma IdleSlotIffStrands(c: Config, g: Gate, s: Step)
    requires Inv(c, g) && Enabled(c, g, s)
    ensures NoIdleSlot(c, g) ==> (NoIdleSlot(c, Apply(c, g, s)) <==> !Strands(c, g, s))
    ensures s.Release? ==> NoIdleSlot(c, Apply(c, g, s))
  {
    match s
    case Arrive(t) =>
      CountUpdate(g.phases, t, Ready, Is(Asleep));
    case Check(t) =>
      CountUpdate(g.phases, t, Asleep, Is(Asleep));
      CountUpdate(g.phases, t, Holding, Is(Asleep));
    case Release(t) =>
      CountNotifyAll(g.phases[t := Away]);
    case Retune(_) =>
  }

  /** At no point of the run does anybody sleep beside a free slot. */
  ghost predicate NeverIdle(c: Config, g: Gate, steps: seq<Step>)
    requires Runs(c, g, steps)
    decreases |steps|
  {
    NoIdleSlot(c, g) && (steps != [] ==> NeverIdle(c, Apply(c, g, steps[0]), steps[1..]))
  }

  /** No step of the run raises the limit past the holders while somebody sleeps. */
  ghost predicate NeverStrands(c: Config, g: Gate, steps: seq<Step>)
    requires Runs(c, g, steps)
    decreases |steps|
  {
    steps != [] ==> !Strands(c, g, steps[0]) && NeverStrands(c, Apply(c, g, steps[0]), steps[1..])
  }

  lemma {:induction false} NeverIdleIffNeverStrands(c: Config, g: Gate, steps: seq<Step>)
    requires Inv(c, g) && NoIdleSlot(c, g) && Runs(c, g, steps)
    ensures NeverIdle(c, g, steps) <==> NeverStrands(c, g, steps)
    decreases |steps|
  {
    if steps != [] {
      IdleSlotIffStrands(c, g, steps[0]);
      StepKeepsInv(c, g, steps[0]);
      if NoIdleSlot(c, Apply(c, g, steps[0])) {
        NeverIdleIffNeverStrands(c, Apply(c, g, steps[0]), steps[1..]);
      }
    }
  }

  /** Where the hard cap has room for two, some lower rate has room for one only. */
  lemma RoomForOne(c: Config) returns (rate: real)
    requires DynamicLimit(c, c.hardCap) >= 2 && c.hardCap > 0.0
    ensures 0.0 < rate <= c.hardCap && DynamicLimit(c, rate) == 1
  {
    var m := c.latencyMultiplier;
    assert c.hardCap * m >= 2.0;
    if m <= 0.0 {
      MulMonotone(m, 0.0, c.hardCap);
    }
    rate := 1.0 / m;
    MulStrict(c.hardCap, rate, m);
  }

  /** Two tasks, a limit of one that rises to the hard cap's: the second sleeps on beside a free slot. */
  lemma RaisedLimitWakesNobody(c: Config) returns (g: Gate)
    requires DynamicLimit(c, c.hardCap) >= 2 && c.hardCap > 0.0
    ensures Reachable(c, g) && !NoIdleSlot(c, g) && g.rate == c.hardCap
  {
    var rate := RoomForOne(c);
    g := Initial(c, rate, 2);
    assert Runs(c, g, []) && After(c, g, []) == g;
    assert ReachedBy(c, g, rate, 2, []) && g.phases == [Away, Away];
    g := AndThen(c, g, Arrive(0), Gate(rate, 0, [Ready, Away]));
    g := AndThen(c, g, Check(0), Gate(rate, 1, [Holding, Away]));
    g := AndThen(c, g, Arrive(1), Gate(rate, 1, [Holding, Ready]));
    g := AndThen(c, g, Check(1), Gate(rate, 1, [Holding, Asleep]));
    g := AndThen(c, g, Retune(c.hardCap), Gate(c.hardCap, 1, [Holding, Asleep]));
    CountPositive(g.phases, Is(Asleep));
    assert Is(Asleep)(g.phases[1]);
  }

  lemma AndThen(c: Config, g: Gate, s: Step, expected: Gate) returns (next: Gate)
    requires Reachable(c, g) && Enabled(c, g, s) && Apply(c, g, s) == expected
    ensures next == expected && Reachable(c, next)
  {
    ReachableStep(c, g, s);
    next := expected;
  }

  /** A gate never lets a task sleep beside a free slot exactly when it never has room for two. */
  lemma NoIdleSlotIffRoomForOneOnly(c: Config)
    requires c.hardCap > 0.0
    ensures (forall g | Reachable(c, g) :: NoIdleSlot(c, g)) <==> DynamicLimit(c, c.hardCap) == 1
  {
    if DynamicLimit(c, c.hardCap) == 1 {
      forall g | Reachable(c, g)
        ensures NoIdleSlot(c, g)
      {
        ReachableHasInv(c, g);
        LimitAtMostCapLimit(c, g.rate);
      }
    } else {
      var g := RaisedLimitWakesNobody(c);
    }
  }

  // ---------- The monitor object ----------

  /**
   The two lock bodies of DynamicConcurrencyLimiter. Where each task stands is the scheduler's
   knowledge and the condition's queue, kept here as ghost state.
   */
  class DynamicConcurrencyLimiter {
    const rateLimiter: AdaptiveLimiter.AdaptiveRateLimiter
    const latencyMultiplier: real
    var activeTasks: int
    ghost var phases: seq<Phase>

    ghost function Settings(): Config {
      Config(rateLimiter.hardCap, latencyMultiplier)
    }

    ghost function State(): Gate
      reads this, rateLimiter
    {
      Gate(rateLimiter.rate, activeTasks, phases)
    }

    ghost predicate Valid()
      reads this, rateLimiter
    {
      Inv(Settings(), State())
    }

    constructor (rateLimiter: AdaptiveLimiter.AdaptiveRateLimiter, latencyMultiplier: real, ghost tasks: nat)
      requires rateLimiter.Valid()
      ensures Valid()
      ensures this.rateLimiter == rateLimiter && this.latencyMultiplier == latencyMultiplier
      ensures State() == Initial(Settings(), rateLimiter.rate, tasks)
    {
      this.rateLimiter, this.latencyMultiplier := rateLimiter, latencyMultiplier;
      activeTasks := 0;
      phases := seq(tasks, _ => Away);
      new;
      InitialHasInv(Settings(), rateLimiter.rate, tasks);
    }

    /** A task comes to the lock. */
    ghost method Enter(task: nat)
      requires Valid() && Enabled(Settings(), State(), Arrive(task))
      modifies this`phases
      ensures Valid()
      ensures State() == Apply(Settings(), old(State()), Arrive(task))
    {
      StepKeepsInv(Settings(), State(), Arrive(task));
      phases := phases[task := Ready];
    }

    /** One pass through the loop of `acquire`: take a slot, or go to sleep in `condition.wait()`. */
    method Poll(ghost task: nat) returns (admitted: bool)
      requires Valid() && Enabled(Settings(), State(), Check(task))
      modifies this
      ensures Valid()
      ensures State() == Apply(Settings(), old(State()), Check(task))
      ensures admitted <==> Count(old(phases), Is(Holding)) < DynamicLimit(Settings(), rateLimiter.rate)
    {
      StepKeepsInv(Settings(), State(), Check(task));
      if activeTasks >= GetDynamicLimit() {
        phases := phases[task := Asleep];
        return false;
      }
      activeTasks := activeTasks + 1;
      phases := phases[task := Holding];
      return true;
    }

    /** The whole part of rate times multiplier, and at least 1. */
    function GetDynamicLimit(): (limit: int)
      reads rateLimiter
      ensures limit >= 1
      ensures limit > 1 ==> limit as real <= rateLimiter.rate * latencyMultiplier
      ensures rateLimiter.rate * latencyMultiplier < (limit + 1) as real
    {
      DynamicLimit(Config(rateLimiter.hardCap, latencyMultiplier), rateLimiter.rate)
    }

    method Release(ghost task: nat)
      requires Valid() && Enabled(Settings(), State(), Step.Release(task))
      modifies this
      ensures Valid()
      ensures State() == Apply(Settings(), old(State()), Step.Release(task))
      ensures Asleep !in phases
    {
      StepKeepsInv(Settings(), State(), Step.Release(task));
      activeTasks := activeTasks - 1;
      phases := NotifyAll(phases[task := Away]);
    }
  }
}
