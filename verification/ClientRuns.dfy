/**
 ResilientHttpClient (src/network/resilience.py) with any number of requests in
 flight: each attempt passes the breaker, books an adaptive grant, passes the
 RPM or TPM limiter if one is configured, takes a slot of the gate, calls the
 transport, reports the outcome, frees the slot, and retries or ends. The steps
 of different requests interleave in any order.
 */
module ClientRuns {
  import opened RealMath
  import opened Options
  import opened Counting
  import opened Ledger
  import A = AdaptiveLimiter
  import Aimd
  import G = ConcurrencyGate
  import L = LlmLimiter
  import C = CongestionBucket

  // ---------- Responses and the retry decision ----------

  /**
   How an attempt ended: a response below 400, a 429, another status of 400 or more, a
   network error, or any other exception.
   */
  datatype Response = Ok | TooMany | BadStatus | NetworkError | OtherError

  datatype Outcome = Delivered | RateLimitExceeded | ProviderDown | Propagated

  predicate Retryable(r: Response) {
    r.TooMany? || r.BadStatus? || r.NetworkError?
  }

  function Conclude(r: Response): Outcome {
    match r
    case Ok => Delivered
    case TooMany => RateLimitExceeded
    case BadStatus => ProviderDown
    case NetworkError => ProviderDown
    case OtherError => Propagated
  }

  /** `stop_after_attempt(n)` stops after attempt number n, and never before the first attempt. */
  function MaxAttempts(maxRetries: int): nat {
    if maxRetries >= 1 then maxRetries else 1
  }

  // ---------- State ----------

  /** `grant` is the index of the adaptive grant the attempt will use. */
  datatype Phase =
    | Idle
    | Deciding(attempt: nat)
    | Booked(attempt: nat, grant: nat)
    | Queued(attempt: nat, grant: nat)
    | Asleep(attempt: nat, grant: nat)
    | Calling(attempt: nat)
    | Settling(attempt: nat, response: Response)
    | Finished(outcome: Outcome)

  /** What became of an adaptive grant: still carried by a request, or used for one transport call. */
  datatype Use = Pending(task: nat) | Called(task: nat, at: real)

  datatype Second = Unlimited | Rpm(rpmRun: C.Run) | Llm(llmRun: L.Run)

  datatype Config = Config(gate: G.Config, maxRetries: int, estimates: seq<Option<int>>)

  /** `uses[k]` tells what became of grant k, which is entry k + 1 of the limiter's log. */
  datatype Client = Client(limiter: A.Run, second: Second, active: int, phases: seq<Phase>,
                           uses: seq<Use>, cleared: nat, clock: real)

  datatype Action = Begin | Refuse | Book | Clear | Check | Respond(response: Response) | Release
                  | Reconcile(expected: int, actual: int)

  datatype Step = Step(task: nat, action: Action, now: real)

  function GrantAt(s: Client, k: nat): real
    requires k + 1 < |s.limiter.log|
  {
    s.limiter.log[k + 1].at
  }

  function PendingGrant(p: Phase): Option<nat> {
    match p
    case Booked(_, g) => Some(g)
    case Queued(_, g) => Some(g)
    case Asleep(_, g) => Some(g)
    case _ => None
  }

  // ---------- Steps ----------

  function TokenCharge(estimate: Option<int>): int {
    match estimate
    case Some(e) => L.Charge(e)
    case None => 1
  }

  /** One poll of the RPM or TPM limiter. */
  function Poll(second: Second, now: real, tokens: int): Second
    requires second.Llm? ==> second.llmRun.buckets.req.Some? == second.llmRun.limits.rpm.Some?
  {
    match second
    case Unlimited => Unlimited
    case Rpm(r) => Rpm(C.Step(r, C.Attempt(now, 1.0)))
    case Llm(r) => Llm(L.Step(r, L.Attempt(now, tokens)))
  }

  predicate PollGrants(second: Second, now: real, tokens: int)
    requires second.Llm? ==> second.llmRun.buckets.req.Some? == second.llmRun.limits.rpm.Some?
  {
    match second
    case Unlimited => true
    case Rpm(r) => C.Replenished(r.bucket, now).tokens >= 1.0
    case Llm(r) => L.Suffices(L.Refresh(r, now).buckets, L.Charge(tokens))
  }

  predicate WellFormed(c: Config, s: Client) {
    && |s.phases| == |c.estimates|
    && |s.uses| + 1 == |s.limiter.log|
    && s.limiter.controller.rate > 0.0
    && (s.second.Llm? ==> s.second.llmRun.buckets.req.Some? == s.second.llmRun.limits.rpm.Some?)
    && forall t :: 0 <= t < |s.phases| && PendingGrant(s.phases[t]).Some? ==>
         PendingGrant(s.phases[t]).value < |s.uses|
  }

  predicate Enabled(c: Config, s: Client, e: Step)
    requires WellFormed(c, s)
  {
    && e.task < |s.phases|
    && s.clock <= e.now
    && var p := s.phases[e.task];
       match e.action
       case Begin => p.Idle?
       case Refuse => p.Deciding?
       case Book => p.Deciding?
       case Clear => p.Booked? && GrantAt(s, p.grant) <= e.now
       case Check => p.Queued?
       case Respond(_) => p.Calling?
       case Release => p.Settling?
       case Reconcile(_, _) => p.Finished? && p.outcome.Delivered? && s.second.Llm?
  }

  function WakeAll(phases: seq<Phase>): (woken: seq<Phase>)
    ensures |woken| == |phases|
    ensures forall t :: 0 <= t < |phases| ==>
              woken[t] == if phases[t].Asleep? then Queued(phases[t].attempt, phases[t].grant) else phases[t]
  {
    seq(|phases|, t requires 0 <= t < |phases| =>
      if phases[t].Asleep? then Queued(phases[t].attempt, phases[t].grant) else phases[t])
  }

  function Next(c: Config, attempt: nat, r: Response): Phase {
    if Retryable(r) && attempt < MaxAttempts(c.maxRetries) then Deciding(attempt + 1) else Finished(Conclude(r))
  }

  function Report(controller: Aimd.Controller, r: Response): Aimd.Controller {
    match r
    case Ok => Aimd.OnSuccess(controller)
    case TooMany => Aimd.OnTooMany(controller)
    case _ => controller
  }

  function Apply(c: Config, s: Client, e: Step): Client
    requires WellFormed(c, s) && Enabled(c, s, e)
  {
    var t, p, now := e.task, s.phases[e.task], e.now;
    match e.action
    case Begin => s.(clock := now, phases := s.phases[t := Deciding(1)])
    case Refuse => s.(clock := now, phases := s.phases[t := Finished(ProviderDown)])
    case Book =>
      s.(clock := now, limiter := A.Step(s.limiter, A.Acquire(now)), uses := s.uses + [Pending(t)],
         phases := s.phases[t := Booked(p.attempt, |s.uses|)])
    case Clear =>
      var tokens := TokenCharge(c.estimates[t]);
      var polled := s.(clock := now, second := Poll(s.second, now, tokens));
      if PollGrants(s.second, now, tokens)
      then polled.(cleared := s.cleared + 1, phases := s.phases[t := Queued(p.attempt, p.grant)])
      else polled
    case Check =>
      if s.active >= G.DynamicLimit(c.gate, s.limiter.controller.rate)
      then s.(clock := now, phases := s.phases[t := Asleep(p.attempt, p.grant)])
      else s.(clock := now, active := s.active + 1, uses := s.uses[p.grant := Called(t, now)],
              phases := s.phases[t := Calling(p.attempt)])
    case Respond(r) =>
      s.(clock := now, limiter := s.limiter.(controller := Report(s.limiter.controller, r)),
         phases := s.phases[t := Settling(p.attempt, r)])
    case Release =>
      s.(clock := now, active := s.active - 1,
         phases := WakeAll(s.phases[t := Next(c, p.attempt, p.response)]))
    case Reconcile(expected, actual) =>
      s.(clock := now, second := Llm(L.Step(s.second.llmRun, L.Correct(now, expected, actual))))
  }

  // ---------- The gate underneath ----------

  function GatePhase(p: Phase): G.Phase {
    match p
    case Queued(_, _) => G.Ready
    case Asleep(_, _) => G.Asleep
    case Calling(_) => G.Holding
    case Settling(_, _) => G.Holding
    case _ => G.Away
  }

  function Project(s: Client): G.Gate {
    G.Gate(s.limiter.controller.rate, s.active,
           seq(|s.phases|, t requires 0 <= t < |s.phases| => GatePhase(s.phases[t])))
  }

  /** The step of the gate that a step of the client performs, if any. */
  function GateStep(c: Config, s: Client, e: Step): Option<G.Step>
    requires WellFormed(c, s) && Enabled(c, s, e)
  {
    match e.action
    case Clear => if PollGrants(s.second, e.now, TokenCharge(c.estimates[e.task])) then Some(G.Arrive(e.task)) else None
    case Check => Some(G.Check(e.task))
    case Respond(r) => Some(G.Retune(Report(s.limiter.controller, r).rate))
    case Release => Some(G.Release(e.task))
    case _ => None
  }

  /** Every step of the client is a step of the gate or leaves the gate alone. */
  lemma StepRefinesGate(c: Config, s: Client, e: Step)
    requires WellFormed(c, s) && Enabled(c, s, e)
    requires Aimd.Valid(s.limiter.controller) && s.limiter.controller.hardCap == c.gate.hardCap
    ensures match GateStep(c, s, e)
            case Some(g) =>
              G.Enabled(c.gate, Project(s), g) && Project(Apply(c, s, e)) == G.Apply(c.gate, Project(s), g)
            case None => Project(Apply(c, s, e)) == Project(s)
  {
    match e.action
    case Respond(r) =>
      Aimd.SignalKeepsValid(s.limiter.controller, Aimd.Success);
      Aimd.SignalKeepsValid(s.limiter.controller, Aimd.TooMany);
    case _ =>
  }

  // ---------- Invariants ----------

  function IsCalled(): Use -> bool {
    (u: Use) => u.Called?
  }

  function CalledBy(t: nat): Use -> bool {
    (u: Use) => u.Called? && u.task == t
  }

  function CarriesGrant(): Phase -> bool {
    (p: Phase) => PendingGrant(p).Some?
  }

  function PastSecond(): Phase -> bool {
    (p: Phase) => p.Queued? || p.Asleep?
  }

  /** The grant a request carries is pending for it, and due once the request is at the gate. */
  ghost predicate CarriesOwn(s: Client, t: nat)
    requires t < |s.phases| && |s.uses| + 1 == |s.limiter.log|
  {
    PendingGrant(s.phases[t]).Some? ==>
      var k := PendingGrant(s.phases[t]).value;
      k < |s.uses| && s.uses[k] == Pending(t) && (PastSecond()(s.phases[t]) ==> GrantAt(s, k) <= s.clock)
  }

  /** A pending grant is carried by its request; a call came no sooner than its grant. */
  ghost predicate Accounted(s: Client, k: nat)
    requires k < |s.uses| && |s.uses| + 1 == |s.limiter.log|
  {
    match s.uses[k]
    case Pending(t) => t < |s.phases| && PendingGrant(s.phases[t]) == Some(k)
    case Called(_, at) => GrantAt(s, k) <= at <= s.clock
  }

  ghost predicate UsesInv(s: Client) {
    && |s.uses| + 1 == |s.limiter.log|
    && (forall t :: 0 <= t < |s.phases| ==> CarriesOwn(s, t))
    && (forall k :: 0 <= k < |s.uses| ==> Accounted(s, k))
  }

  /** Calls the request has made so far, read off its phase. */
  function CallsMade(p: Phase): nat
    requires !p.Finished?
  {
    match p
    case Idle => 0
    case Calling(a) => a
    case Settling(a, _) => a
    case Deciding(a) => if a >= 1 then a - 1 else 0
    case Booked(a, _) => if a >= 1 then a - 1 else 0
    case Queued(a, _) => if a >= 1 then a - 1 else 0
    case Asleep(a, _) => if a >= 1 then a - 1 else 0
  }

  predicate AttemptInRange(c: Config, p: Phase) {
    p.Idle? || p.Finished? || 1 <= p.attempt <= MaxAttempts(c.maxRetries)
  }

  /** Calls a finished request may have made: all it had before it gave up on 429s, none only if the breaker refused. */
  predicate FinishedAfter(c: Config, outcome: Outcome, calls: nat) {
    && calls <= MaxAttempts(c.maxRetries)
    && (outcome.RateLimitExceeded? ==> calls == MaxAttempts(c.maxRetries))
    && (!outcome.ProviderDown? ==> calls >= 1)
  }

  ghost predicate RequestInv(c: Config, s: Client, t: nat)
    requires t < |s.phases|
  {
    && AttemptInRange(c, s.phases[t])
    && (if s.phases[t].Finished? then FinishedAfter(c, s.phases[t].outcome, Count(s.uses, CalledBy(t)))
        else Count(s.uses, CalledBy(t)) == CallsMade(s.phases[t]))
  }

  /** Charges made so far on the RPM or TPM limiter. */
  function SecondCharges(second: Second): int {
    match second
    case Unlimited => 0
    case Rpm(r) => |r.log| - 1
    case Llm(r) => L.GrantCount(r.kinds)
  }

  ghost predicate SecondInv(second: Second, clock: real) {
    match second
    case Unlimited => true
    case Rpm(r) => C.InvAt(r, r.bucket.target) && UnitCharges(r.log) && 0.0 <= r.bucket.capacity && r.bucket.at <= clock
    case Llm(r) => L.Inv(r) && r.buckets.at <= clock
  }

  /**
   Every grant is pending or used for one call, every charge on the second limiter belongs to
   a call or to a request at the gate.
   */
  ghost predicate CountsInv(s: Client) {
    && |s.uses| == Count(s.uses, IsCalled()) + Count(s.phases, CarriesGrant())
    && s.cleared == Count(s.uses, IsCalled()) + Count(s.phases, PastSecond())
    && (!s.second.Unlimited? ==> s.cleared == SecondCharges(s.second))
  }

  ghost predicate Inv(c: Config, s: Client) {
    && |s.phases| == |c.estimates|
    && A.Inv(s.limiter)
    && s.limiter.clock <= s.clock
    && s.limiter.controller.hardCap == c.gate.hardCap
    && UsesInv(s)
    && CountsInv(s)
    && SecondInv(s.second, s.clock)
    && G.Inv(c.gate, Project(s))
    && forall t :: 0 <= t < |s.phases| ==> RequestInv(c, s, t)
  }

  lemma InvIsWellFormed(c: Config, s: Client)
    requires Inv(c, s)
    ensures WellFormed(c, s)
  {
    forall t | 0 <= t < |s.phases| && PendingGrant(s.phases[t]).Some?
      ensures PendingGrant(s.phases[t]).value < |s.uses|
    {
      assert CarriesOwn(s, t);
    }
  }

  lemma LimiterPart(c: Config, s: Client, e: Step)
    requires WellFormed(c, s) && Inv(c, s) && Enabled(c, s, e)
    ensures A.Inv(Apply(c, s, e).limiter) && Apply(c, s, e).limiter.clock <= Apply(c, s, e).clock
    ensures Apply(c, s, e).limiter.controller.hardCap == c.gate.hardCap
    ensures |Apply(c, s, e).uses| + 1 == |Apply(c, s, e).limiter.log|
    ensures s.limiter.log <= Apply(c, s, e).limiter.log
  {
    match e.action
    case Book => A.StepKeepsInv(s.limiter, A.Acquire(e.now));
    case Respond(r) => ReportKeepsInv(s.limiter, r);
    case _ =>
  }

  lemma ReportKeepsInv(r: A.Run, response: Response)
    requires A.Inv(r)
    ensures A.Inv(r.(controller := Report(r.controller, response)))
    ensures Report(r.controller, response).hardCap == r.controller.hardCap
  {
    A.StepKeepsInv(r, A.Signal(Aimd.Success));
    A.StepKeepsInv(r, A.Signal(Aimd.TooMany));
  }

  lemma GatePart(c: Config, s: Client, e: Step)
    requires WellFormed(c, s) && Inv(c, s) && Enabled(c, s, e)
    ensures G.Inv(c.gate, Project(Apply(c, s, e)))
  {
    StepRefinesGate(c, s, e);
    match GateStep(c, s, e)
    case Some(g) => G.StepKeepsInv(c.gate, Project(s), g);
    case None =>
  }

  lemma PollCharges(second: Second, clock: real, now: real, tokens: int)
    requires SecondInv(second, clock) && clock <= now
    ensures SecondInv(Poll(second, now, tokens), now)
    ensures Poll(second, now, tokens).Unlimited? == second.Unlimited?
    ensures !second.Unlimited? ==>
              SecondCharges(Poll(second, now, tokens)) ==
                SecondCharges(second) + if PollGrants(second, now, tokens) then 1 else 0
  {
    match second
    case Unlimited =>
    case Rpm(r) => C.StepKeepsInv(r, r.bucket.target, C.Attempt(now, 1.0));
    case Llm(r) =>
      L.StepKeepsInv(r, L.Attempt(now, tokens));
      assert (r.kinds + [L.Granted])[..|r.kinds|] == r.kinds;
  }

  lemma CorrectionChargesNothing(r: L.Run, clock: real, e: L.Event)
    requires L.Inv(r) && r.buckets.at <= clock <= e.now && e.Correct?
    ensures SecondInv(Llm(L.Step(r, e)), e.now)
    ensures L.GrantCount(L.Step(r, e).kinds) == L.GrantCount(r.kinds)
  {
    L.StepKeepsInv(r, e);
    assert (r.kinds + [L.Corrected])[..|r.kinds|] == r.kinds;
  }

  lemma SecondPart(c: Config, s: Client, e: Step)
    requires WellFormed(c, s) && Inv(c, s) && Enabled(c, s, e)
    ensures SecondInv(Apply(c, s, e).second, Apply(c, s, e).clock)
    ensures Apply(c, s, e).second.Unlimited? == s.second.Unlimited?
    ensures !s.second.Unlimited? ==>
              SecondCharges(Apply(c, s, e).second) - SecondCharges(s.second) == Apply(c, s, e).cleared - s.cleared
  {
    match e.action
    case Clear => PollCharges(s.second, s.clock, e.now, TokenCharge(c.estimates[e.task]));
    case Reconcile(expected, actual) =>
      CorrectionChargesNothing(s.second.llmRun, s.clock, L.Correct(e.now, expected, actual));
    case _ =>
  }

  lemma WakeAllCounts(phases: seq<Phase>)
    ensures Count(WakeAll(phases), CarriesGrant()) == Count(phases, CarriesGrant())
    ensures Count(WakeAll(phases), PastSecond()) == Count(phases, PastSecond())
  {
    CountAgrees(WakeAll(phases), CarriesGrant(), phases, CarriesGrant());
    CountAgrees(WakeAll(phases), PastSecond(), phases, PastSecond());
  }

  /** How one step changes a count of phases that waking a sleeper does not affect. */
  lemma PhaseCounts(c: Config, s: Client, e: Step, p: Phase -> bool)
    requires WellFormed(c, s) && Enabled(c, s, e) && (p == CarriesGrant() || p == PastSecond())
    ensures Count(Apply(c, s, e).phases, p) ==
              Count(s.phases, p) - (if p(s.phases[e.task]) then 1 else 0)
              + (if p(Apply(c, s, e).phases[e.task]) then 1 else 0)
  {
    var t, after := e.task, Apply(c, s, e);
    if e.action.Release? {
      var next := Next(c, s.phases[t].attempt, s.phases[t].response);
      CountUpdate(s.phases, t, next, p);
      WakeAllCounts(s.phases[t := next]);
    } else {
      assert after.phases == s.phases[t := after.phases[t]];
      CountUpdate(s.phases, t, after.phases[t], p);
    }
  }

  lemma CountsPart(c: Config, s: Client, e: Step)
    requires WellFormed(c, s) && Enabled(c, s, e) && CountsInv(s)
    requires e.action.Check? ==> s.uses[s.phases[e.task].grant] == Pending(e.task)
    requires !s.second.Unlimited? ==>
               SecondCharges(Apply(c, s, e).second) - SecondCharges(s.second) == Apply(c, s, e).cleared - s.cleared
    requires Apply(c, s, e).second.Unlimited? == s.second.Unlimited?
    ensures CountsInv(Apply(c, s, e))
  {
    PhaseCounts(c, s, e, CarriesGrant());
    PhaseCounts(c, s, e, PastSecond());
    UseCounts(c, s, e, IsCalled());
  }

  /** How one step changes a count of uses: Book adds a pending one, an admission turns one into a call. */
  lemma UseCounts(c: Config, s: Client, e: Step, p: Use -> bool)
    requires WellFormed(c, s) && Enabled(c, s, e)
    ensures Count(Apply(c, s, e).uses, p) ==
              Count(s.uses, p)
              + (if e.action.Book? && p(Pending(e.task)) then 1 else 0)
              + (if Apply(c, s, e).active > s.active
                 then (if p(Called(e.task, e.now)) then 1 else 0)
                      - (if p(s.uses[s.phases[e.task].grant]) then 1 else 0)
                 else 0)
  {
    if e.action.Book? {
      CountAppend(s.uses, Pending(e.task), p);
    } else if Apply(c, s, e).active > s.active {
      assert PendingGrant(s.phases[e.task]).Some?;
      CountUpdate(s.uses, s.phases[e.task].grant, Called(e.task, e.now), p);
    }
  }

  lemma CarriesOwnPart(c: Config, s: Client, e: Step, t: nat)
    requires WellFormed(c, s) && Enabled(c, s, e) && t < |s.phases|
    requires UsesInv(s) && s.limiter.log <= Apply(c, s, e).limiter.log
    requires |Apply(c, s, e).uses| + 1 == |Apply(c, s, e).limiter.log|
    ensures CarriesOwn(Apply(c, s, e), t)
  {
    assert CarriesOwn(s, t);
    assert CarriesOwn(s, e.task);
  }

  lemma AccountedPart(c: Config, s: Client, e: Step, k: nat)
    requires WellFormed(c, s) && Enabled(c, s, e) && k < |Apply(c, s, e).uses|
    requires UsesInv(s) && s.limiter.log <= Apply(c, s, e).limiter.log
    requires |Apply(c, s, e).uses| + 1 == |Apply(c, s, e).limiter.log|
    ensures Accounted(Apply(c, s, e), k)
  {
    if k < |s.uses| { assert Accounted(s, k); }
    assert CarriesOwn(s, e.task);
  }

  lemma RequestPart(c: Config, s: Client, e: Step, t: nat)
    requires WellFormed(c, s) && Enabled(c, s, e) && t < |s.phases|
    requires UsesInv(s) && RequestInv(c, s, t)
    ensures RequestInv(c, Apply(c, s, e), t)
  {
    assert CarriesOwn(s, e.task);
    UseCounts(c, s, e, CalledBy(t));
  }

  lemma StepKeepsInv(c: Config, s: Client, e: Step)
    requires WellFormed(c, s) && Inv(c, s) && Enabled(c, s, e)
    ensures Inv(c, Apply(c, s, e))
  {
    LimiterPart(c, s, e);
    GatePart(c, s, e);
    SecondPart(c, s, e);
    assert CarriesOwn(s, e.task);
    CountsPart(c, s, e);
    forall t | 0 <= t < |s.phases|
      ensures RequestInv(c, Apply(c, s, e), t) && CarriesOwn(Apply(c, s, e), t)
    {
      RequestPart(c, s, e, t);
      CarriesOwnPart(c, s, e, t);
    }
    forall k | 0 <= k < |Apply(c, s, e).uses|
      ensures Accounted(Apply(c, s, e), k)
    {
      AccountedPart(c, s, e, k);
    }
  }

  // ---------- Runs ----------

  /** A client nobody has used yet: idle requests, a full second limiter, an open gate. */
  ghost predicate Fresh(c: Config, s: Client) {
    && Aimd.Valid(s.limiter.controller)
    && s.limiter == A.Open(s.limiter.controller, s.clock)
    && s.limiter.controller.hardCap == c.gate.hardCap
    && SecondInv(s.second, s.clock) && SecondCharges(s.second) == 0
    && s.active == 0 && s.uses == [] && s.cleared == 0
    && |s.phases| == |c.estimates|
    && forall t :: 0 <= t < |s.phases| ==> s.phases[t] == Idle
  }

  lemma FreshHasInv(c: Config, s: Client)
    requires Fresh(c, s)
    ensures Inv(c, s)
  {
    CountPositive(s.phases, CarriesGrant());
    CountPositive(s.phases, PastSecond());
    CountPositive(Project(s).phases, G.Is(G.Holding));
    CountPositive(Project(s).phases, G.Is(G.Asleep));
    G.LimitAtMostCapLimit(c.gate, s.limiter.controller.rate);
  }

  ghost predicate Runs(c: Config, s: Client, steps: seq<Step>)
    decreases |steps|
  {
    steps != [] ==> WellFormed(c, s) && Enabled(c, s, steps[0]) && Runs(c, Apply(c, s, steps[0]), steps[1..])
  }

  ghost function After(c: Config, s: Client, steps: seq<Step>): Client
    requires Runs(c, s, steps)
    decreases |steps|
  {
    if steps == [] then s else After(c, Apply(c, s, steps[0]), steps[1..])
  }

  lemma {:induction false} RunsKeepInv(c: Config, s: Client, steps: seq<Step>)
    requires Inv(c, s) && Runs(c, s, steps)
    ensures Inv(c, After(c, s, steps)) && s.limiter.log <= After(c, s, steps).limiter.log
    decreases |steps|
  {
    if steps != [] {
      LimiterPart(c, s, steps[0]);
      StepKeepsInv(c, s, steps[0]);
      RunsKeepInv(c, Apply(c, s, steps[0]), steps[1..]);
    }
  }

  // ---------- The promises ----------

  function CalledTo(t: real): Use -> bool {
    (u: Use) => u.Called? && u.at <= t
  }

  function CalledIn(from: real, to: real): Use -> bool {
    (u: Use) => u.Called? && from <= u.at <= to
  }

  /** How many of the first n grants fall due in the window. */
  ghost function GrantsIn(s: Client, from: real, to: real, n: nat): nat
    requires n <= |s.uses| && |s.uses| + 1 == |s.limiter.log|
  {
    if n == 0 then 0
    else GrantsIn(s, from, to, n - 1) + if from <= GrantAt(s, n - 1) <= to then 1 else 0
  }

  /** Grant k was due before the instant and had not been used for a call before it. */
  ghost predicate IsCarried(s: Client, from: real, k: nat)
    requires k < |s.uses| && |s.uses| + 1 == |s.limiter.log|
  {
    GrantAt(s, k) < from && !(s.uses[k].Called? && s.uses[k].at < from)
  }

  ghost function Carried(s: Client, from: real, n: nat): nat
    requires n <= |s.uses| && |s.uses| + 1 == |s.limiter.log|
  {
    if n == 0 then 0 else Carried(s, from, n - 1) + if IsCarried(s, from, n - 1) then 1 else 0
  }

  /** A call in the window used a grant of the window or one carried over into it. */
  lemma {:induction false} CallsComeFromGrants(s: Client, from: real, to: real, n: nat)
    requires UsesInv(s) && n <= |s.uses|
    ensures Count(s.uses[..n], CalledIn(from, to)) <= GrantsIn(s, from, to, n) + Carried(s, from, n)
    decreases n
  {
    if n > 0 {
      assert s.uses[..n][..n - 1] == s.uses[..n - 1];
      assert Accounted(s, n - 1);
      CallsComeFromGrants(s, from, to, n - 1);
    }
  }

  /** The grants of a window lie between its first and its last. */
  lemma {:induction false} GrantsSpan(s: Client, from: real, to: real, n: nat) returns (i: nat, j: nat)
    requires n <= |s.uses| && |s.uses| + 1 == |s.limiter.log| && GrantsIn(s, from, to, n) > 0
    ensures i <= j < n && from <= GrantAt(s, i) && GrantAt(s, j) <= to && GrantsIn(s, from, to, n) <= j - i + 1
    decreases n
  {
    if GrantsIn(s, from, to, n - 1) > 0 {
      i, j := GrantsSpan(s, from, to, n - 1);
      if from <= GrantAt(s, n - 1) <= to { j := n - 1; }
    } else {
      i, j := n - 1, n - 1;
    }
  }

  lemma GrantsInAreBounded(c: Config, s: Client, from: real, to: real)
    requires Inv(c, s) && from <= to
    ensures GrantsIn(s, from, to, |s.uses|) as real <= A.CAPACITY + Accrued(to - from, c.gate.hardCap)
  {
    AccruedSign(to - from, c.gate.hardCap);
    if GrantsIn(s, from, to, |s.uses|) > 0 {
      var i, j := GrantsSpan(s, from, to, |s.uses|);
      A.GrantsInWindow(s.limiter, i + 1, j + 1);
      AccruedOrder(GrantAt(s, j) - GrantAt(s, i), to - from, c.gate.hardCap);
    }
  }

  /**
   Calls started in any window are at most the burst capacity, plus hard cap times the window, plus
   the grants carried into it. A window that opens with nothing carried over keeps to the cap.
   */
  lemma CallsInWindow(c: Config, s: Client, from: real, to: real)
    requires Inv(c, s) && from <= to
    ensures Count(s.uses, CalledIn(from, to)) <= GrantsIn(s, from, to, |s.uses|) + Carried(s, from, |s.uses|)
    ensures Count(s.uses, CalledIn(from, to)) as real
         <= A.CAPACITY + Accrued(to - from, c.gate.hardCap) + Carried(s, from, |s.uses|) as real
  {
    assert s.uses[..|s.uses|] == s.uses;
    CallsComeFromGrants(s, from, to, |s.uses|);
    GrantsInAreBounded(c, s, from, to);
  }

  lemma {:induction false} NothingCarriedAtOpening(c: Config, s: Client, n: nat)
    requires Inv(c, s) && n <= |s.uses|
    ensures Carried(s, s.limiter.log[0].at, n) == 0
    decreases n
  {
    if n > 0 {
      A.GrantsSinceOpening(s.limiter, n);
      NothingCarriedAtOpening(c, s, n - 1);
    }
  }

  /** Every call is made at or after its grant, so none before the opening. */
  lemma CalledSinceOpening(c: Config, s: Client, t: real)
    requires Inv(c, s)
    ensures Count(s.uses, CalledTo(t)) == Count(s.uses, CalledIn(s.limiter.log[0].at, t))
  {
    var start := s.limiter.log[0].at;
    forall k | 0 <= k < |s.uses|
      ensures CalledTo(t)(s.uses[k]) == CalledIn(start, t)(s.uses[k])
    {
      assert Accounted(s, k);
      A.GrantsSinceOpening(s.limiter, k + 1);
    }
    CountAgrees(s.uses, CalledTo(t), s.uses, CalledIn(start, t));
  }

  /**
   Calls started by time t are at most the grants due by then, and hence at most the burst capacity
   plus hard cap times the time since the client was opened.
   */
  lemma CallsByTime(c: Config, s: Client, t: real)
    requires Inv(c, s) && s.limiter.log[0].at <= t
    ensures Count(s.uses, CalledTo(t)) <= GrantsIn(s, s.limiter.log[0].at, t, |s.uses|)
    ensures Count(s.uses, CalledTo(t)) as real <= A.CAPACITY + Accrued(t - s.limiter.log[0].at, c.gate.hardCap)
  {
    CalledSinceOpening(c, s, t);
    NothingCarriedAtOpening(c, s, |s.uses|);
    CallsInWindow(c, s, s.limiter.log[0].at, t);
  }

  /** That bound for every run of a fresh client, at every instant. */
  lemma CallRateRespectsCap(c: Config, s: Client, steps: seq<Step>, t: real)
    requires Fresh(c, s) && Runs(c, s, steps) && s.clock <= t
    ensures Count(After(c, s, steps).uses, CalledTo(t)) as real <= A.CAPACITY + Accrued(t - s.clock, c.gate.hardCap)
  {
    FreshHasInv(c, s);
    RunsKeepInv(c, s, steps);
    assert After(c, s, steps).limiter.log[0] == s.limiter.log[0];
    CallsByTime(c, After(c, s, steps), t);
  }

  /** And the bound on windows, for every run of a fresh client and every window. */
  lemma CallWindowsRespectCap(c: Config, s: Client, steps: seq<Step>, from: real, to: real)
    requires Fresh(c, s) && Runs(c, s, steps) && from <= to
    ensures var r := After(c, s, steps);
            && |r.uses| + 1 == |r.limiter.log|
            && Count(r.uses, CalledIn(from, to)) as real
               <= A.CAPACITY + Accrued(to - from, c.gate.hardCap) + Carried(r, from, |r.uses|) as real
  {
    FreshHasInv(c, s);
    RunsKeepInv(c, s, steps);
    CallsInWindow(c, After(c, s, steps), from, to);
  }

  /** No request makes more transport calls than its attempts allow, and none but its own calls count. */
  lemma CallsPerRequest(c: Config, s: Client, steps: seq<Step>, t: nat)
    requires Fresh(c, s) && Runs(c, s, steps) && t < |s.phases|
    ensures t < |After(c, s, steps).phases|
    ensures Count(After(c, s, steps).uses, CalledBy(t)) <= MaxAttempts(c.maxRetries)
  {
    FreshHasInv(c, s);
    RunsKeepInv(c, s, steps);
    assert RequestInv(c, After(c, s, steps), t);
  }

  function AtRest(): Phase -> bool {
    (p: Phase) => p.Idle? || p.Finished?
  }

  lemma RestHoldsNothing(s: Client)
    requires forall t :: 0 <= t < |s.phases| ==> AtRest()(s.phases[t])
    ensures Count(Project(s).phases, G.Is(G.Holding)) == 0
    ensures Count(s.phases, CarriesGrant()) == 0 && Count(s.phases, PastSecond()) == 0
  {
    CountPositive(Project(s).phases, G.Is(G.Holding));
    CountPositive(s.phases, CarriesGrant());
    CountPositive(s.phases, PastSecond());
  }

  /** Slots are exactly the calls in progress; at rest no slot, grant or second-limiter charge is left over. */
  lemma NothingLeaks(c: Config, s: Client, steps: seq<Step>)
    requires Fresh(c, s) && Runs(c, s, steps)
    ensures var r := After(c, s, steps);
            && r.active == Count(Project(r).phases, G.Is(G.Holding))
            && r.active <= G.DynamicLimit(c.gate, c.gate.hardCap)
            && ((forall t :: 0 <= t < |r.phases| ==> AtRest()(r.phases[t])) ==>
                  && r.active == 0
                  && Count(r.uses, IsCalled()) == |r.limiter.log| - 1
                  && (!r.second.Unlimited? ==> Count(r.uses, IsCalled()) == SecondCharges(r.second)))
  {
    var r := After(c, s, steps);
    FreshHasInv(c, s);
    RunsKeepInv(c, s, steps);
    if forall t :: 0 <= t < |r.phases| ==> AtRest()(r.phases[t]) {
      RestHoldsNothing(r);
    }
  }

  // ---------- The second limiter's promise ----------

  ghost predicate UnitsFit(r: C.Run, i: nat, j: nat)
    requires i <= j < |r.log|
  {
    (j - i + 1) as real <= r.bucket.capacity + Accrued(r.log[j].at - r.log[i].at, r.bucket.target)
  }

  /** Every window of grants keeps to the requests per minute and the corrected tokens per minute, as configured. */
  ghost predicate WindowsFit(second: Second) {
    match second
    case Unlimited => true
    case Rpm(r) => forall i, j :: 0 < i <= j < |r.log| ==> UnitsFit(r, i, j)
    case Llm(r) =>
      && |r.kinds| == |r.log|
      && (forall i, j :: 0 <= i <= j < |r.log| && r.kinds[j].Granted? ==> L.TokensFit(r, i, j))
      && (r.limits.rpm.Some? ==> forall i, j :: 0 < i <= j < |r.requests| ==> L.RequestsFit(r, i, j))
  }

  ghost predicate SameTerms(a: Second, b: Second) {
    match a
    case Unlimited => b.Unlimited?
    case Rpm(r) => b.Rpm? && b.rpmRun.bucket.capacity == r.bucket.capacity && b.rpmRun.bucket.target == r.bucket.target
                   && r.log <= b.rpmRun.log
    case Llm(r) => b.Llm? && b.llmRun.limits == r.limits && r.requests <= b.llmRun.requests
  }

  lemma StepKeepsTerms(c: Config, s: Client, e: Step)
    requires WellFormed(c, s) && Enabled(c, s, e)
    ensures SameTerms(s.second, Apply(c, s, e).second)
  {}

  lemma {:induction false} TermsStay(c: Config, s: Client, steps: seq<Step>)
    requires Runs(c, s, steps)
    ensures SameTerms(s.second, After(c, s, steps).second)
    decreases |steps|
  {
    if steps != [] {
      StepKeepsTerms(c, s, steps[0]);
      TermsStay(c, Apply(c, s, steps[0]), steps[1..]);
    }
  }

  lemma SecondWindowsFit(second: Second, clock: real)
    requires SecondInv(second, clock)
    ensures WindowsFit(second)
  {
    match second
    case Unlimited =>
    case Rpm(r) =>
      forall i, j | 0 < i <= j < |r.log| ensures UnitsFit(r, i, j) {
        UnitWindow(C.TermsAt(r.bucket, r.bucket.target), r.log, i, j);
      }
    case Llm(r) =>
      forall i, j | 0 <= i <= j < |r.log| && r.kinds[j].Granted? ensures L.TokensFit(r, i, j) {
        L.TokensInWindow(r, i, j);
      }
      if r.limits.rpm.Some? {
        forall i, j | 0 < i <= j < |r.requests| ensures L.RequestsFit(r, i, j) {
          L.RequestsInWindow(r, i, j);
        }
      }
  }

  /** Requests admitted per minute since the opening, if they are limited. */
  ghost predicate CallsFit(second: Second, since: real, now: real, calls: nat) {
    match second
    case Unlimited => true
    case Rpm(r) => calls as real <= r.bucket.capacity + Accrued(now - since, r.bucket.target)
    case Llm(r) =>
      r.limits.rpm.Some? ==>
        calls as real <= r.limits.rpm.value as real + Accrued(now - since, r.limits.rpm.value as real / 60.0)
  }

  /** When the second limiter's bucket of requests was opened. */
  ghost function OpenedAt(second: Second, clock: real): real
    requires SecondInv(second, clock)
  {
    match second
    case Unlimited => clock
    case Rpm(r) => r.log[0].at
    case Llm(r) => if r.limits.rpm.Some? then r.requests[0].at else clock
  }

  lemma ChargesFit(t: Terms, log: seq<Ledger.Entry>, level: real, at: real, now: real)
    requires Covers(t, log, level, at) && UnitCharges(log) && at <= now && 0.0 <= t.capacity
    ensures log[0].at <= now
    ensures (|log| - 1) as real <= t.capacity + Accrued(now - log[0].at, t.cap)
  {
    var last, start := |log| - 1, log[0].at;
    WindowBound(t, log, 0, last);
    AccruedSign(now - start, t.cap);
    if last > 0 {
      UnitWindow(t, log, 0, last);
      MulMonotone(log[last].at - start, now - start, t.cap);
    }
  }

  /**
   Through every interleaving the configured limit stays what it was and is kept: over every window
   of the second limiter's grants, and, requests per minute, by the transport calls themselves.
   */
  lemma SecondLimitIsKept(c: Config, s: Client, steps: seq<Step>)
    requires Fresh(c, s) && Runs(c, s, steps)
    ensures var r := After(c, s, steps);
            && SameTerms(s.second, r.second) && WindowsFit(r.second)
            && CallsFit(r.second, OpenedAt(s.second, s.clock), r.clock, Count(r.uses, IsCalled()))
  {
    var r := After(c, s, steps);
    FreshHasInv(c, s);
    RunsKeepInv(c, s, steps);
    TermsStay(c, s, steps);
    SecondWindowsFit(r.second, r.clock);
    match r.second
    case Unlimited =>
    case Rpm(q) =>
      var b := q.bucket;
      ChargesFit(C.TermsAt(b, b.target), q.log, Min(b.capacity, b.tokens), b.at, r.clock);
    case Llm(q) =>
      if q.limits.rpm.Some? {
        ChargesFit(L.ReqTerms(q.limits), q.requests, q.buckets.req.value, q.buckets.at, r.clock);
      }
  }
}
