/**
 ResilientHttpClient (src/network/resilience.py) as an object: which limiters it
 builds, and one request driving them through its retry loop. What happens when
 many requests interleave is the subject of ClientRuns.
 */
module ResilientClient {
  import opened Options
  import opened RealMath
  import opened ProviderLimits
  import A = AdaptiveLimiter
  import Aimd
  import G = ConcurrencyGate
  import L = LlmLimiter
  import C = CongestionBucket
  import R = ClientRuns

  datatype RateLimitConfig = RateLimitConfig(maxRequestsPerSecond: real, maxRequestsPerMinute: Option<int>,
                                             maxTokensPerMinute: Option<int>, maxRetries: int)

  /** What the configuration model validates. */
  predicate Validated(c: RateLimitConfig) {
    && c.maxRequestsPerSecond > 0.0
    && (c.maxRequestsPerMinute.Some? ==> c.maxRequestsPerMinute.value >= 1)
    && (c.maxTokensPerMinute.Some? ==> c.maxTokensPerMinute.value >= 1)
  }

  /**
   The environment of one attempt: whether the breaker refuses it, how the transport answers,
   how late sleeps end, how long the call takes and how long the retry backs off.
   */
  datatype Attempt = Attempt(refused: bool, response: R.Response, overshoot: real, duration: real, backoff: real)

  predicate Plausible(a: Attempt) {
    a.overshoot >= 0.0 && a.duration >= 0.0 && a.backoff >= 0.0
  }

  predicate AllPlausible(script: seq<Attempt>) {
    forall i :: 0 <= i < |script| ==> Plausible(script[i])
  }

  /**
   How far a request gets on its own: to its end, for ever round the loop of the second limiter,
   or asleep at the gate until some other request frees its slot.
   */
  datatype Progress = Done | Polling | Sleeping

  /** What a request uses up: adaptive grants, grants of the second limiter; and the state of the rate. */
  datatype Account = Account(grants: nat, seconds: int, controller: Aimd.Controller)

  /** What a request finds when it starts: the account, and who stands where at the gate. */
  datatype Start = Start(books: Account, holders: int, phases: seq<G.Phase>)

  /** One adaptive grant, and one of the second limiter once that is passed. */
  function Granted(a: Account, limited: bool, passed: bool): Account {
    Account(a.grants + 1, a.seconds + if limited && passed then 1 else 0, a.controller)
  }

  /** After the response was reported. */
  function Told(a: Account, response: R.Response): Account {
    a.(controller := R.Report(a.controller, response))
  }

  /** The account after one more attempt that got this far; `limited` if there is a second limiter. */
  function Charged(a: Account, limited: bool, progress: Progress, response: R.Response): Account {
    var granted := Granted(a, limited, !progress.Polling?);
    if progress.Done? then Told(granted, response) else granted
  }

  /** The account after the first n attempts, each of them with its call. */
  function ChargedFor(a: Account, limited: bool, script: seq<Attempt>, n: nat): (r: Account)
    requires n <= |script|
    ensures r.grants == a.grants + n && r.seconds == a.seconds + if limited then n else 0
  {
    if n == 0 then a else Charged(ChargedFor(a, limited, script, n - 1), limited, Done, script[n - 1].response)
  }

  /** What a request has used up when it stops at attempt number `last`. */
  function Spent(a: Account, limited: bool, script: seq<Attempt>, last: nat, progress: Progress, calls: nat): Account
    requires last < |script| && calls <= |script|
  {
    var used := ChargedFor(a, limited, script, calls);
    if progress.Done? then used else Charged(used, limited, progress, script[last].response)
  }

  /** The first n attempts passed the breaker and ended in something worth retrying. */
  ghost predicate Retried(script: seq<Attempt>, n: nat)
    requires n <= |script|
  {
    forall i :: 0 <= i < n ==>
      && !script[i].refused
      && (script[i].response.TooMany? || script[i].response.BadStatus? || script[i].response.NetworkError?)
  }

  lemma RetriedOnce(script: seq<Attempt>, n: nat)
    requires n < |script| && Retried(script, n) && !script[n].refused && R.Retryable(script[n].response)
    ensures Retried(script, n + 1) && !script[0].refused
  {}

  /** Nobody at the gate but `task` is touched, except that sleepers may have been woken. */
  ghost predicate OthersStand(before: seq<G.Phase>, after: seq<G.Phase>, task: nat) {
    && |after| == |before|
    && forall u :: 0 <= u < |before| && u != task ==>
         after[u] == before[u] || (before[u] == G.Asleep && after[u] == G.Ready)
  }

  lemma OthersStandOn(a: seq<G.Phase>, b: seq<G.Phase>, c: seq<G.Phase>, task: nat)
    requires OthersStand(a, b, task) && OthersStand(b, c, task)
    ensures OthersStand(a, c, task)
  {}

  class ResilientHttpClient {
    const rateLimiter: A.AdaptiveRateLimiter
    const gate: G.DynamicConcurrencyLimiter
    const rpmLimiter: C.TokenBucketRateLimiter?
    const llmLimiter: L.RpmTpmRateLimiter?
    const maxRetries: int

    ghost function Repr(): set<object> {
      {rateLimiter, gate} + Seconds()
    }

    ghost predicate Valid()
      reads Repr(), rateLimiter.store
    {
      && rateLimiter.Valid()
      && gate.rateLimiter == rateLimiter && gate.Valid()
      && (rpmLimiter != null ==> rpmLimiter.Valid())
      && (llmLimiter != null ==> llmLimiter.Valid())
      && (rpmLimiter == null || llmLimiter == null)
    }

    ghost predicate Limited() {
      rpmLimiter != null || llmLimiter != null
    }

    /** The second limiter, if one is configured. */
    ghost function Seconds(): set<object> {
      (if rpmLimiter == null then {} else {rpmLimiter}) + (if llmLimiter == null then {} else {llmLimiter})
    }

    /** No limiter has seen a later instant. */
    ghost predicate UpTo(now: real)
      reads Repr()
    {
      && rateLimiter.clock <= now
      && (rpmLimiter != null ==> rpmLimiter.lastUpdate <= now)
      && (llmLimiter != null ==> llmLimiter.lastRefill <= now)
    }

    /** The request fits the second limiter's bucket. */
    ghost predicate Fits(estimate: Option<int>) {
      && (rpmLimiter != null ==> rpmLimiter.capacity >= 1.0)
      && (llmLimiter != null ==> L.Charge(R.TokenCharge(estimate)) <= llmLimiter.tpm)
    }

    ghost function SecondGrants(): int
      reads Repr()
    {
      if llmLimiter != null then L.GrantCount(llmLimiter.kinds)
      else if rpmLimiter != null then |rpmLimiter.log| - 1
      else 0
    }

    ghost function Books(): Account
      reads Repr()
    {
      Account(|rateLimiter.log|, SecondGrants(), rateLimiter.State().controller)
    }

    ghost function Snapshot(): Start
      reads Repr()
    {
      Start(Books(), gate.activeTasks, gate.phases)
    }

    /** A token limit selects the dual limiter; a request limit alone selects the simple bucket. */
    constructor (namespace: string, config: RateLimitConfig, store: A.RateStore, now: real, ghost tasks: nat)
      requires Validated(config)
      modifies store
      ensures Valid() && UpTo(now)
      ensures rateLimiter.hardCap == GetHardCapRps(namespace, config.maxRequestsPerSecond)
      ensures rateLimiter.namespace == namespace && rateLimiter.store == store
      ensures llmLimiter != null <==> config.maxTokensPerMinute.Some?
      ensures llmLimiter != null ==>
                llmLimiter.rpm == config.maxRequestsPerMinute && llmLimiter.tpm == config.maxTokensPerMinute.value
      ensures rpmLimiter != null <==> config.maxTokensPerMinute.None? && config.maxRequestsPerMinute.Some?
      ensures rpmLimiter != null ==>
                && rpmLimiter.capacity == config.maxRequestsPerMinute.value as real
                && rpmLimiter.targetMaxRate == config.maxRequestsPerMinute.value as real / 60.0
      ensures maxRetries == config.maxRetries && SecondGrants() == 0
      ensures gate.activeTasks == 0 && gate.phases == seq(tasks, _ => G.Away)
    {
      var limiter := new A.AdaptiveRateLimiter(namespace, config.maxRequestsPerSecond, store, now);
      rateLimiter := limiter;
      gate := new G.DynamicConcurrencyLimiter(limiter, 1.0, tasks);
      var llm: L.RpmTpmRateLimiter? := null;
      var rpm: C.TokenBucketRateLimiter? := null;
      if config.maxTokensPerMinute.Some? {
        llm := new L.RpmTpmRateLimiter(config.maxRequestsPerMinute, config.maxTokensPerMinute.value, now);
      } else if config.maxRequestsPerMinute.Some? {
        var rpmRate := config.maxRequestsPerMinute.value as real / 60.0;
        rpm := new C.TokenBucketRateLimiter(rpmRate, Some(config.maxRequestsPerMinute.value as real), now);
      }
      llmLimiter := llm;
      rpmLimiter := rpm;
      maxRetries := config.maxRetries;
    }

    /** One grant of the second limiter if there is one; a request that does not fit it is still polling. */
    method PassSecond(now: real, estimate: Option<int>, overshoot: real) returns (passed: bool, at: real)
      requires Valid() && UpTo(now) && overshoot >= 0.0
      modifies Seconds()
      ensures Valid() && UpTo(at) && now <= at
      ensures passed <==> Fits(estimate)
      ensures llmLimiter != null && estimate.Some? && estimate.value > llmLimiter.tpm ==> !passed
      ensures passed && llmLimiter != null ==>
                && |llmLimiter.log| == |old(llmLimiter.log)| + 1
                && llmLimiter.log[|llmLimiter.log| - 1].amount ==
                     if estimate.Some? && estimate.value > 1 then estimate.value as real else 1.0
      ensures passed && rpmLimiter != null ==>
                |rpmLimiter.log| == |old(rpmLimiter.log)| + 1 && rpmLimiter.log[|rpmLimiter.log| - 1].amount == 1.0
      ensures SecondGrants() == old(SecondGrants()) + if passed && Limited() then 1 else 0
    {
      passed, at := true, now;
      var sleeps;
      if llmLimiter != null {
        passed, sleeps, at := llmLimiter.AcquireAlone(now, R.TokenCharge(estimate), [overshoot]);
        assert passed ==> llmLimiter.kinds[..|old(llmLimiter.kinds)|] == old(llmLimiter.kinds);
      } else if rpmLimiter != null {
        passed, sleeps, at := rpmLimiter.AcquireAlone(now, 1.0, [overshoot]);
      }
    }

    /** One adaptive grant, then one grant of the second limiter; returns when both have passed. */
    method AcquireLimits(now: real, estimate: Option<int>, overshoot: real) returns (passed: bool, at: real)
      requires Valid() && UpTo(now) && overshoot >= 0.0
      modifies rateLimiter`tokens, rateLimiter`lastRefill, rateLimiter`clock, rateLimiter`log, Seconds()
      ensures Valid() && UpTo(at) && now <= at
      ensures |rateLimiter.log| > 0 && rateLimiter.log[|rateLimiter.log| - 1].at <= at
      ensures passed <==> Fits(estimate)
      ensures Books() == Granted(old(Books()), Limited(), passed)
    {
      var grantedAt := rateLimiter.Acquire(now);
      passed, at := PassSecond(grantedAt + overshoot, estimate, overshoot);
    }

    method ReconcileTokenUsage(now: real, expected: int, actual: int)
      requires Valid() && UpTo(now)
      modifies Seconds()
      ensures Valid() && UpTo(now)
      ensures llmLimiter != null ==>
                llmLimiter.State() == L.Step(old(llmLimiter.State()), L.Correct(now, expected, actual))
      ensures llmLimiter != null && expected == actual ==> llmLimiter.tokTokens == old(llmLimiter.tokTokens)
      ensures llmLimiter != null && expected != actual ==>
                llmLimiter.tokTokens ==
                  Min(llmLimiter.tpm as real,
                      L.LevelAt(old(llmLimiter.State()), now) + expected as real - actual as real)
      ensures rpmLimiter != null ==> rpmLimiter.State() == old(rpmLimiter.State())
    {
      if llmLimiter != null {
        L.StepKeepsInv(llmLimiter.State(), L.Correct(now, expected, actual));
        llmLimiter.UpdateActualTokens(now, expected, actual);
      }
    }

    /** The request has not come to the gate. */
    ghost predicate Outside(task: nat)
      reads gate
    {
      task < |gate.phases| && gate.phases[task] == G.Away
    }

    /** Everything is in order at an instant, and the request stands where its progress says. */
    ghost predicate Stands(now: real, task: nat, progress: Progress)
      reads Repr(), rateLimiter.store
    {
      && Valid() && UpTo(now)
      && if progress.Sleeping? then AsleepAt(task) && NoRoom() else Outside(task)
    }

    /** The gate has as many holders as its limit of this instant allows, or more. */
    ghost predicate NoRoom()
      reads gate, gate.rateLimiter
    {
      gate.activeTasks >= gate.GetDynamicLimit()
    }

    /** The request sleeps at the gate. */
    ghost predicate AsleepAt(task: nat)
      reads gate
    {
      task < |gate.phases| && gate.phases[task] == G.Asleep
    }

    /** With room at the gate the slot is taken at once; without, the request goes to sleep. */
    method TakeSlot(ghost task: nat) returns (admitted: bool)
      requires Valid() && Outside(task)
      modifies gate
      ensures Valid()
      ensures admitted <==> old(gate.activeTasks) < gate.GetDynamicLimit()
      ensures gate.activeTasks == old(gate.activeTasks) + if admitted then 1 else 0
      ensures gate.phases == old(gate.phases)[task := if admitted then G.Holding else G.Asleep]
    {
      gate.Enter(task);
      admitted := gate.Poll(task);
    }

    method ReportResponse(response: R.Response)
      requires Valid()
      modifies rateLimiter`rate, rateLimiter`consecutiveSuccesses, rateLimiter.store
      ensures Valid()
      ensures rateLimiter.State().controller == R.Report(old(rateLimiter.State().controller), response)
      ensures response.TooMany? ==>
                && rateLimiter.rate == Max(Min(0.1, rateLimiter.hardCap), 0.75 * old(rateLimiter.rate))
                && rateLimiter.consecutiveSuccesses == 0
      ensures response.Ok? ==>
                && old(rateLimiter.rate) <= rateLimiter.rate <= old(rateLimiter.rate) + 0.5
                && rateLimiter.State().controller == Aimd.OnSuccess(old(rateLimiter.State().controller))
      ensures response.BadStatus? || response.NetworkError? || response.OtherError? ==>
                rateLimiter.State().controller == old(rateLimiter.State().controller)
    {
      match response {
        case TooMany => rateLimiter.RecordTooMany();
        case Ok => rateLimiter.RecordSuccess();
        case _ =>
      }
    }

    /** The call inside the slot: the response is reported while it is held, and it is freed on every exit. */
    method CallInSlot(ghost task: nat, response: R.Response) returns (admitted: bool)
      requires Valid() && Outside(task)
      modifies rateLimiter`rate, rateLimiter`consecutiveSuccesses, rateLimiter.store, gate
      ensures Valid() && gate.activeTasks == old(gate.activeTasks)
      ensures admitted <==> !old(NoRoom())
      ensures gate.phases == if admitted then G.NotifyAll(old(gate.phases)) else old(gate.phases)[task := G.Asleep]
      ensures if admitted then Outside(task) else AsleepAt(task) && NoRoom()
      ensures OthersStand(old(gate.phases), gate.phases, task)
      ensures Books() == if admitted then Told(old(Books()), response) else old(Books())
    {
      admitted := TakeSlot(task);
      if admitted {
        ReportResponse(response);
        assert gate.phases[task := G.Away] == old(gate.phases);
        gate.Release(task);
      }
    }

    /** One attempt that the breaker lets through. */
    method MakeRequest(now: real, estimate: Option<int>, attempt: Attempt, ghost task: nat)
      returns (progress: Progress, end: real)
      requires Stands(now, task, Done) && Plausible(attempt)
      modifies Repr(), rateLimiter.store
      ensures Stands(end, task, progress) && now <= end && gate.activeTasks == old(gate.activeTasks)
      ensures progress.Polling? <==> !Fits(estimate)
      ensures progress.Sleeping? <==> Fits(estimate) && old(NoRoom())
      ensures OthersStand(old(gate.phases), gate.phases, task)
      ensures Books() == Charged(old(Books()), Limited(), progress, attempt.response)
    {
      var passed;
      progress := Polling;
      passed, end := AcquireLimits(now, estimate, attempt.overshoot);
      if passed {
        var admitted := CallInSlot(task, attempt.response);
        progress := Sleeping;
        if admitted {
          progress, end := Done, end + attempt.duration;
        }
      }
    }

    /** Where the request is before attempt number `last`, given its account at the start. */
    ghost predicate Underway(now: real, estimate: Option<int>, script: seq<Attempt>, last: nat, task: nat, start: Start)
      requires last <= |script|
      reads Repr(), rateLimiter.store
    {
      && Stands(now, task, Done)
      && Retried(script, last)
      && (last > 0 ==> Fits(estimate) && !script[0].refused)
      && Books() == ChargedFor(start.books, Limited(), script, last)
      && gate.activeTasks == start.holders && OthersStand(start.phases, gate.phases, task)
    }

    /** Where the request is once it stopped at attempt number `last`. */
    ghost predicate Stopped(now: real, estimate: Option<int>, script: seq<Attempt>, last: nat, task: nat, start: Start,
                            progress: Progress, outcome: R.Outcome, calls: nat)
      requires last < |script|
      reads Repr(), rateLimiter.store
    {
      && Stands(now, task, progress)
      && Over(estimate, script, last, progress, outcome, calls)
      && calls <= |script| && Books() == Spent(start.books, Limited(), script, last, progress, calls)
      && gate.activeTasks == start.holders && OthersStand(start.phases, gate.phases, task)
    }

    /** What attempt number `last` led to: the end, a stop on the way, or (`again`) one more attempt. */
    method TryOnce(now: real, estimate: Option<int>, script: seq<Attempt>, last: nat, ghost task: nat,
                   ghost start: Start)
      returns (again: bool, progress: Progress, outcome: R.Outcome, calls: nat, end: real)
      requires last < |script| && last < R.MaxAttempts(maxRetries) && Plausible(script[last])
      requires Underway(now, estimate, script, last, task, start)
      modifies Repr(), rateLimiter.store
      ensures now <= end
      ensures again ==> Underway(end, estimate, script, last + 1, task, start) && last + 1 < R.MaxAttempts(maxRetries)
      ensures !again ==> Stopped(end, estimate, script, last, task, start, progress, outcome, calls)
    {
      progress, outcome, calls, end := Done, R.ProviderDown, last, now;
      var attempt := script[last];
      if attempt.refused {
        return false, progress, outcome, calls, end;
      }
      progress, end := MakeRequest(now, estimate, attempt, task);
      OthersStandOn(start.phases, old(gate.phases), gate.phases, task);
      if !progress.Done? {
        return false, progress, outcome, calls, end;
      }
      calls := last + 1;
      if !R.Retryable(attempt.response) || last + 1 >= maxRetries {
        return false, progress, R.Conclude(attempt.response), calls, end;
      }
      RetriedOnce(script, last);
      return true, progress, outcome, calls, end + attempt.backoff;
    }

    /** The configured number of attempts, and at least one. */
    function AttemptsAllowed(): int {
      if maxRetries > 1 then maxRetries else 1
    }

    /** How a request whose last attempt is number `last` came out. */
    ghost predicate Over(estimate: Option<int>, script: seq<Attempt>, last: nat, progress: Progress, outcome: R.Outcome,
                         calls: nat)
      requires last < |script|
    {
      && Retried(script, last)
      && (script[last].refused ==> progress.Done? && outcome == R.ProviderDown && calls == last)
      && (progress.Done? && !script[last].refused ==>
            && calls == last + 1
            && match script[last].response
               case Ok => outcome == R.Delivered
               case OtherError => outcome == R.Propagated
               case TooMany => outcome == R.RateLimitExceeded && calls == AttemptsAllowed()
               case BadStatus => outcome == R.ProviderDown && calls == AttemptsAllowed()
               case NetworkError => outcome == R.ProviderDown && calls == AttemptsAllowed())
      && (!progress.Done? ==> !script[last].refused && calls == last)
      && (progress.Polling? <==> !Fits(estimate) && !script[0].refused)
    }

    /**
     One request, with whatever other requests hold slots or sleep at the gate. It ends at the
     first attempt that the breaker refuses, that is not worth retrying, or that is the last one
     allowed; every call it made had its own adaptive grant and its own grant of the second
     limiter, and its slot is free again. It gets stuck at the second limiter exactly when it does
     not fit that bucket, and at the gate only behind as many holders as the limit then allows.
     */
    method Request(now: real, estimate: Option<int>, script: seq<Attempt>, ghost task: nat)
      returns (progress: Progress, outcome: R.Outcome, calls: nat, last: nat, end: real)
      requires Stands(now, task, Done)
      requires |script| >= R.MaxAttempts(maxRetries) && AllPlausible(script)
      modifies Repr(), rateLimiter.store
      ensures now <= end && last < R.MaxAttempts(maxRetries)
      ensures Stopped(end, estimate, script, last, task, old(Snapshot()), progress, outcome, calls)
    {
      progress, outcome, calls, last, end := Done, R.ProviderDown, 0, 0, now;
      var again := true;
      ghost var start := Snapshot();
      while again
        invariant last < R.MaxAttempts(maxRetries) && now <= end
        invariant again ==> Underway(end, estimate, script, last, task, start)
        invariant !again ==> Stopped(end, estimate, script, last, task, start, progress, outcome, calls)
        decreases if again then 1 else 0, R.MaxAttempts(maxRetries) - last
      {
        again, progress, outcome, calls, end := TryOnce(end, estimate, script, last, task, start);
        if again {
          last := last + 1;
        }
      }
    }
  }
}
