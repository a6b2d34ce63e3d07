/**
 What the responses of the transport and the usage estimates lead to in ResilientHttpClient
 (src/network/resilience.py): for the rate, for the request, and for the second limiter.
 */
module ClientResponses {
  import opened RealMath
  import opened Options
  import opened Counting
  import opened ClientRuns
  import Aimd
  import L = LlmLimiter

  /** What the responses of a run tell the rate controller: 429s, successes, and of the others nothing. */
  function Heard(steps: seq<Step>): seq<Aimd.Signal> {
    if steps == [] then []
    else (match steps[0].action
          case Respond(Ok) => [Aimd.Success]
          case Respond(TooMany) => [Aimd.TooMany]
          case _ => [])
         + Heard(steps[1..])
  }

  /** Through every interleaving the rate controller hears exactly the responses, in the order they came. */
  lemma {:induction false} RateHearsResponses(c: Config, s: Client, steps: seq<Step>)
    requires Runs(c, s, steps)
    ensures After(c, s, steps).limiter.controller == Aimd.Replay(s.limiter.controller, Heard(steps))
    decreases |steps|
  {
    if steps != [] {
      var next := Apply(c, s, steps[0]);
      RateHearsResponses(c, next, steps[1..]);
      HeardOne(c, s, steps[0], Heard(steps[1..]));
    }
  }

  lemma HeardOne(c: Config, s: Client, e: Step, rest: seq<Aimd.Signal>)
    requires WellFormed(c, s) && Enabled(c, s, e)
    ensures Aimd.Replay(s.limiter.controller, Heard([e]) + rest)
         == Aimd.Replay(Apply(c, s, e).limiter.controller, rest)
    ensures Heard([e]) == match e.action
                          case Respond(Ok) => [Aimd.Success]
                          case Respond(TooMany) => [Aimd.TooMany]
                          case _ => []
  {
    assert [e][1..] == [];
    match e.action
    case Respond(Ok) => assert ([Aimd.Success] + rest)[1..] == rest;
    case Respond(TooMany) => assert ([Aimd.TooMany] + rest)[1..] == rest;
    case _ => assert [] + rest == rest;
  }

  function TooManyIn(steps: seq<Step>): nat {
    if steps == [] then 0
    else (if steps[0].action == Respond(TooMany) then 1 else 0) + TooManyIn(steps[1..])
  }

  lemma {:induction false} HeardOfOneKind(steps: seq<Step>)
    ensures (forall e <- steps :: e.action != Respond(Ok)) ==>
              |Heard(steps)| == TooManyIn(steps) && forall h <- Heard(steps) :: h == Aimd.TooMany
    ensures (forall e <- steps :: e.action != Respond(TooMany)) ==> forall h <- Heard(steps) :: h == Aimd.Success
    decreases |steps|
  {
    if steps != [] {
      HeardOfOneKind(steps[1..]);
      assert steps[0] in steps;
      assert forall e <- steps[1..] :: e in steps;
    }
  }

  /** A run whose answers are k 429s and no success ends at exactly three quarters to the k, not below the floor. */
  lemma TooManyOnlyRun(c: Config, s: Client, steps: seq<Step>)
    requires Inv(c, s) && Runs(c, s, steps) && forall e <- steps :: e.action != Respond(Ok)
    ensures After(c, s, steps).limiter.controller.rate
         == Aimd.Decayed(Min(0.1, c.gate.hardCap), s.limiter.controller.rate, TooManyIn(steps))
  {
    RateHearsResponses(c, s, steps);
    HeardOfOneKind(steps);
    Aimd.ReplayOfBackoffs(s.limiter.controller, Heard(steps));
    Aimd.BackoffsExact(s.limiter.controller, TooManyIn(steps));
  }

  /** A run without a 429 never lowers the rate, whatever else fails in it. */
  lemma NoTooManyRun(c: Config, s: Client, steps: seq<Step>)
    requires Inv(c, s) && Runs(c, s, steps) && forall e <- steps :: e.action != Respond(TooMany)
    ensures After(c, s, steps).limiter.controller.rate >= s.limiter.controller.rate
  {
    RateHearsResponses(c, s, steps);
    HeardOfOneKind(steps);
    Aimd.ReplayWithoutBackoff(s.limiter.controller, Heard(steps));
  }

  /**
   What becomes of a request when its slot is freed: 429s, other error statuses and network errors
   are tried again while attempts are left; a success, any other exception, and the last attempt end it.
   */
  lemma ReleaseDecides(c: Config, s: Client, e: Step)
    requires WellFormed(c, s) && Inv(c, s) && Enabled(c, s, e) && e.action.Release?
    ensures var p, q := s.phases[e.task], Apply(c, s, e).phases[e.task];
            match p.response
            case Ok => q == Finished(Delivered)
            case OtherError => q == Finished(Propagated)
            case TooMany =>
              q == if p.attempt < c.maxRetries then Deciding(p.attempt + 1) else Finished(RateLimitExceeded)
            case BadStatus => q == if p.attempt < c.maxRetries then Deciding(p.attempt + 1) else Finished(ProviderDown)
            case NetworkError =>
              q == if p.attempt < c.maxRetries then Deciding(p.attempt + 1) else Finished(ProviderDown)
  {
    assert RequestInv(c, s, e.task);
  }

  /** How a finished request ended tells how often it called. */
  lemma OutcomeTellsCalls(c: Config, s: Client, steps: seq<Step>, t: nat)
    requires Fresh(c, s) && Runs(c, s, steps) && t < |s.phases|
    ensures t < |After(c, s, steps).phases|
    ensures var r := After(c, s, steps);
            var calls := Count(r.uses, CalledBy(t));
            && (r.phases[t] == Finished(RateLimitExceeded) ==> calls == if c.maxRetries > 1 then c.maxRetries else 1)
            && (r.phases[t] == Finished(Delivered) || r.phases[t] == Finished(Propagated) ==> calls >= 1)
  {
    FreshHasInv(c, s);
    RunsKeepInv(c, s, steps);
    assert RequestInv(c, After(c, s, steps), t);
  }

  /** A granted poll charges the estimate, at least 1, to a token limit, and one request to a request limit. */
  lemma ClearCharges(c: Config, s: Client, e: Step)
    requires WellFormed(c, s) && Inv(c, s) && Enabled(c, s, e) && e.action.Clear?
    ensures var estimate, after := c.estimates[e.task], Apply(c, s, e);
            after.cleared > s.cleared ==>
              match after.second
              case Unlimited => true
              case Rpm(r) => r.log[|r.log| - 1].amount == 1.0 && |r.log| == |s.second.rpmRun.log| + 1
              case Llm(r) =>
                && |r.log| == |s.second.llmRun.log| + 1
                && r.log[|r.log| - 1].amount ==
                     if estimate.Some? && estimate.value > 1 then estimate.value as real else 1.0
  {}

  /** A correction gives back what was expected and takes what was used. */
  lemma ReconcileMovesLevel(c: Config, s: Client, e: Step)
    requires WellFormed(c, s) && Inv(c, s) && Enabled(c, s, e) && e.action.Reconcile?
    requires e.action.expected != e.action.actual
    ensures var r := s.second.llmRun;
            && Apply(c, s, e).second.Llm?
            && Apply(c, s, e).second.llmRun.buckets.tok
               == Min(r.limits.tpm as real, L.LevelAt(r, e.now) + e.action.expected as real - e.action.actual as real)
  {
    L.CorrectionMovesLevel(s.second.llmRun, e.now, e.action.expected, e.action.actual);
  }
}
