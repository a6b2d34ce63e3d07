/**
 What RpmTpmRateLimiter (src/network/limiter.py) does not promise: that a request which waits as told
 is ever let through while others poll.
 */
module LlmFairness {
  import opened RealMath
  import opened Options
  import opened Ledger
  import opened LlmLimiter

  /** The instant at which the wait computed for a request is over. */
  function WaitOver(r: Run, tokens: int): real
    requires Configured(r.limits) && r.buckets.req.Some? == r.limits.rpm.Some?
  {
    r.buckets.at + WaitTime(r.limits, r.buckets, Charge(tokens))
  }

  /** At the instant a request's wait is over a rival polls first, and then the request itself. */
  function Turn(r: Run, tokens: int, rival: int): Run
    requires Inv(r)
  {
    Step(RivalFirst(r, tokens, rival), Attempt(WaitOver(r, tokens), tokens))
  }

  function RivalFirst(r: Run, tokens: int, rival: int): (first: Run)
    requires Inv(r)
    ensures first.buckets.req.Some? == first.limits.rpm.Some?
  {
    Step(r, Attempt(WaitOver(r, tokens), rival))
  }

  lemma WaitOverIsLater(r: Run, tokens: int)
    requires Inv(r)
    ensures r.buckets.at <= WaitOver(r, tokens)
  {}

  /** The request would pass if nobody came first. */
  lemma PassesAlone(r: Run, tokens: int)
    requires Inv(r)
    ensures Passes(r, WaitOver(r, tokens), tokens) <==> Charge(tokens) <= r.limits.tpm
  {
    WaitOverIsLater(r, tokens);
    PauseSuffices(r, tokens, WaitTime(r.limits, r.buckets, Charge(tokens)));
    assert WaitOver(r, tokens) == r.buckets.at + WaitTime(r.limits, r.buckets, Charge(tokens));
  }

  /**
   When a fitting request that waited as told passes behind a rival: exactly when the rival was
   itself refused, or left the request's tokens and a request token behind.
   */
  lemma PassesBehindRivalIff(r: Run, tokens: int, rival: int)
    requires Inv(r) && Charge(tokens) <= r.limits.tpm
    ensures var now, b := WaitOver(r, tokens), Refresh(r, WaitOver(r, tokens)).buckets;
            Passes(RivalFirst(r, tokens, rival), now, tokens)
            <==> || Charge(rival) as real > b.tok
                 || (Charge(rival) as real <= b.tok - Charge(tokens) as real
                     && (b.req.Some? ==> b.req.value >= 2.0))
  {
    var now := WaitOver(r, tokens);
    WaitOverIsLater(r, tokens);
    PassesAlone(r, tokens);
    StepKeepsInv(r, Attempt(now, rival));
    RefreshTwice(RivalFirst(r, tokens, rival), now);
  }

  /** The least rival that overtakes, whatever the limits. */
  function Overtaker(r: Run, tokens: int): int
    requires Inv(r)
  {
    (Refresh(r, WaitOver(r, tokens)).buckets.tok - Charge(tokens) as real).Floor + 1
  }

  lemma OvertakerOvertakes(r: Run, tokens: int)
    requires Inv(r) && Charge(tokens) <= r.limits.tpm
    ensures var rival, now := Overtaker(r, tokens), WaitOver(r, tokens);
            && 1 <= rival <= r.limits.tpm && Passes(r, now, rival)
            && !Passes(RivalFirst(r, tokens, rival), now, tokens)
  {
    WaitOverIsLater(r, tokens);
    PassesAlone(r, tokens);
    PassesBehindRivalIff(r, tokens, Overtaker(r, tokens));
  }

  lemma TurnKeepsInv(r: Run, tokens: int, rival: int)
    requires Inv(r)
    ensures Inv(Turn(r, tokens, rival)) && Turn(r, tokens, rival).limits == r.limits
  {
    var now := WaitOver(r, tokens);
    WaitOverIsLater(r, tokens);
    StepKeepsInv(r, Attempt(now, rival));
    StepKeepsInv(RivalFirst(r, tokens, rival), Attempt(now, tokens));
  }

  /** The request polls each time exactly when its wait is over, and each time a rival's grant leaves it refused. */
  ghost predicate Overtaken(r: Run, tokens: int, rivals: seq<int>)
    requires Inv(r)
    decreases |rivals|
  {
    rivals != [] ==>
      && Passes(r, WaitOver(r, tokens), rivals[0])
      && !Passes(RivalFirst(r, tokens, rivals[0]), WaitOver(r, tokens), tokens)
      && Inv(Turn(r, tokens, rivals[0]))
      && Overtaken(Turn(r, tokens, rivals[0]), tokens, rivals[1..])
  }

  /**
   In every state, whatever the limits, a request that would pass if it were alone, and that waits
   exactly as told each time, can be overtaken in any number of rounds by rivals that fit the
   bucket themselves.
   */
  lemma {:induction false} AnyRequestStarves(r: Run, tokens: int, rounds: nat) returns (rivals: seq<int>)
    requires Inv(r) && Charge(tokens) <= r.limits.tpm
    ensures Passes(r, WaitOver(r, tokens), tokens)
    ensures |rivals| == rounds && (forall rival <- rivals :: 1 <= rival <= r.limits.tpm)
    ensures Overtaken(r, tokens, rivals)
    decreases rounds
  {
    PassesAlone(r, tokens);
    if rounds == 0 {
      rivals := [];
    } else {
      var rival := Overtaker(r, tokens);
      OvertakerOvertakes(r, tokens);
      TurnKeepsInv(r, tokens, rival);
      var rest := AnyRequestStarves(Turn(r, tokens, rival), tokens, rounds - 1);
      rivals := [rival] + rest;
      assert rivals[1..] == rest;
    }
  }

  /** There is a number of rounds in which the request is let through, whoever else polls. */
  ghost predicate Fair(l: Limits, tokens: int)
    requires Configured(l)
  {
    exists rounds: nat :: LetThroughWithin(l, tokens, rounds)
  }

  ghost predicate LetThroughWithin(l: Limits, tokens: int, rounds: nat)
    requires Configured(l)
  {
    forall now: real, rivals: seq<int> | |rivals| == rounds :: !Overtaken(Open(l, now), tokens, rivals)
  }

  /** So no configuration is fair to any request, however small; alone, each that fits passes after its first wait. */
  lemma NoConfigurationIsFair(l: Limits, tokens: int)
    requires Configured(l) && Charge(tokens) <= l.tpm
    ensures !Fair(l, tokens)
  {
    forall rounds: nat
      ensures !LetThroughWithin(l, tokens, rounds)
    {
      OpenHasInv(l, 0.0);
      var rivals := AnyRequestStarves(Open(l, 0.0), tokens, rounds);
    }
  }
}
