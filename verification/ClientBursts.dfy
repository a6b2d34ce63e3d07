/**
 What the hard cap does not promise for the calls of ResilientHttpClient
 (src/network/resilience.py): grants can be carried and used together later.
 */
module ClientBursts {
  import opened Options
  import opened RealMath
  import opened Counting
  import opened ClientRuns
  import A = AdaptiveLimiter
  import Aimd
  import G = ConcurrencyGate

  lemma {:induction false} Extend(c: Config, s: Client, steps: seq<Step>, e: Step)
    requires Runs(c, s, steps) && WellFormed(c, After(c, s, steps)) && Enabled(c, After(c, s, steps), e)
    ensures Runs(c, s, steps + [e]) && After(c, s, steps + [e]) == Apply(c, After(c, s, steps), e)
    decreases |steps|
  {
    if steps == [] {
      assert steps + [e] == [e];
    } else {
      assert (steps + [e])[1..] == steps[1..] + [e];
      Extend(c, Apply(c, s, steps[0]), steps[1..], e);
    }
  }

  ghost predicate Reached(c: Config, from: Client, s: Client) {
    exists steps :: Runs(c, from, steps) && After(c, from, steps) == s
  }

  lemma ReachedStep(c: Config, from: Client, s: Client, e: Step)
    requires Reached(c, from, s) && Inv(c, s) && WellFormed(c, s) && Enabled(c, s, e)
    ensures Reached(c, from, Apply(c, s, e)) && Inv(c, Apply(c, s, e)) && WellFormed(c, Apply(c, s, e))
  {
    var steps :| Runs(c, from, steps) && After(c, from, steps) == s;
    Extend(c, from, steps, e);
    StepKeepsInv(c, s, e);
    InvIsWellFormed(c, Apply(c, s, e));
  }

  const BURST := A.BURST_CAPACITY

  /** n requests and a burst more, and no second limiter. */
  function Crowd(cap: real, n: nat): Config {
    Config(G.Config(cap, 1.0), 1, seq(n + BURST, _ => None))
  }

  ghost function CrowdStart(cap: real, n: nat): Client {
    Client(A.Open(Aimd.Controller(cap, cap, cap, 0), 0.0), Unlimited, 0, seq(n + BURST, _ => Idle), [], 0, 0.0)
  }

  /** Of the requests, the first k made their call, failed and ended, the others with a grant still carry it. */
  ghost predicate CrowdStands(cap: real, s: Client, k: nat, now: real) {
    && s.limiter.controller.rate == cap && s.second == Unlimited && s.active == 0 && s.clock <= now
    && k <= |s.uses| <= |s.phases|
    && (forall t :: 0 <= t < k ==> s.phases[t] == Finished(Propagated) && s.uses[t] == Called(t, now))
    && (forall t :: k <= t < |s.uses| ==> s.phases[t] == Booked(1, t))
    && (forall t :: |s.uses| <= t < |s.phases| ==> s.phases[t] == Idle)
  }

  ghost predicate CrowdAt(cap: real, n: nat, s: Client, k: nat, m: nat, now: real) {
    && Reached(Crowd(cap, n), CrowdStart(cap, n), s) && Inv(Crowd(cap, n), s) && WellFormed(Crowd(cap, n), s)
    && |s.phases| == n + BURST && |s.uses| == m && CrowdStands(cap, s, k, now)
  }

  /** The next idle request begins and books. */
  lemma BookNext(c: Config, from: Client, s: Client, now: real) returns (r: Client)
    requires Reached(c, from, s) && Inv(c, s) && WellFormed(c, s) && s.clock <= now
    requires |s.uses| < |s.phases| && s.phases[|s.uses|] == Idle
    ensures Reached(c, from, r) && Inv(c, r) && WellFormed(c, r)
    ensures r == s.(clock := now, limiter := A.Step(s.limiter, A.Acquire(now)), uses := s.uses + [Pending(|s.uses|)],
                    phases := s.phases[|s.uses| := Booked(1, |s.uses|)])
  {
    var t := |s.uses|;
    var begin, book := Step(t, Begin, now), Step(t, Book, now);
    ReachedStep(c, from, s, begin);
    var begun := Apply(c, s, begin);
    ReachedStep(c, from, begun, book);
    r := Apply(c, begun, book);
    assert r.phases == s.phases[t := Booked(1, t)];
  }

  /** A booked request whose grant is due calls, fails for good and is done, all at one instant. */
  lemma CallAtOnce(c: Config, from: Client, s: Client, t: nat, now: real) returns (r: Client)
    requires Reached(c, from, s) && Inv(c, s) && WellFormed(c, s) && s.second == Unlimited && s.clock <= now
    requires t < |s.phases| && t < |s.uses| && s.phases[t] == Booked(1, t) && GrantAt(s, t) <= now
    requires s.active == 0 && forall u :: 0 <= u < |s.phases| ==> !s.phases[u].Asleep?
    ensures Reached(c, from, r) && Inv(c, r) && WellFormed(c, r)
    ensures r == s.(clock := now, cleared := s.cleared + 1, uses := s.uses[t := Called(t, now)],
                    phases := s.phases[t := Finished(Propagated)])
  {
    var called := CallNow(c, from, s, t, now);
    var respond, release := Step(t, Respond(OtherError), now), Step(t, Release, now);
    ReachedStep(c, from, called, respond);
    var answered := Apply(c, called, respond);
    assert answered.phases == s.phases[t := Settling(1, OtherError)];
    ReachedStep(c, from, answered, release);
    r := Apply(c, answered, release);
    assert r.phases == s.phases[t := Finished(Propagated)];
  }

  lemma CallNow(c: Config, from: Client, s: Client, t: nat, now: real) returns (r: Client)
    requires Reached(c, from, s) && Inv(c, s) && WellFormed(c, s) && s.second == Unlimited && s.clock <= now
    requires t < |s.phases| && t < |s.uses| && s.phases[t] == Booked(1, t) && GrantAt(s, t) <= now && s.active == 0
    ensures Reached(c, from, r) && Inv(c, r) && WellFormed(c, r)
    ensures r == s.(clock := now, cleared := s.cleared + 1, active := 1,
                    uses := s.uses[t := Called(t, now)], phases := s.phases[t := Calling(1)])
  {
    var clear, check := Step(t, Clear, now), Step(t, Check, now);
    ReachedStep(c, from, s, clear);
    var cleared := Apply(c, s, clear);
    assert cleared.phases == s.phases[t := Queued(1, t)];
    ReachedStep(c, from, cleared, check);
    r := Apply(c, cleared, check);
    assert r.phases == s.phases[t := Calling(1)];
  }

  lemma StartOfCrowd(cap: real, n: nat)
    requires cap > 0.0
    ensures Fresh(Crowd(cap, n), CrowdStart(cap, n)) && CrowdAt(cap, n, CrowdStart(cap, n), 0, 0, 0.0)
  {
    var c, s := Crowd(cap, n), CrowdStart(cap, n);
    assert Aimd.Valid(s.limiter.controller);
    FreshHasInv(c, s);
    InvIsWellFormed(c, s);
    assert Runs(c, s, []) && After(c, s, []) == s;
  }

  /** The first m requests book at the start. */
  lemma {:induction false} BookCrowd(cap: real, n: nat, m: nat) returns (s: Client)
    requires cap > 0.0 && m <= n
    ensures CrowdAt(cap, n, s, 0, m, 0.0)
    decreases m
  {
    if m == 0 {
      StartOfCrowd(cap, n);
      s := CrowdStart(cap, n);
    } else {
      var before := BookCrowd(cap, n, m - 1);
      s := BookNext(Crowd(cap, n), CrowdStart(cap, n), before, 0.0);
    }
  }

  /** Grant number m of a burst, from a bucket that is full again or just granted the one before. */
  lemma BurstGrant(cap: real, b: A.Bucket, now: real, m: nat)
    requires cap > 0.0 && 1 <= m <= BURST
    requires if m == 1 then b.at <= now && A.Level(b, cap, now) == A.CAPACITY
             else b == A.Bucket((BURST - m + 1) as real, now)
    ensures A.Grant(b, cap, now) == A.Bucket((BURST - m) as real, now)
  {
    if m > 1 {
      A.FullBucketGrants(b, cap, now);
    }
  }

  /** Once the bucket is full again, a burst of m more books and is granted at once. */
  lemma {:induction false} BookBurst(cap: real, n: nat, booked: Client, now: real, m: nat) returns (s: Client)
    requires cap > 0.0 && m <= BURST && CrowdAt(cap, n, booked, 0, n, 0.0) && 0.0 <= now
    requires booked.limiter.bucket.at <= now && A.Level(booked.limiter.bucket, cap, now) == A.CAPACITY
    ensures CrowdAt(cap, n, s, 0, n + m, now) && booked.limiter.log <= s.limiter.log
    ensures forall k :: n <= k < n + m ==> GrantAt(s, k) == now
    ensures if m == 0 then s == booked else s.limiter.bucket == A.Bucket((BURST - m) as real, now)
    decreases m
  {
    if m == 0 {
      s := booked;
    } else {
      var before := BookBurst(cap, n, booked, now, m - 1);
      BurstGrant(cap, before.limiter.bucket, now, m);
      s := BookNext(Crowd(cap, n), CrowdStart(cap, n), before, now);
      forall k | n <= k < n + m
        ensures GrantAt(s, k) == now
      {
        if k < n + m - 1 { assert GrantAt(s, k) == GrantAt(before, k); }
      }
    }
  }

  /** One after the other, k of the requests call, all at the same instant. */
  lemma {:induction false} CallCrowd(cap: real, n: nat, booked: Client, now: real, k: nat) returns (s: Client)
    requires k <= n + BURST && CrowdAt(cap, n, booked, 0, n + BURST, now)
    requires forall j :: 0 <= j < n + BURST ==> GrantAt(booked, j) <= now
    ensures CrowdAt(cap, n, s, k, n + BURST, now) && s.limiter == booked.limiter
    decreases k
  {
    if k == 0 {
      s := booked;
    } else {
      var before := CallCrowd(cap, n, booked, now, k - 1);
      assert GrantAt(before, k - 1) == GrantAt(booked, k - 1);
      s := CallAtOnce(Crowd(cap, n), CrowdStart(cap, n), before, k - 1, now);
    }
  }

  /** An instant later than every grant, at which the bucket is full. */
  lemma FullAgain(cap: real, s: Client) returns (now: real)
    requires cap > 0.0 && A.Inv(s.limiter) && |s.uses| + 1 == |s.limiter.log|
    ensures 0.0 <= now && s.limiter.bucket.at < now && A.Level(s.limiter.bucket, cap, now) == A.CAPACITY
    ensures forall k :: 0 <= k < |s.uses| ==> GrantAt(s, k) < now
  {
    var b := s.limiter.bucket;
    var span := Delay(A.CAPACITY, cap);
    DelaySign(A.CAPACITY, cap);
    DelayAccrues(A.CAPACITY, cap);
    now := Max(0.0, b.at + span);
    MetFromDelayOn(A.CAPACITY, now - b.at, cap);
    forall k | 0 <= k < |s.uses|
      ensures GrantAt(s, k) <= b.at
    {
      A.GrantsInWindow(s.limiter, k + 1, |s.uses|);
      assert A.WithinCap(s.limiter.log, s.limiter.controller.hardCap, k + 1, |s.uses|);
    }
  }

  lemma {:induction false} CarriedOfCrowd(s: Client, n: nat, m: nat, now: real)
    requires |s.uses| + 1 == |s.limiter.log| && n <= |s.uses| && m <= |s.uses|
    requires forall k :: 0 <= k < |s.uses| ==> s.uses[k] == Called(k, now)
    requires forall k :: 0 <= k < |s.uses| ==> (GrantAt(s, k) < now <==> k < n)
    ensures Carried(s, now, m) == if m <= n then m else n
    decreases m
  {
    if m > 0 { CarriedOfCrowd(s, n, m - 1, now); }
  }

  /** n grants long due and ten due now, all of them carried by their requests. */
  lemma CrowdReady(cap: real, n: nat) returns (s: Client, now: real)
    requires cap > 0.0
    ensures CrowdAt(cap, n, s, 0, n + BURST, now)
    ensures forall j :: 0 <= j < n + BURST ==> GrantAt(s, j) <= now && (GrantAt(s, j) < now <==> j < n)
  {
    var booked := BookCrowd(cap, n, n);
    now := FullAgain(cap, booked);
    s := BookBurst(cap, n, booked, now, BURST);
    forall j | 0 <= j < n + BURST
      ensures GrantAt(s, j) <= now && (GrantAt(s, j) < now <==> j < n)
    {
      if j < n { assert GrantAt(s, j) == GrantAt(booked, j); }
    }
  }

  /** n + 10 calls at one instant into which n grants were carried. */
  lemma CrowdCalled(cap: real, n: nat) returns (r: Client, now: real)
    requires cap > 0.0
    ensures CrowdAt(cap, n, r, n + BURST, n + BURST, now)
    ensures Carried(r, now, |r.uses|) == n
  {
    var ready;
    ready, now := CrowdReady(cap, n);
    r := CallCrowd(cap, n, ready, now, n + BURST);
    forall j | 0 <= j < |r.uses|
      ensures GrantAt(r, j) < now <==> j < n
    {
      assert GrantAt(r, j) == GrantAt(ready, j);
    }
    CarriedOfCrowd(r, n, |r.uses|, now);
  }

  /**
   The bound on the calls of a window is exact, and what is carried into it cannot be left out:
   under every cap and for every n, n + 10 calls can start at one instant into which n grants were
   carried, so without them no bound on windows holds.
   */
  lemma CallsCanBunch(cap: real, n: nat) returns (c: Config, s: Client, r: Client, now: real)
    requires cap > 0.0
    ensures c.gate.hardCap == cap && Fresh(c, s) && Reached(c, s, r) && Inv(c, r)
    ensures Carried(r, now, |r.uses|) == n
    ensures Count(r.uses, CalledIn(now, now)) == n + BURST
    ensures Count(r.uses, CalledIn(now, now)) as real
         == A.CAPACITY + Accrued(now - now, cap) + Carried(r, now, |r.uses|) as real
  {
    c, s := Crowd(cap, n), CrowdStart(cap, n);
    r, now := CrowdCalled(cap, n);
    StartOfCrowd(cap, n);
    CountAll(r.uses, CalledIn(now, now));
    AccruedNothing(cap);
  }
}
