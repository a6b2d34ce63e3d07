/**
 RpmTpmRateLimiter (src/network/limiter.py): one bucket of requests and one of
 usage tokens, taken from together, with the usage estimate corrected later.
 Corrections may push the token level below zero and refunds are clipped at
 capacity; the per-minute promises still hold over every window.
 */
module LlmLimiter {
  import opened RealMath
  import opened Options
  import opened Ledger

  datatype Limits = Limits(rpm: Option<int>, tpm: int)

  /** The validated configuration: rpm >= 1 when present, tpm >= 1. */
  predicate Configured(l: Limits) {
    l.tpm >= 1 && (l.rpm.Some? ==> l.rpm.value >= 1)
  }

  function TokTerms(l: Limits): Terms {
    Terms(l.tpm as real, l.tpm as real / 60.0)
  }

  function ReqTerms(l: Limits): Terms
    requires l.rpm.Some?
  {
    Terms(l.rpm.value as real, l.rpm.value as real / 60.0)
  }

  datatype Buckets = Buckets(req: Option<real>, tok: real, at: real)

  /** A bucket's level after time passes. */
  function Topped(t: Terms, level: real, elapsed: real): real {
    Min(t.capacity, level + Accrued(elapsed, t.cap))
  }

  function Refilled(l: Limits, b: Buckets, now: real): Buckets
    requires b.req.Some? == l.rpm.Some?
  {
    Buckets(if l.rpm.Some? then Some(Topped(ReqTerms(l), b.req.value, now - b.at)) else None,
            Topped(TokTerms(l), b.tok, now - b.at), now)
  }

  function Charge(tokens: int): int {
    if tokens >= 1 then tokens else 1
  }

  predicate Suffices(b: Buckets, amount: int) {
    (b.req.Some? ==> b.req.value >= 1.0) && b.tok >= amount as real
  }

  function Deficit(t: Terms, level: real, need: real): real
    requires t.cap > 0.0
  {
    if level < need then Max(0.0, Delay(need - level, t.cap)) else 0.0
  }

  function WaitTime(l: Limits, b: Buckets, amount: int): real
    requires Configured(l) && b.req.Some? == l.rpm.Some?
  {
    Max(if l.rpm.Some? then Deficit(ReqTerms(l), b.req.value, 1.0) else 0.0,
        Deficit(TokTerms(l), b.tok, amount as real))
  }

  // ---------- The computed wait is exact ----------

  lemma DeficitIsExact(t: Terms, level: real, need: real, d: real)
    requires t.cap > 0.0 && need <= t.capacity && 0.0 <= d
    ensures Topped(t, level, d) >= need <==> d >= Deficit(t, level, need)
  {
    MetFromDelayOn(need - level, d, t.cap);
    DelaySign(need - level, t.cap);
    AccruedSign(d, t.cap);
  }

  /** If nobody else takes, both buckets suffice after a delay d exactly when d is at least the computed wait. */
  lemma WaitIsExact(l: Limits, b: Buckets, amount: int, d: real)
    requires Configured(l) && b.req.Some? == l.rpm.Some? && amount <= l.tpm && 0.0 <= d
    ensures Suffices(Refilled(l, b, b.at + d), amount) <==> d >= WaitTime(l, b, amount)
  {
    DeficitIsExact(TokTerms(l), b.tok, amount as real, d);
    if l.rpm.Some? {
      DeficitIsExact(ReqTerms(l), b.req.value, 1.0, d);
    }
  }

  /** A request larger than the whole token bucket is never granted, at any time, in any state. */
  lemma OversizedNeverSuffices(l: Limits, b: Buckets, amount: int, now: real)
    requires b.req.Some? == l.rpm.Some? && amount > l.tpm
    ensures !Suffices(Refilled(l, b, now), amount)
  {}

  /** So a poll after a pause of at least the wait is granted exactly when the request fits the bucket at all. */
  lemma PauseSuffices(r: Run, tokens: int, pause: real)
    requires Inv(r) && pause >= WaitTime(r.limits, r.buckets, Charge(tokens)) && pause >= 0.0
    ensures Suffices(Refresh(r, r.buckets.at + pause).buckets, Charge(tokens)) <==> Charge(tokens) <= r.limits.tpm
  {
    if Charge(tokens) <= r.limits.tpm {
      WaitIsExact(r.limits, r.buckets, Charge(tokens), pause);
    }
  }

  // ---------- Runs ----------

  datatype Kind = Opening | Granted | Corrected

  /**
   `log` and `kinds` record every charge and correction on the token bucket; `requests`
   every charge on the request bucket.
   */
  datatype Run = Run(limits: Limits, buckets: Buckets, log: seq<Entry>, kinds: seq<Kind>, requests: seq<Entry>)

  datatype Event = Attempt(now: real, tokens: int) | Correct(now: real, expected: int, actual: int)

  function Open(l: Limits, now: real): Run
    requires Configured(l)
  {
    var req := if l.rpm.Some? then Some(l.rpm.value as real) else None;
    Run(l, Buckets(req, l.tpm as real, now), [Entry(now, 0.0, l.tpm as real)], [Opening],
        if l.rpm.Some? then [Entry(now, 0.0, l.rpm.value as real)] else [])
  }

  function Refresh(r: Run, now: real): Run
    requires r.buckets.req.Some? == r.limits.rpm.Some?
  {
    r.(buckets := Refilled(r.limits, r.buckets, now))
  }

  /** What a lock body does once the refill is done. */
  function Settle(r: Run, e: Event): Run {
    var b := r.buckets;
    match e
    case Attempt(now, tokens) =>
      var amount := Charge(tokens);
      if Suffices(b, amount) then
        var req := if b.req.Some? then Some(b.req.value - 1.0) else None;
        var tok := b.tok - amount as real;
        Run(r.limits, Buckets(req, tok, b.at),
            r.log + [Entry(b.at, amount as real, tok)], r.kinds + [Granted],
            if req.Some? then r.requests + [Entry(b.at, 1.0, req.value)] else r.requests)
      else r
    case Correct(now, expected, actual) =>
      var tok := Min(r.limits.tpm as real, b.tok + (expected - actual) as real);
      r.(buckets := b.(tok := tok), log := r.log + [Entry(b.at, (actual - expected) as real, tok)],
         kinds := r.kinds + [Corrected])
  }

  function Step(r: Run, e: Event): Run
    requires r.buckets.req.Some? == r.limits.rpm.Some?
  {
    if e.Correct? && e.expected == e.actual then r else Settle(Refresh(r, e.now), e)
  }

  function GrantCount(kinds: seq<Kind>): nat {
    if kinds == [] then 0
    else GrantCount(kinds[..|kinds| - 1]) + if kinds[|kinds| - 1].Granted? then 1 else 0
  }

  /** The token ledger covers its bucket, and no grant leaves a debt behind. */
  ghost predicate TokInv(l: Limits, tok: real, at: real, log: seq<Entry>, kinds: seq<Kind>) {
    && Covers(TokTerms(l), log, tok, at)
    && |kinds| == |log|
    && forall k :: 0 <= k < |log| && kinds[k].Granted? ==> log[k].level >= 0.0 && log[k].amount >= 1.0
  }

  /** The request bucket stays within 0..rpm, and exactly as many requests as token grants were charged. */
  ghost predicate ReqInv(l: Limits, req: Option<real>, at: real, requests: seq<Entry>, grants: nat) {
    && req.Some? == l.rpm.Some?
    && (req.Some? ==>
          && Covers(ReqTerms(l), requests, req.value, at)
          && UnitCharges(requests)
          && 0.0 <= req.value
          && |requests| == grants + 1)
  }

  ghost predicate Inv(r: Run) {
    && Configured(r.limits)
    && TokInv(r.limits, r.buckets.tok, r.buckets.at, r.log, r.kinds)
    && ReqInv(r.limits, r.buckets.req, r.buckets.at, r.requests, GrantCount(r.kinds))
  }

  lemma ToppedIsCovered(t: Terms, log: seq<Entry>, level: real, at: real, now: real)
    requires Covers(t, log, level, at) && at <= now
    ensures Covers(t, log, Topped(t, level, now - at), now)
    ensures Topped(t, level, now - at) <= t.capacity
    ensures 0.0 <= level <= t.capacity ==> 0.0 <= Topped(t, level, now - at)
  {
    AccruesWithin(t, t.cap, at, now);
    AccruedSign(now - at, t.cap);
    Idle(t, log, level, at, Topped(t, level, now - at), now);
  }

  /** Taking `amount` out of a covered bucket at the instant of its last refill. */
  lemma Take(t: Terms, log: seq<Entry>, level: real, now: real, amount: real, left: real)
    requires Covers(t, log, level, now)
    requires left <= t.capacity && left + amount <= level
    ensures Covers(t, log + [Entry(now, amount, left)], left, now)
  {
    Post(t, log, level, now, Entry(now, amount, left));
  }

  lemma RefreshKeepsInv(r: Run, now: real)
    requires Inv(r) && r.buckets.at <= now
    ensures Inv(Refresh(r, now))
  {
    var l, b := r.limits, r.buckets;
    ToppedIsCovered(TokTerms(l), r.log, b.tok, b.at, now);
    if l.rpm.Some? {
      ToppedIsCovered(ReqTerms(l), r.requests, b.req.value, b.at, now);
    }
  }

  lemma TokenEntry(l: Limits, tok: real, at: real, log: seq<Entry>, kinds: seq<Kind>, amount: real, left: real,
                   kind: Kind)
    requires TokInv(l, tok, at, log, kinds)
    requires left <= l.tpm as real && left + amount <= tok
    requires kind.Granted? ==> left >= 0.0 && amount >= 1.0
    ensures TokInv(l, left, at, log + [Entry(at, amount, left)], kinds + [kind])
    ensures GrantCount(kinds + [kind]) == GrantCount(kinds) + if kind.Granted? then 1 else 0
  {
    Take(TokTerms(l), log, tok, at, amount, left);
    assert (kinds + [kind])[..|kinds|] == kinds;
  }

  lemma RequestEntry(l: Limits, req: real, at: real, requests: seq<Entry>, grants: nat)
    requires ReqInv(l, Some(req), at, requests, grants) && req >= 1.0
    ensures ReqInv(l, Some(req - 1.0), at, requests + [Entry(at, 1.0, req - 1.0)], grants + 1)
  {
    Take(ReqTerms(l), requests, req, at, 1.0, req - 1.0);
  }

  lemma SettleKeepsInv(r: Run, e: Event)
    requires Inv(r)
    ensures Inv(Settle(r, e)) && Settle(r, e).limits == r.limits && Settle(r, e).buckets.at == r.buckets.at
  {
    var l, b, after := r.limits, r.buckets, Settle(r, e);
    match e
    case Attempt(_, tokens) =>
      if Suffices(b, Charge(tokens)) {
        TokenEntry(l, b.tok, b.at, r.log, r.kinds, Charge(tokens) as real, after.buckets.tok, Granted);
        if b.req.Some? {
          RequestEntry(l, b.req.value, b.at, r.requests, GrantCount(r.kinds));
        }
      }
    case Correct(_, expected, actual) =>
      TokenEntry(l, b.tok, b.at, r.log, r.kinds, (actual - expected) as real, after.buckets.tok, Corrected);
  }

  lemma StepKeepsInv(r: Run, e: Event)
    requires Inv(r) && r.buckets.at <= e.now
    ensures Inv(Step(r, e)) && Step(r, e).limits == r.limits
    ensures r.buckets.at <= Step(r, e).buckets.at <= e.now
  {
    RefreshKeepsInv(r, e.now);
    SettleKeepsInv(Refresh(r, e.now), e);
  }

  ghost predicate InOrder(clock: real, events: seq<Event>)
    decreases |events|
  {
    events != [] ==> clock <= events[0].now && InOrder(events[0].now, events[1..])
  }

  ghost function Execute(r: Run, events: seq<Event>): (s: Run)
    requires r.buckets.req.Some? == r.limits.rpm.Some?
    ensures s.buckets.req.Some? == s.limits.rpm.Some?
    decreases |events|
  {
    if events == [] then r else Execute(Step(r, events[0]), events[1..])
  }

  lemma OpenHasInv(l: Limits, now: real)
    requires Configured(l)
    ensures Inv(Open(l, now))
  {}

  lemma {:induction false} ExecuteKeepsInv(r: Run, clock: real, events: seq<Event>)
    requires Inv(r) && r.buckets.at <= clock && InOrder(clock, events)
    ensures Inv(Execute(r, events)) && Execute(r, events).limits == r.limits
    decreases |events|
  {
    if events != [] {
      StepKeepsInv(r, events[0]);
      ExecuteKeepsInv(Step(r, events[0]), events[0].now, events[1..]);
    }
  }

  // ---------- The per-minute promises ----------

  /** Usage tokens charged by the grants among entries lo..hi-1. */
  function Charged(r: Run, lo: nat, hi: nat): real
    requires lo <= hi <= |r.log| == |r.kinds|
    decreases hi - lo
  {
    if lo == hi then 0.0
    else Charged(r, lo, hi - 1) + if r.kinds[hi - 1].Corrected? then 0.0 else r.log[hi - 1].amount
  }

  /** Sum of (expected - actual) over the corrections among entries lo..hi-1. */
  function Returned(r: Run, lo: nat, hi: nat): real
    requires lo <= hi <= |r.log| == |r.kinds|
    decreases hi - lo
  {
    if lo == hi then 0.0
    else Returned(r, lo, hi - 1) + if r.kinds[hi - 1].Corrected? then -r.log[hi - 1].amount else 0.0
  }

  lemma {:induction false} TotalByKind(r: Run, lo: nat, hi: nat)
    requires lo <= hi <= |r.log| == |r.kinds|
    ensures Total(r.log, lo, hi) == Charged(r, lo, hi) - Returned(r, lo, hi)
    decreases hi - lo
  {
    if lo < hi { TotalByKind(r, lo, hi - 1); }
  }

  /**
   Entries i..j keep the tokens-per-minute promise: charges less what corrections gave back fit in
   tpm + tpm/60 per second.
   */
  ghost predicate TokensFit(r: Run, i: nat, j: nat)
    requires i <= j < |r.log| == |r.kinds|
  {
    Charged(r, i, j + 1) - Returned(r, i, j + 1)
    <= r.limits.tpm as real + Accrued(r.log[j].at - r.log[i].at, r.limits.tpm as real / 60.0)
  }

  /** Requests i..j keep the requests-per-minute promise: they number at most rpm + rpm/60 per second of the window. */
  ghost predicate RequestsFit(r: Run, i: nat, j: nat)
    requires r.limits.rpm.Some? && i <= j < |r.requests|
  {
    (j - i + 1) as real
    <= r.limits.rpm.value as real + Accrued(r.requests[j].at - r.requests[i].at, r.limits.rpm.value as real / 60.0)
  }

  /** From any entry to any later grant the estimates charged, once corrected, fit. */
  lemma TokensInWindow(r: Run, i: nat, j: nat)
    requires Inv(r) && i <= j < |r.log| && r.kinds[j].Granted?
    ensures r.log[i].at <= r.log[j].at && TokensFit(r, i, j)
  {
    WindowBound(TokTerms(r.limits), r.log, i, j);
    TotalByKind(r, i, j + 1);
    RefillIsProduct(TokTerms(r.limits), r.log[i].at, r.log[j].at);
  }

  lemma RequestsInWindow(r: Run, i: nat, j: nat)
    requires Inv(r) && r.limits.rpm.Some? && 0 < i <= j < |r.requests|
    ensures r.requests[i].at <= r.requests[j].at && RequestsFit(r, i, j)
  {
    UnitWindow(ReqTerms(r.limits), r.requests, i, j);
  }

  /** Both promises for every run of a fresh limiter: grants, refusals and corrections in any order. */
  lemma LimitsHoldInEveryRun(l: Limits, now: real, events: seq<Event>)
    requires Configured(l) && InOrder(now, events)
    ensures var r := Execute(Open(l, now), events);
            && r.limits == l && |r.log| == |r.kinds|
            && (forall i, j :: 0 <= i <= j < |r.log| && r.kinds[j].Granted? ==> TokensFit(r, i, j))
            && (l.rpm.Some? ==>
                  && |r.requests| == GrantCount(r.kinds) + 1
                  && forall i, j :: 0 < i <= j < |r.requests| ==> RequestsFit(r, i, j))
  {
    OpenHasInv(l, now);
    ExecuteKeepsInv(Open(l, now), now, events);
    var r := Execute(Open(l, now), events);
    forall i, j | 0 <= i <= j < |r.log| && r.kinds[j].Granted? ensures TokensFit(r, i, j) {
      TokensInWindow(r, i, j);
    }
    if l.rpm.Some? {
      forall i, j | 0 < i <= j < |r.requests| ensures RequestsFit(r, i, j) {
        RequestsInWindow(r, i, j);
      }
    }
  }

  // ---------- A poll, seen from outside ----------

  /** The tokens an acquire asks for, at least one. */
  function Asked(tokens: int): real {
    if tokens > 1 then tokens as real else 1.0
  }

  predicate Passes(r: Run, now: real, tokens: int)
    requires r.buckets.req.Some? == r.limits.rpm.Some?
  {
    Suffices(Refresh(r, now).buckets, Charge(tokens))
  }

  /** The request level a refill at the instant brings, if requests are limited. */
  function RequestsAt(r: Run, now: real): Option<real>
    requires r.buckets.req.Some? == r.limits.rpm.Some?
  {
    if r.limits.rpm.None? then None
    else Some(Min(r.limits.rpm.value as real,
                  r.buckets.req.value + Accrued(now - r.buckets.at, r.limits.rpm.value as real / 60.0)))
  }

  /** The token level a refill at the instant brings. */
  function LevelAt(r: Run, now: real): real {
    Min(r.limits.tpm as real, r.buckets.tok + Accrued(now - r.buckets.at, r.limits.tpm as real / 60.0))
  }

  /** A second refill at the same instant changes nothing. */
  lemma RefreshTwice(r: Run, now: real)
    requires Inv(r) && r.buckets.at == now
    ensures Refresh(r, now).buckets == r.buckets
  {
    AccruedNothing(TokTerms(r.limits).cap);
    if r.limits.rpm.Some? {
      AccruedNothing(ReqTerms(r.limits).cap);
    }
  }

  // ---------- What a grant and a correction leave behind ----------

  /** A granted acquire takes what it asked for and one request out of the refilled levels, a refused one nothing. */
  lemma GrantLeaves(r: Run, now: real, tokens: int)
    requires Inv(r)
    ensures Passes(r, now, tokens) ==>
              var s := Step(r, Attempt(now, tokens));
              && s.buckets.tok == LevelAt(r, now) - Asked(tokens)
              && (r.limits.rpm.Some? ==> s.buckets.req == Some(RequestsAt(r, now).value - 1.0))
              && s.log == r.log + [Entry(now, Asked(tokens), s.buckets.tok)]
    ensures !Passes(r, now, tokens) ==>
              Step(r, Attempt(now, tokens)) == r.(buckets := Buckets(RequestsAt(r, now), LevelAt(r, now), now))
  {}

  /** A correction adds what was expected and takes what was used, and the bucket does not overflow. */
  lemma CorrectionMovesLevel(r: Run, now: real, expected: int, actual: int)
    requires Inv(r) && expected != actual
    ensures Step(r, Correct(now, expected, actual)).buckets
         == Buckets(RequestsAt(r, now),
                    Min(r.limits.tpm as real, LevelAt(r, now) + expected as real - actual as real), now)
  {}

  /**
   A grant corrected at once leaves what a charge of the actual usage alone would have left, clipped
   at tpm: in every state, for an actual usage above or below the estimate.
   */
  lemma CorrectionChargesActual(r: Run, now: real, estimate: int, actual: int)
    requires Inv(r) && r.buckets.at <= now && Passes(r, now, estimate)
    ensures var s := Step(Step(r, Attempt(now, estimate)), Correct(now, estimate, actual));
            && s.buckets.tok == Min(r.limits.tpm as real,
                                    LevelAt(r, now) - actual as real - (Asked(estimate) - estimate as real))
            && (estimate >= 1 ==> s.buckets.tok == Min(r.limits.tpm as real, LevelAt(r, now) - actual as real))
  {
    var granted := Step(r, Attempt(now, estimate));
    StepKeepsInv(r, Attempt(now, estimate));
    RefreshTwice(granted, now);
    if estimate == actual {
      assert granted.buckets.tok <= r.limits.tpm as real;
    }
  }

  /** Behind a granted request a second one passes at the same instant exactly when both fit the level together. */
  lemma SecondPassesIff(r: Run, now: real, first: int, second: int)
    requires Inv(r) && r.buckets.at <= now && Passes(r, now, first)
    ensures Passes(Step(r, Attempt(now, first)), now, second) <==>
              && Asked(first) + Asked(second) <= LevelAt(r, now)
              && (r.limits.rpm.Some? ==> Refresh(r, now).buckets.req.value >= 2.0)
  {
    StepKeepsInv(r, Attempt(now, first));
    RefreshTwice(Step(r, Attempt(now, first)), now);
  }

  /** n polls for one token each, at one instant. */
  function Polls(r: Run, now: real, n: nat): (s: Run)
    requires r.buckets.req.Some? == r.limits.rpm.Some?
    ensures s.buckets.req.Some? == s.limits.rpm.Some?
  {
    if n == 0 then r else Step(Polls(r, now, n - 1), Attempt(now, 1))
  }

  ghost predicate AllPass(r: Run, now: real, n: nat)
    requires r.buckets.req.Some? == r.limits.rpm.Some?
  {
    forall k: nat | k < n :: Passes(Polls(r, now, k), now, 1)
  }

  /** What one granted poll for one token does to buckets just refilled. */
  lemma PollTakesOne(r: Run, now: real)
    requires Inv(r) && r.buckets.at == now
    ensures Passes(r, now, 1) <==> 1.0 <= r.buckets.tok && (r.limits.rpm.Some? ==> 1.0 <= r.buckets.req.value)
    ensures var s := Step(r, Attempt(now, 1));
            && Inv(s) && s.limits == r.limits && s.buckets.at == now
            && (Passes(r, now, 1) ==>
                  s.buckets.tok == r.buckets.tok - 1.0
                  && (r.limits.rpm.Some? ==> s.buckets.req.value == r.buckets.req.value - 1.0))
  {
    RefreshTwice(r, now);
    StepKeepsInv(r, Attempt(now, 1));
  }

  lemma {:induction false} PollsTakeOneEach(r: Run, now: real, n: nat)
    requires Inv(r) && r.buckets.at == now
    requires n as real <= r.buckets.tok && (r.limits.rpm.Some? ==> n as real <= r.buckets.req.value)
    ensures AllPass(r, now, n) && Inv(Polls(r, now, n)) && Polls(r, now, n).limits == r.limits
    ensures var b := Polls(r, now, n).buckets;
            && b.at == now && b.tok == r.buckets.tok - n as real
            && (r.limits.rpm.Some? ==> b.req.value == r.buckets.req.value - n as real)
    decreases n
  {
    if n > 0 {
      PollsTakeOneEach(r, now, n - 1);
      PollTakesOne(Polls(r, now, n - 1), now);
      forall k: nat | k < n
        ensures Passes(Polls(r, now, k), now, 1)
      {
        if k < n - 1 { assert AllPass(r, now, n - 1); }
      }
    }
  }

  /** The burst of a fresh limiter: n one-token requests pass at once exactly when n is within tpm and rpm. */
  lemma BurstPassesIff(l: Limits, now: real, n: nat)
    requires Configured(l)
    ensures AllPass(Open(l, now), now, n) <==> n <= l.tpm && (l.rpm.Some? ==> n <= l.rpm.value)
  {
    var open := Open(l, now);
    OpenHasInv(l, now);
    if n <= l.tpm && (l.rpm.Some? ==> n <= l.rpm.value) {
      PollsTakeOneEach(open, now, n);
    } else {
      var most: nat := if l.rpm.Some? && l.rpm.value < l.tpm then l.rpm.value else l.tpm;
      PollsTakeOneEach(open, now, most);
      PollTakesOne(Polls(open, now, most), now);
      assert !Passes(Polls(open, now, most), now, 1);
    }
  }

  /** A bucket fills at tpm per minute: the missing tokens take 60/tpm seconds each, the missing request 60/rpm. */
  lemma WaitInMinutes(l: Limits, b: Buckets, amount: int)
    requires Configured(l) && b.req.Some? == l.rpm.Some?
    requires b.tok < amount as real || (b.req.Some? && b.req.value < 1.0)
    ensures var tokens := Max(0.0, amount as real - b.tok) * 60.0 / l.tpm as real;
            var request := if b.req.Some? then Max(0.0, 1.0 - b.req.value) * 60.0 / l.rpm.value as real else 0.0;
            WaitTime(l, b, amount) == Max(request, tokens)
  {
    DelayPerMinute(Max(0.0, amount as real - b.tok), l.tpm);
    DelaySign(Max(0.0, amount as real - b.tok), l.tpm as real / 60.0);
    if b.req.Some? {
      DelayPerMinute(Max(0.0, 1.0 - b.req.value), l.rpm.value);
      DelaySign(Max(0.0, 1.0 - b.req.value), l.rpm.value as real / 60.0);
    }
  }

  lemma DelayPerMinute(need: real, perMinute: int)
    requires perMinute >= 1
    ensures Delay(need, perMinute as real / 60.0) == need * 60.0 / perMinute as real
  {}

  // ---------- The limiter object ----------

  /** The completion limit, at least 1, plus one token per whole four characters of the prompt, at least 1. */
  function EstimateLlmTokenUsage(promptLength: nat, maxCompletionTokens: int): (estimate: int)
    ensures var prompt := estimate - Charge(maxCompletionTokens);
            && 1 <= prompt && promptLength < 4 * (prompt + 1) && (prompt > 1 ==> 4 * prompt <= promptLength)
    ensures estimate > maxCompletionTokens
  {
    Charge(promptLength / 4) + Charge(maxCompletionTokens)
  }

  class RpmTpmRateLimiter {
    const rpm: Option<int>
    const tpm: int
    const tokCapacity: real
    const tokRate: real
    const reqCapacity: real
    const reqRate: real
    var reqTokens: Option<real>
    var tokTokens: real
    var lastRefill: real
    ghost var log: seq<Entry>
    ghost var kinds: seq<Kind>
    ghost var requests: seq<Entry>

    ghost function State(): Run
      reads this
    {
      Run(Limits(rpm, tpm), Buckets(reqTokens, tokTokens, lastRefill), log, kinds, requests)
    }

    ghost predicate Valid()
      reads this
    {
      && Inv(State())
      && tokCapacity == tpm as real && tokRate == tpm as real / 60.0
      && (rpm.Some? ==> reqCapacity == rpm.value as real && reqRate == rpm.value as real / 60.0)
    }

    constructor (rpm: Option<int>, tpm: int, now: real)
      requires Configured(Limits(rpm, tpm))
      ensures Valid() && State() == Open(Limits(rpm, tpm), now)
    {
      this.rpm, this.tpm := rpm, tpm;
      tokCapacity, tokRate := tpm as real, tpm as real / 60.0;
      tokTokens := tpm as real;
      var requestCap := if rpm.Some? then rpm.value as real else 0.0;
      reqCapacity, reqRate := requestCap, requestCap / 60.0;
      reqTokens := if rpm.Some? then Some(requestCap) else None;
      lastRefill := now;
      log, kinds := [Entry(now, 0.0, tpm as real)], [Opening];
      requests := if rpm.Some? then [Entry(now, 0.0, rpm.value as real)] else [];
      new;
      OpenHasInv(Limits(rpm, tpm), now);
    }

    method Refill(now: real)
      requires Valid()
      modifies this`reqTokens, this`tokTokens, this`lastRefill
      ensures State() == Refresh(old(State()), now)
    {
      var elapsed := now - lastRefill;
      if reqTokens.Some? {
        reqTokens := Some(Min(reqCapacity, reqTokens.value + Accrued(elapsed, reqRate)));
      }
      tokTokens := Min(tokCapacity, tokTokens + Accrued(elapsed, tokRate));
      lastRefill := now;
    }

    /** The test under the lock once the refill is done: both buckets are charged, or neither. */
    method TakeBoth(amount: int) returns (granted: bool)
      requires Valid() && amount >= 1
      modifies this`reqTokens, this`tokTokens, this`log, this`kinds, this`requests
      ensures Valid()
      ensures State() == Settle(old(State()), Attempt(lastRefill, amount))
      ensures granted <==> Suffices(old(State().buckets), amount)
    {
      SettleKeepsInv(State(), Attempt(lastRefill, amount));
      var reqOk := reqTokens.None? || reqTokens.value >= 1.0;
      var tokOk := tokTokens >= amount as real;
      granted := reqOk && tokOk;
      if granted {
        if reqTokens.Some? {
          reqTokens := Some(reqTokens.value - 1.0);
          requests := requests + [Entry(lastRefill, 1.0, reqTokens.value)];
        }
        tokTokens := tokTokens - amount as real;
        log, kinds := log + [Entry(lastRefill, amount as real, tokTokens)], kinds + [Granted];
      }
    }

    /** One pass of the loop of `acquire`: granted at once, or a positive wait is returned. */
    method TryAcquire(now: real, tokens: int) returns (granted: bool, waitTime: real)
      requires Valid() && lastRefill <= now
      modifies this
      ensures Valid()
      ensures State() == Step(old(State()), Attempt(now, tokens))
      ensures granted <==> Suffices(Refresh(old(State()), now).buckets, Charge(tokens))
      ensures kinds == if granted then old(kinds) + [Granted] else old(kinds)
      ensures !granted ==> tokTokens == LevelAt(old(State()), now) && reqTokens == RequestsAt(old(State()), now)
      ensures granted ==>
                && tokTokens == LevelAt(old(State()), now) - Asked(tokens)
                && (rpm.Some? ==> reqTokens == Some(RequestsAt(old(State()), now).value - 1.0))
                && log == old(log) + [Entry(now, Asked(tokens), tokTokens)]
      ensures lastRefill == now && (!granted ==> log == old(log) && requests == old(requests))
      ensures !granted ==> waitTime == WaitTime(Limits(rpm, tpm), State().buckets, Charge(tokens)) && waitTime > 0.0
    {
      RefreshKeepsInv(State(), now);
      GrantLeaves(State(), now, tokens);
      Refill(now);
      granted := TakeBoth(Charge(tokens));
      waitTime := 0.0;
      if !granted {
        waitTime := WaitFor(Charge(tokens));
      }
    }

    /** The tail of the loop body: how long until both buckets could suffice. */
    method WaitFor(amount: int) returns (waitTime: real)
      requires Valid()
      ensures waitTime == WaitTime(Limits(rpm, tpm), State().buckets, amount)
      ensures waitTime > 0.0 <==> !Suffices(State().buckets, amount)
    {
      var reqWait := 0.0;
      if reqTokens.Some? && reqTokens.value < 1.0 {
        DelaySign(1.0 - reqTokens.value, reqRate);
        reqWait := Max(0.0, Delay(1.0 - reqTokens.value, reqRate));
      }
      var tokWait := 0.0;
      if tokTokens < amount as real {
        DelaySign(amount as real - tokTokens, tokRate);
        tokWait := Max(0.0, Delay(amount as real - tokTokens, tokRate));
      }
      waitTime := Max(reqWait, tokWait);
    }

    /** Sleeping for the wait and some overshoot, with nobody else taking, and polling again. */
    method PollAgain(at: real, tokens: int, waitTime: real, overshoot: real)
      returns (granted: bool, nextWait: real, later: real)
      requires Valid() && lastRefill == at && waitTime > 0.0 && overshoot >= 0.0
      requires waitTime == WaitTime(Limits(rpm, tpm), State().buckets, Charge(tokens))
      modifies this
      ensures Valid() && lastRefill == later == at + waitTime + overshoot
      ensures granted <==> Charge(tokens) <= tpm
      ensures kinds == if granted then old(kinds) + [Granted] else old(kinds)
      ensures granted ==> log == old(log) + [Entry(later, Asked(tokens), tokTokens)]
      ensures !granted ==> log == old(log) && requests == old(requests) && nextWait > 0.0
      ensures !granted ==> nextWait == WaitTime(Limits(rpm, tpm), State().buckets, Charge(tokens))
    {
      later := at + waitTime + overshoot;
      PauseSuffices(State(), tokens, waitTime + overshoot);
      granted, nextWait := TryAcquire(later, tokens);
    }

    /**
     `acquire` with nobody else taking: each sleep lasts the wait plus some overshoot. With one
     sleep allowed it is granted exactly when the request fits the bucket at all, and it never
     needs a second sleep; an oversized request is still looping after any number of sleeps.
     */
    method AcquireAlone(now: real, tokens: int, overshoots: seq<real>)
      returns (granted: bool, sleeps: nat, at: real)
      requires Valid() && lastRefill <= now && forall o <- overshoots :: o >= 0.0
      modifies this
      ensures Valid()
      ensures Charge(tokens) > tpm ==>
                !granted && sleeps == |overshoots| && log == old(log) && requests == old(requests)
      ensures Charge(tokens) <= tpm && |overshoots| >= 1 ==> granted
      ensures granted ==> sleeps <= |overshoots| && sleeps <= 1
      ensures kinds == if granted then old(kinds) + [Granted] else old(kinds)
      ensures granted ==> log == old(log) + [Entry(at, Asked(tokens), tokTokens)]
      ensures now <= at == lastRefill
    {
      at, sleeps := now, 0;
      var waitTime: real;
      granted, waitTime := TryAcquire(at, tokens);
      while !granted && sleeps < |overshoots|
        invariant Valid() && sleeps <= |overshoots| && at >= now && lastRefill == at
        invariant granted ==> Charge(tokens) <= tpm && sleeps <= 1 && kinds == old(kinds) + [Granted]
        invariant granted ==> log == old(log) + [Entry(at, Asked(tokens), tokTokens)]
        invariant Charge(tokens) <= tpm ==> granted || sleeps == 0
        invariant !granted ==> log == old(log) && kinds == old(kinds) && requests == old(requests)
        invariant !granted ==> waitTime == WaitTime(Limits(rpm, tpm), State().buckets, Charge(tokens)) && waitTime > 0.0
        decreases |overshoots| - sleeps
      {
        assert overshoots[sleeps] in overshoots;
        granted, waitTime, at := PollAgain(at, tokens, waitTime, overshoots[sleeps]);
        sleeps := sleeps + 1;
      }
    }

    method UpdateActualTokens(now: real, expected: int, actual: int)
      requires Valid() && lastRefill <= now
      modifies this
      ensures Valid()
      ensures State() == Step(old(State()), Correct(now, expected, actual))
      ensures expected == actual ==> tokTokens == old(tokTokens) && reqTokens == old(reqTokens)
      ensures expected != actual ==>
                && reqTokens == RequestsAt(old(State()), now)
                && tokTokens == Min(tpm as real, LevelAt(old(State()), now) + expected as real - actual as real)
    {
      if actual == expected {
        return;
      }
      RefreshKeepsInv(State(), now);
      CorrectionMovesLevel(State(), now, expected, actual);
      Refill(now);
      Adjust(expected, actual);
    }

    /** The correction itself, once the refill is done. */
    method Adjust(expected: int, actual: int)
      requires Valid()
      modifies this`tokTokens, this`log, this`kinds
      ensures Valid()
      ensures State() == Settle(old(State()), Correct(lastRefill, expected, actual))
    {
      SettleKeepsInv(State(), Correct(lastRefill, expected, actual));
      var diff := expected - actual;
      tokTokens := Min(tokCapacity, tokTokens + diff as real);
      log, kinds := log + [Entry(lastRefill, (actual - expected) as real, tokTokens)], kinds + [Corrected];
    }
  }
}
