/**
 The per-minute promises of RpmTpmRateLimiter (src/network/limiter.py) over what callers did: the
 acquires that were granted and the corrections made, not the limiter's own log of them.
 */
module LlmEvents {
  import opened RealMath
  import opened Options
  import opened Ledger
  import opened LlmLimiter

  /** What the acquires among the events were granted, added up from what they asked for. */
  ghost function GrantedSum(r: Run, events: seq<Event>): real
    requires r.buckets.req.Some? == r.limits.rpm.Some?
    decreases |events|
  {
    if events == [] then 0.0
    else (if events[0].Attempt? && Passes(r, events[0].now, events[0].tokens) then Asked(events[0].tokens) else 0.0)
         + GrantedSum(Step(r, events[0]), events[1..])
  }

  ghost function GrantedCount(r: Run, events: seq<Event>): nat
    requires r.buckets.req.Some? == r.limits.rpm.Some?
    decreases |events|
  {
    if events == [] then 0
    else (if events[0].Attempt? && Passes(r, events[0].now, events[0].tokens) then 1 else 0)
         + GrantedCount(Step(r, events[0]), events[1..])
  }

  /** The sum of (expected - actual) over the corrections among the events. */
  function CorrectedSum(events: seq<Event>): real
    decreases |events|
  {
    if events == [] then 0.0
    else (if events[0].Correct? then (events[0].expected - events[0].actual) as real else 0.0)
         + CorrectedSum(events[1..])
  }

  lemma {:induction false} ChargedSplits(r: Run, lo: nat, mid: nat, hi: nat)
    requires lo <= mid <= hi <= |r.log| == |r.kinds|
    ensures Charged(r, lo, hi) == Charged(r, lo, mid) + Charged(r, mid, hi)
    ensures Returned(r, lo, hi) == Returned(r, lo, mid) + Returned(r, mid, hi)
    decreases hi - mid
  {
    if mid < hi { ChargedSplits(r, lo, mid, hi - 1); }
  }

  lemma {:induction false} ChargedOfPrefix(r: Run, s: Run, lo: nat, hi: nat)
    requires lo <= hi <= |r.log| == |r.kinds| && |s.log| == |s.kinds| && r.log <= s.log && r.kinds <= s.kinds
    ensures Charged(r, lo, hi) == Charged(s, lo, hi) && Returned(r, lo, hi) == Returned(s, lo, hi)
    decreases hi - lo
  {
    if lo < hi { ChargedOfPrefix(r, s, lo, hi - 1); }
  }

  /** What one event adds to the log is what the event says. */
  lemma StepLogsEvent(r: Run, e: Event)
    requires Inv(r) && r.buckets.at <= e.now
    ensures var s := Step(r, e);
            && |s.log| == |s.kinds| && r.log <= s.log && r.kinds <= s.kinds && r.requests <= s.requests
            && Charged(s, |r.log|, |s.log|) == GrantedSum(r, [e])
            && Returned(s, |r.log|, |s.log|) == CorrectedSum([e])
            && (s.limits.rpm.Some? ==> |s.requests| == |r.requests| + GrantedCount(r, [e]))
            && (e.Attempt? && Passes(r, e.now, e.tokens) <==> |s.log| == |r.log| + 1 && s.kinds[|r.log|].Granted?)
  {
    var s := Step(r, e);
    assert [e][1..] == [];
    assert GrantedSum(r, [e]) == if e.Attempt? && Passes(r, e.now, e.tokens) then Asked(e.tokens) else 0.0;
    assert CorrectedSum([e]) == if e.Correct? then (e.expected - e.actual) as real else 0.0;
    if |s.log| > |r.log| {
      assert Charged(s, |r.log|, |r.log|) == 0.0 && Returned(s, |r.log|, |r.log|) == 0.0;
    }
  }

  lemma SumsOfCons(r: Run, e: Event, rest: seq<Event>)
    requires r.buckets.req.Some? == r.limits.rpm.Some?
    ensures GrantedSum(r, [e] + rest) == GrantedSum(r, [e]) + GrantedSum(Step(r, e), rest)
    ensures GrantedCount(r, [e] + rest) == GrantedCount(r, [e]) + GrantedCount(Step(r, e), rest)
    ensures CorrectedSum([e] + rest) == CorrectedSum([e]) + CorrectedSum(rest)
  {
    assert ([e] + rest)[1..] == rest && [e][1..] == [];
  }

  /** The log of a run adds up to its events: charges to what was asked, returns to (expected - actual). */
  lemma {:induction false} LogTellsEvents(r: Run, clock: real, events: seq<Event>)
    requires Inv(r) && r.buckets.at <= clock && InOrder(clock, events)
    ensures var s := Execute(r, events);
            && |s.log| == |s.kinds| && r.log <= s.log && r.kinds <= s.kinds && r.requests <= s.requests
            && Charged(s, |r.log|, |s.log|) == GrantedSum(r, events)
            && Returned(s, |r.log|, |s.log|) == CorrectedSum(events)
            && (s.limits.rpm.Some? ==> |s.requests| == |r.requests| + GrantedCount(r, events))
    decreases |events|
  {
    if events != [] {
      var next, s := Step(r, events[0]), Execute(r, events);
      StepKeepsInv(r, events[0]);
      StepLogsEvent(r, events[0]);
      LogTellsEvents(next, events[0].now, events[1..]);
      ExecuteKeepsInv(next, events[0].now, events[1..]);
      ChargedOfPrefix(next, s, |r.log|, |next.log|);
      ChargedSplits(s, |r.log|, |next.log|, |s.log|);
      assert events == [events[0]] + events[1..];
      SumsOfCons(r, events[0], events[1..]);
    }
  }

  lemma {:induction false} OrderSplits(clock: real, before: seq<Event>, window: seq<Event>)
    requires InOrder(clock, before + window)
    ensures InOrder(clock, before)
    ensures window != [] ==> clock <= window[0].now && InOrder(window[0].now, window)
    decreases |before|
  {
    if before == [] {
      assert before + window == window;
    } else {
      assert (before + window)[1..] == before[1..] + window;
      OrderSplits(before[0].now, before[1..], window);
    }
  }

  /** Execution up to a later instant leaves the last refill no later than the events. */
  lemma {:induction false} RefilledBy(r: Run, clock: real, before: seq<Event>, window: seq<Event>)
    requires Inv(r) && r.buckets.at <= clock && InOrder(clock, before + window) && window != []
    ensures Inv(Execute(r, before)) && Execute(r, before).buckets.at <= window[0].now
    ensures Execute(r, before).limits == r.limits
    decreases |before|
  {
    if before == [] {
      assert before + window == window;
    } else {
      assert (before + window)[1..] == before[1..] + window;
      StepKeepsInv(r, before[0]);
      RefilledBy(Step(r, before[0]), before[0].now, before[1..], window);
    }
  }

  /** Whatever a run does, the entries it adds lie between its first and its last event. */
  lemma {:induction false} EntriesWithin(r: Run, clock: real, events: seq<Event>, k: nat)
    requires Inv(r) && r.buckets.at <= clock && InOrder(clock, events) && events != []
    requires |r.log| <= k < |Execute(r, events).log|
    ensures events[0].now <= Execute(r, events).log[k].at <= events[|events| - 1].now
    decreases |events|
  {
    var next, rest := Step(r, events[0]), events[1..];
    StepKeepsInv(r, events[0]);
    StepLogsEvent(r, events[0]);
    LogTellsEvents(next, events[0].now, rest);
    if rest == [] {
      assert Execute(r, events) == next;
    } else if k >= |next.log| {
      EntriesWithin(next, events[0].now, rest, k);
    } else {
      LastIsLatest(events[0].now, rest);
      assert next.log[k] == Execute(next, rest).log[k];
    }
  }

  lemma {:induction false} RequestsWithin(r: Run, clock: real, events: seq<Event>, k: nat)
    requires Inv(r) && r.buckets.at <= clock && InOrder(clock, events) && events != [] && r.limits.rpm.Some?
    requires |r.requests| <= k < |Execute(r, events).requests|
    ensures events[0].now <= Execute(r, events).requests[k].at <= events[|events| - 1].now
    decreases |events|
  {
    var next, rest := Step(r, events[0]), events[1..];
    StepKeepsInv(r, events[0]);
    StepLogsEvent(r, events[0]);
    LogTellsEvents(next, events[0].now, rest);
    if rest == [] {
      assert Execute(r, events) == next;
    } else if k >= |next.requests| {
      RequestsWithin(next, events[0].now, rest, k);
    } else {
      LastIsLatest(events[0].now, rest);
      assert next.requests[k] == Execute(next, rest).requests[k];
    }
  }

  lemma {:induction false} LastIsLatest(clock: real, events: seq<Event>)
    requires InOrder(clock, events) && events != []
    ensures clock <= events[0].now <= events[|events| - 1].now
    decreases |events|
  {
    if |events| > 1 { LastIsLatest(events[0].now, events[1..]); }
  }

  lemma {:induction false} LastStep(r: Run, events: seq<Event>)
    requires r.buckets.req.Some? == r.limits.rpm.Some? && events != []
    ensures var front := events[..|events| - 1];
            Execute(r, events) == Step(Execute(r, front), events[|events| - 1])
    decreases |events|
  {
    var n := |events| - 1;
    if n > 0 {
      assert events[1..][..n - 1] == events[..n][1..];
      LastStep(Step(r, events[0]), events[1..]);
    }
  }

  /** The last of the events is an acquire that is granted. */
  ghost predicate EndsGranted(r: Run, events: seq<Event>)
    requires r.buckets.req.Some? == r.limits.rpm.Some?
  {
    && events != []
    && events[|events| - 1].Attempt?
    && Passes(Execute(r, events[..|events| - 1]), events[|events| - 1].now, events[|events| - 1].tokens)
  }

  lemma EndsInGrant(r: Run, clock: real, events: seq<Event>)
    requires Inv(r) && r.buckets.at <= clock && InOrder(clock, events) && EndsGranted(r, events)
    ensures var s := Execute(r, events);
            |r.log| < |s.log| == |s.kinds| && s.kinds[|s.log| - 1].Granted?
  {
    var n := |events| - 1;
    var front := events[..n];
    assert events == front + [events[n]];
    LastStep(r, events);
    OrderSplits(clock, front, [events[n]]);
    RefilledBy(r, clock, front, [events[n]]);
    LogTellsEvents(r, clock, front);
    StepLogsEvent(Execute(r, front), events[n]);
  }

  function Span(events: seq<Event>): real
    requires events != []
  {
    events[|events| - 1].now - events[0].now
  }

  /** The entries a stretch of events adds span no more time than the events. */
  lemma {:induction false} EntriesSpan(r: Run, clock: real, window: seq<Event>)
    requires Inv(r) && window != [] && r.buckets.at <= clock && InOrder(clock, window)
    ensures var s := Execute(r, window);
            && (|s.log| > |r.log| ==> s.log[|s.log| - 1].at - s.log[|r.log|].at <= Span(window))
            && (r.limits.rpm.Some? && |s.requests| > |r.requests| ==>
                  s.requests[|s.requests| - 1].at - s.requests[|r.requests|].at <= Span(window))
  {
    var s := Execute(r, window);
    if |s.log| > |r.log| {
      EntriesWithin(r, clock, window, |r.log|);
      EntriesWithin(r, clock, window, |s.log| - 1);
    }
    if r.limits.rpm.Some? && |s.requests| > |r.requests| {
      RequestsWithin(r, clock, window, |r.requests|);
      RequestsWithin(r, clock, window, |s.requests| - 1);
    }
  }

  lemma {:induction false} StretchOfTokens(r: Run, clock: real, window: seq<Event>)
    requires Inv(r) && window != [] && r.buckets.at <= clock && InOrder(clock, window)
    requires EndsGranted(r, window)
    ensures GrantedSum(r, window) - CorrectedSum(window)
         <= r.limits.tpm as real + Accrued(Span(window), r.limits.tpm as real / 60.0)
  {
    var s := Execute(r, window);
    EndsInGrant(r, clock, window);
    LogTellsEvents(r, clock, window);
    ExecuteKeepsInv(r, clock, window);
    TokensInWindow(s, |r.log|, |s.log| - 1);
    EntriesSpan(r, clock, window);
    FitsWider(GrantedSum(r, window) - CorrectedSum(window), r.limits.tpm,
              s.log[|s.log| - 1].at - s.log[|r.log|].at, Span(window));
  }

  /** What fits in a minute's worth plus the refill over a span fits over any longer span. */
  lemma FitsWider(amount: real, perMinute: int, span: real, wider: real)
    requires perMinute >= 1 && span <= wider
    requires amount <= perMinute as real + Accrued(span, perMinute as real / 60.0)
    ensures amount <= perMinute as real + Accrued(wider, perMinute as real / 60.0)
  {
    AccruedOrder(span, wider, perMinute as real / 60.0);
  }

  lemma {:induction false} StretchOfRequests(r: Run, clock: real, window: seq<Event>)
    requires Inv(r) && window != [] && r.buckets.at <= clock && InOrder(clock, window)
    requires r.limits.rpm.Some?
    ensures GrantedCount(r, window) as real
         <= r.limits.rpm.value as real + Accrued(Span(window), r.limits.rpm.value as real / 60.0)
  {
    var s := Execute(r, window);
    LogTellsEvents(r, clock, window);
    ExecuteKeepsInv(r, clock, window);
    LastIsLatest(clock, window);
    if |s.requests| > |r.requests| {
      EntriesSpan(r, clock, window);
      RequestsOverSpan(s, |r.requests|, Span(window));
    } else {
      AccruedSign(Span(window), r.limits.rpm.value as real / 60.0);
    }
  }

  /** The requests from number i on, over any span that holds them. */
  lemma RequestsOverSpan(s: Run, i: nat, span: real)
    requires Inv(s) && s.limits.rpm.Some? && 0 < i < |s.requests|
    requires s.requests[|s.requests| - 1].at - s.requests[i].at <= span
    ensures (|s.requests| - i) as real
         <= s.limits.rpm.value as real + Accrued(span, s.limits.rpm.value as real / 60.0)
  {
    var j := |s.requests| - 1;
    RequestsInWindow(s, i, j);
    FitsWider((j - i + 1) as real, s.limits.rpm.value, s.requests[j].at - s.requests[i].at, span);
  }

  /**
   The tokens-per-minute promise over the events of any stretch of any run, up to any granted
   acquire: what the granted acquires asked for, less the sum of (expected - actual) over the
   corrections, is at most tpm + tpm/60 per second of the stretch.
   */
  lemma {:induction false} TokensPerMinute(l: Limits, start: real, before: seq<Event>, window: seq<Event>)
    requires Configured(l) && InOrder(start, before + window)
    requires EndsGranted(Execute(Open(l, start), before), window)
    ensures GrantedSum(Execute(Open(l, start), before), window) - CorrectedSum(window)
         <= l.tpm as real + Accrued(Span(window), l.tpm as real / 60.0)
  {
    OpenHasInv(l, start);
    OrderSplits(start, before, window);
    RefilledBy(Open(l, start), start, before, window);
    StretchOfTokens(Execute(Open(l, start), before), window[0].now, window);
  }

  /** The requests-per-minute promise over the events of any stretch of any run. */
  lemma {:induction false} RequestsPerMinute(l: Limits, start: real, before: seq<Event>, window: seq<Event>)
    requires Configured(l) && l.rpm.Some? && InOrder(start, before + window) && window != []
    ensures GrantedCount(Execute(Open(l, start), before), window) as real
         <= l.rpm.value as real + Accrued(Span(window), l.rpm.value as real / 60.0)
  {
    OpenHasInv(l, start);
    OrderSplits(start, before, window);
    RefilledBy(Open(l, start), start, before, window);
    StretchOfRequests(Execute(Open(l, start), before), window[0].now, window);
  }
}
