/**
 The accounting argument shared by every token bucket of the rate-control
 engine. A ledger is the log of what was taken from a bucket: when, how much,
 and the level left behind. Whatever order operations come in, a log whose
 consecutive entries obey `Posts` can never take more than the capacity plus
 the refill over any window.
 */
module Ledger {
  import opened RealMath

  /** `amount` is negative when tokens are handed back. */
  datatype Entry = Entry(at: real, amount: real, level: real)

  datatype Terms = Terms(capacity: real, cap: real)

  function Refill(t: Terms, from: real, to: real): real {
    t.cap * to - t.cap * from
  }

  /** One entry after another: time moves on, and what is left plus what was taken was really there. */
  ghost predicate Posts(t: Terms, prev: Entry, next: Entry) {
    && prev.at <= next.at
    && next.level + next.amount <= t.capacity
    && next.level + next.amount <= prev.level + Refill(t, prev.at, next.at)
  }

  ghost predicate Chained(t: Terms, log: seq<Entry>) {
    && 0 < |log|
    && 0.0 <= t.cap
    && log[0].level + log[0].amount <= t.capacity
    && forall k :: 0 < k < |log| ==> Linked(t, log, k)
  }

  ghost predicate Linked(t: Terms, log: seq<Entry>, k: nat)
    requires 0 < k < |log|
  {
    Posts(t, log[k - 1], log[k])
  }

  /** Everything taken by the entries lo..hi-1. */
  function Total(log: seq<Entry>, lo: nat, hi: nat): real
    requires lo <= hi <= |log|
    decreases hi - lo
  {
    if lo == hi then 0.0 else Total(log, lo, hi - 1) + log[hi - 1].amount
  }

  lemma {:induction false} TotalSplits(log: seq<Entry>, lo: nat, mid: nat, hi: nat)
    requires lo <= mid <= hi <= |log|
    ensures Total(log, lo, hi) == Total(log, lo, mid) + Total(log, mid, hi)
    decreases hi - mid
  {
    if mid < hi { TotalSplits(log, lo, mid, hi - 1); }
  }

  /** Any window of a chained log takes at most the capacity plus the refill over the window, less what is left. */
  lemma {:induction false} WindowBound(t: Terms, log: seq<Entry>, i: nat, j: nat)
    requires Chained(t, log) && i <= j < |log|
    ensures log[i].at <= log[j].at
    ensures Total(log, i, j + 1) + log[j].level <= t.capacity + Refill(t, log[i].at, log[j].at)
    decreases j - i
  {
    if i == j {
      assert Total(log, i, i + 1) == Total(log, i, i) + log[i].amount;
      assert i > 0 ==> Linked(t, log, i);
      assert Refill(t, log[i].at, log[i].at) == 0.0;
    } else {
      WindowBound(t, log, i, j - 1);
      assert Linked(t, log, j);
    }
  }

  /** What is taken after entry i comes out of the level it left and the refill since. */
  lemma {:induction false} TakenSince(t: Terms, log: seq<Entry>, i: nat, j: nat)
    requires Chained(t, log) && i <= j < |log|
    ensures log[i].at <= log[j].at
    ensures Total(log, i + 1, j + 1) + log[j].level <= log[i].level + Refill(t, log[i].at, log[j].at)
    decreases j - i
  {
    if i < j {
      TakenSince(t, log, i, j - 1);
      assert Linked(t, log, j);
    }
  }

  /** After the opening entry, which takes nothing, each entry takes one unit and leaves no debt. */
  ghost predicate UnitCharges(log: seq<Entry>) {
    && 0 < |log|
    && log[0].amount == 0.0
    && forall k :: 0 < k < |log| ==> log[k].amount == 1.0 && log[k].level >= 0.0
  }

  lemma {:induction false} TotalOfUnits(log: seq<Entry>, lo: nat, hi: nat)
    requires UnitCharges(log) && lo < hi <= |log|
    ensures Total(log, lo, hi) == if lo == 0 then (hi - 1) as real else (hi - lo) as real
    decreases hi - lo
  {
    assert Total(log, lo, hi) == Total(log, lo, hi - 1) + log[hi - 1].amount;
    if lo < hi - 1 { TotalOfUnits(log, lo, hi - 1); }
  }

  /** Unit charges i..j number at most the capacity plus the cap times the window; from the opening, j of them do. */
  lemma UnitWindow(t: Terms, log: seq<Entry>, i: nat, j: nat)
    requires Chained(t, log) && UnitCharges(log) && i <= j < |log| && 0 < j
    ensures log[i].at <= log[j].at
    ensures (if i == 0 then j else j - i + 1) as real <= t.capacity + Accrued(log[j].at - log[i].at, t.cap)
  {
    WindowBound(t, log, i, j);
    TotalOfUnits(log, i, j + 1);
    RefillIsProduct(t, log[i].at, log[j].at);
  }

  /** Unit charges after entry i number at most the level it left plus the cap times the time since. */
  lemma UnitsSince(t: Terms, log: seq<Entry>, i: nat, j: nat)
    requires Chained(t, log) && UnitCharges(log) && i < j < |log|
    ensures log[i].at <= log[j].at
    ensures (j - i) as real <= log[i].level + Accrued(log[j].at - log[i].at, t.cap)
  {
    TakenSince(t, log, i, j);
    TotalOfUnits(log, i + 1, j + 1);
    RefillIsProduct(t, log[i].at, log[j].at);
  }

  lemma RefillIsProduct(t: Terms, from: real, to: real)
    ensures Refill(t, from, to) == Accrued(to - from, t.cap)
  {}

  /** A bucket filling no faster than the cap gains no more than the refill. */
  lemma AccruesWithin(t: Terms, rate: real, from: real, to: real)
    requires from <= to && rate <= t.cap
    ensures Accrued(to - from, rate) <= Refill(t, from, to)
    ensures Accrued(to - from, t.cap) == Refill(t, from, to)
  {
    MulMonotone(rate, t.cap, to - from);
  }

  /**
   The state of a bucket (level, at) is covered by its log: it holds no more than the last
   entry left behind plus the refill since.
   */
  ghost predicate Covers(t: Terms, log: seq<Entry>, level: real, at: real) {
    && Chained(t, log)
    && level <= t.capacity
    && log[|log| - 1].at <= at
    && level <= log[|log| - 1].level + Refill(t, log[|log| - 1].at, at)
  }

  /** Appending what a covered bucket really gave keeps the log chained and covering. */
  lemma Post(t: Terms, log: seq<Entry>, level: real, at: real, e: Entry)
    requires Covers(t, log, level, at)
    requires at <= e.at
    requires e.level <= t.capacity
    requires e.level + e.amount <= t.capacity
    requires e.level + e.amount <= level + Refill(t, at, e.at)
    ensures Covers(t, log + [e], e.level, e.at)
  {
    var last := log[|log| - 1];
    assert Posts(t, last, e);
    forall k | 0 < k < |log + [e]|
      ensures Linked(t, log + [e], k)
    {
      if k < |log| { assert Linked(t, log, k); }
    }
    assert Refill(t, e.at, e.at) == 0.0;
  }

  /** Refilling without taking anything keeps the bucket covered by the same log. */
  lemma Idle(t: Terms, log: seq<Entry>, level: real, at: real, level': real, at': real)
    requires Covers(t, log, level, at)
    requires at <= at' && level' <= t.capacity && level' <= level + Refill(t, at, at')
    ensures Covers(t, log, level', at')
  {}
}
