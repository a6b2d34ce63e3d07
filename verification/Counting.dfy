/** Counting the members of a sequence that satisfy a predicate. */
module Counting {

  function Count<T>(s: seq<T>, p: T -> bool): nat {
    if s == [] then 0
    else Count(s[..|s| - 1], p) + if p(s[|s| - 1]) then 1 else 0
  }

  lemma CountAppend<T>(s: seq<T>, x: T, p: T -> bool)
    ensures Count(s + [x], p) == Count(s, p) + if p(x) then 1 else 0
  {
    assert (s + [x])[..|s|] == s;
  }

  lemma {:induction false} CountUpdate<T>(s: seq<T>, k: nat, x: T, p: T -> bool)
    requires k < |s|
    ensures Count(s[k := x], p) == Count(s, p) - (if p(s[k]) then 1 else 0) + (if p(x) then 1 else 0)
    decreases |s|
  {
    var n := |s| - 1;
    if k < n {
      assert s[k := x][..n] == s[..n][k := x];
      CountUpdate(s[..n], k, x, p);
    } else {
      assert s[k := x][..n] == s[..n];
    }
  }

  lemma {:induction false} CountPositive<T>(s: seq<T>, p: T -> bool)
    ensures Count(s, p) > 0 <==> exists k :: 0 <= k < |s| && p(s[k])
    decreases |s|
  {
    if s != [] {
      var n := |s| - 1;
      CountPositive(s[..n], p);
      if Count(s[..n], p) > 0 {
        var k :| 0 <= k < n && p(s[..n][k]);
        assert p(s[k]);
      }
    }
  }

  /** Sequences that agree on the predicate position by position have equal counts. */
  lemma {:induction false} CountAgrees<T, U>(s: seq<T>, p: T -> bool, r: seq<U>, q: U -> bool)
    requires |s| == |r| && forall k :: 0 <= k < |s| ==> p(s[k]) == q(r[k])
    ensures Count(s, p) == Count(r, q)
    decreases |s|
  {
    if s != [] {
      CountAgrees(s[..|s| - 1], p, r[..|r| - 1], q);
    }
  }

  lemma {:induction false} CountAtMostLength<T>(s: seq<T>, p: T -> bool)
    ensures Count(s, p) <= |s|
    decreases |s|
  {
    if s != [] { CountAtMostLength(s[..|s| - 1], p); }
  }

  lemma {:induction false} CountAll<T>(s: seq<T>, p: T -> bool)
    requires forall k :: 0 <= k < |s| ==> p(s[k])
    ensures Count(s, p) == |s|
    decreases |s|
  {
    if s != [] { CountAll(s[..|s| - 1], p); }
  }

  // ---------- Weighing ----------

  /** The weights of the members added up. */
  function Sum<T>(s: seq<T>, w: T -> nat): nat {
    if s == [] then 0 else Sum(s[..|s| - 1], w) + w(s[|s| - 1])
  }

  lemma {:induction false} SumUpdate<T>(s: seq<T>, k: nat, x: T, w: T -> nat)
    requires k < |s|
    ensures Sum(s[k := x], w) + w(s[k]) == Sum(s, w) + w(x)
    decreases |s|
  {
    var n := |s| - 1;
    if k < n {
      assert s[k := x][..n] == s[..n][k := x];
      SumUpdate(s[..n], k, x, w);
    } else {
      assert s[k := x][..n] == s[..n];
    }
  }

  /** If each weight goes up by at most one, their sum goes up by at most the length. */
  lemma {:induction false} SumGrowsByOnes<T>(s: seq<T>, r: seq<T>, w: T -> nat)
    requires |s| == |r| && forall k :: 0 <= k < |s| ==> w(r[k]) <= w(s[k]) + 1
    ensures Sum(r, w) <= Sum(s, w) + |s|
    decreases |s|
  {
    if s != [] { SumGrowsByOnes(s[..|s| - 1], r[..|r| - 1], w); }
  }

  lemma {:induction false} SumOfEquals<T>(s: seq<T>, w: T -> nat, each: nat)
    requires forall k :: 0 <= k < |s| ==> w(s[k]) == each
    ensures Sum(s, w) == |s| * each
    decreases |s|
  {
    if s != [] { SumOfEquals(s[..|s| - 1], w, each); }
  }
}
