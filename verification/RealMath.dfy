/** Real-number helpers shared by the limiter models. */
module RealMath {

  function Min(a: real, b: real): real {
    if a <= b then a else b
  }

  function Max(a: real, b: real): real {
    if a >= b then a else b
  }

  function Pow(x: real, n: nat): real {
    if n == 0 then 1.0 else x * Pow(x, n - 1)
  }

  /** Python's `int(x)` on a float: truncation toward zero. */
  function Truncate(x: real): int {
    if x >= 0.0 then x.Floor else -((-x).Floor)
  }

  function Ceil(x: real): int {
    -((-x).Floor)
  }

  /** Tokens gained over a span of time. */
  function Accrued(span: real, rate: real): real {
    span * rate
  }

  /** Time needed to gain some tokens. */
  function Delay(need: real, rate: real): real
    requires rate > 0.0
  {
    need / rate
  }

  lemma MulMonotone(a: real, b: real, c: real)
    requires a <= b && 0.0 <= c
    ensures a * c <= b * c && c * a <= c * b
  {
    assert 0.0 <= (b - a) * c;
  }

  lemma MulRegroups(a: real, b: real, c: real)
    ensures a * (b * c) == (a * b) * c
  {}

  lemma MulStrict(a: real, b: real, c: real)
    requires 0.0 < c
    ensures a < b ==> a * c < b * c
    ensures b < a ==> b * c < a * c
  {
    if a < b {
      assert 0.0 < (b - a) * c;
    } else if b < a {
      assert 0.0 < (a - b) * c;
    }
  }

  /** A delay is the one span that accrues exactly the need. */
  lemma DelayAccrues(need: real, rate: real)
    requires rate > 0.0
    ensures Accrued(Delay(need, rate), rate) == need
  {}

  lemma AccruedOrder(x: real, y: real, rate: real)
    requires rate > 0.0
    ensures x < y <==> Accrued(x, rate) < Accrued(y, rate)
    ensures x <= y <==> Accrued(x, rate) <= Accrued(y, rate)
    ensures x == y <==> Accrued(x, rate) == Accrued(y, rate)
  {
    MulStrict(x, y, rate);
  }

  /** A need is met exactly from its delay on. */
  lemma MetFromDelayOn(need: real, span: real, rate: real)
    requires rate > 0.0
    ensures Accrued(span, rate) >= need <==> span >= Delay(need, rate)
    ensures Accrued(span, rate) == need <==> span == Delay(need, rate)
  {
    DelayAccrues(need, rate);
    AccruedOrder(Delay(need, rate), span, rate);
  }

  lemma AccruedNothing(rate: real)
    ensures Accrued(0.0, rate) == 0.0
  {}

  lemma AccruedSign(span: real, rate: real)
    requires 0.0 <= span && 0.0 <= rate
    ensures Accrued(span, rate) >= 0.0
  {}

  lemma DelaySign(need: real, rate: real)
    requires rate > 0.0
    ensures need > 0.0 <==> Delay(need, rate) > 0.0
    ensures need >= 0.0 <==> Delay(need, rate) >= 0.0
  {
    DelayAccrues(need, rate);
    AccruedNothing(rate);
    AccruedOrder(0.0, Delay(need, rate), rate);
  }

  /** What is still missing after a span takes that span less. */
  lemma DelayAfter(need: real, span: real, rate: real, rest: real)
    requires rate > 0.0 && rest == need - Accrued(span, rate)
    ensures Delay(rest, rate) == Delay(need, rate) - span
  {
    var left := Delay(need, rate) - span;
    DelayAccrues(need, rate);
    assert Accrued(left, rate) == Accrued(Delay(need, rate), rate) - Accrued(span, rate);
    MetFromDelayOn(rest, left, rate);
  }
}
