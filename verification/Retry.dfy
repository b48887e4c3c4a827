/** The retry methods of a task: how long to wait before the n-th retry, and when to stop. */
module Retry {
  import opened Wrappers

  /** `Unimportable` is a method whose function can no longer be imported by the worker. */
  datatype Method =
    | Fixed(delay: real, maxRetries: int)
    | Linear(delay: real, increment: real, maxRetries: int)
    | Exponential(delay: real, factor: real, maxRetries: int)
    | Unimportable

  function Power(base: real, exponent: nat): real {
    if exponent == 0 then 1.0 else base * Power(base, exponent - 1)
  }

  /** The wait before retry number `retry`; `None` stands for StopRetry. */
  function Wait(m: Method, retry: nat): Option<real>
    requires retry >= 1 && !m.Unimportable?
  {
    if retry > m.maxRetries then None
    else Some(WaitLength(m, retry))
  }

  function WaitLength(m: Method, retry: nat): real
    requires retry >= 1 && !m.Unimportable?
  {
    match m
    case Fixed(delay, _) => delay
    case Linear(delay, increment, _) => delay + increment * (retry - 1) as real
    case Exponential(delay, factor, _) => delay * Power(factor, retry - 1)
  }

  /** The sum of the waits before retries 1 .. n. */
  function TotalWait(m: Method, n: nat): real
    requires !m.Unimportable?
  {
    if n == 0 then 0.0 else TotalWait(m, n - 1) + WaitLength(m, n)
  }

  /** How often a task that always fails is run. */
  function MaxRuns(m: Method): nat
    requires !m.Unimportable?
  {
    if m.maxRetries < 0 then 1 else m.maxRetries + 1
  }

  lemma {:induction false} FixedTotal(m: Method, n: nat)
    requires m.Fixed?
    ensures TotalWait(m, n) == n as real * m.delay
  {
    if n > 0 {
      FixedTotal(m, n - 1);
      assert (n - 1) as real == n as real - 1.0;
      FixedStep(m.delay, n as real);
    }
  }

  lemma FixedStep(delay: real, n: real)
    ensures (n - 1.0) * delay + delay == n * delay
  {}

  lemma {:induction false} LinearTotal(m: Method, n: nat)
    requires m.Linear?
    ensures TotalWait(m, n)
         == n as real * m.delay + m.increment * (n as real * (n as real - 1.0) / 2.0)
  {
    if n > 0 {
      LinearTotal(m, n - 1);
      assert (n - 1) as real == n as real - 1.0;
      LinearStep(m.delay, m.increment, n as real);
    }
  }

  lemma LinearStep(delay: real, increment: real, n: real)
    ensures (n - 1.0) * delay + increment * ((n - 1.0) * (n - 2.0) / 2.0)
          + (delay + increment * (n - 1.0))
         == n * delay + increment * (n * (n - 1.0) / 2.0)
  {
    assert (n - 1.0) * (n - 2.0) / 2.0 + (n - 1.0) == n * (n - 1.0) / 2.0;
    assert increment * ((n - 1.0) * (n - 2.0) / 2.0) + increment * (n - 1.0)
        == increment * ((n - 1.0) * (n - 2.0) / 2.0 + (n - 1.0));
  }

  /** Multiplied out, so that it also holds for a factor of 1. */
  lemma {:induction false} ExponentialTotal(m: Method, n: nat)
    requires m.Exponential?
    ensures TotalWait(m, n) * (m.factor - 1.0) == m.delay * (Power(m.factor, n) - 1.0)
  {
    if n == 0 {
      assert TotalWait(m, 0) == 0.0 && Power(m.factor, 0) == 1.0;
    } else {
      ExponentialTotal(m, n - 1);
      ExponentialStep(m.delay, m.factor, TotalWait(m, n - 1), Power(m.factor, n - 1),
                      TotalWait(m, n), Power(m.factor, n));
    }
  }

  lemma ExponentialStep(delay: real, factor: real, total: real, power: real, nextTotal: real, nextPower: real)
    requires total * (factor - 1.0) == delay * (power - 1.0)
    requires nextTotal == total + delay * power && nextPower == factor * power
    ensures nextTotal * (factor - 1.0) == delay * (nextPower - 1.0)
  {
    var wait := delay * power;
    assert nextTotal * (factor - 1.0) == total * (factor - 1.0) + wait * (factor - 1.0);
    assert wait * (factor - 1.0) == delay * nextPower - wait;
  }

  lemma {:induction false} ConstantTotal(m: Method, n: nat)
    requires m.Exponential? && m.factor == 1.0
    ensures TotalWait(m, n) == n as real * m.delay && Power(m.factor, n) == 1.0
  {
    if n > 0 {
      ConstantTotal(m, n - 1);
      assert (n - 1) as real == n as real - 1.0;
      FixedStep(m.delay, n as real);
      assert WaitLength(m, n) == m.delay * 1.0;
    }
  }

  /** The sum of the waits before retries 1 .. n in closed form. */
  function ClosedTotal(m: Method, n: nat): real
    requires !m.Unimportable?
  {
    match m
    case Fixed(delay, _) => n as real * delay
    case Linear(delay, increment, _) => n as real * delay + increment * (n as real * (n as real - 1.0) / 2.0)
    case Exponential(delay, factor, _) =>
      if factor == 1.0 then n as real * delay else Ratio(Growth(delay, factor, n), factor - 1.0)
  }

  // The numerator and the quotient of a geometric sum, named to keep its proof linear.
  function Growth(delay: real, factor: real, n: nat): real {
    delay * (Power(factor, n) - 1.0)
  }

  function Ratio(a: real, b: real): real
    requires b != 0.0
  {
    a / b
  }

  lemma TotalIsClosed(m: Method, n: nat)
    requires !m.Unimportable?
    ensures TotalWait(m, n) == ClosedTotal(m, n)
  {
    match m
    case Fixed(_, _) => FixedTotal(m, n);
    case Linear(_, _, _) => LinearTotal(m, n);
    case Exponential(_, factor, _) =>
      if factor == 1.0 { ConstantTotal(m, n); } else { ExponentialQuotient(m, n); }
  }

  lemma ExponentialQuotient(m: Method, n: nat)
    requires m.Exponential? && m.factor != 1.0
    ensures TotalWait(m, n) == ClosedTotal(m, n)
  {
    ExponentialTotal(m, n);
    Quotient(TotalWait(m, n), m.factor - 1.0, Growth(m.delay, m.factor, n));
  }

  lemma Quotient(x: real, y: real, z: real)
    requires y != 0.0 && x * y == z
    ensures x == Ratio(z, y)
  {}
}
