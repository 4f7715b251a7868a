/** Shared vocabulary of the financial engine: error outcomes, the display
    rounding, integer powers and the appreciation curve. */
module Common {

  /** The ways the engine refuses to compute. */
  datatype Error =
    | InvalidParameter            // a loan principal, rate or term that is not positive
    | IllegalOperation            // a refinance payout asked for in the month of the last loan event
    | DownPaymentTooLow           // a refinance with a down payment below 25 percent
    | ScheduleLookupOutOfRange    // reading an amortization entry past the end of the schedule

  datatype Result<T> = Ok(value: T) | Err(error: Error)

  /** `Math.round(x)` rounds half-way cases up: floor(x + 1/2). */
  function RoundHalfUp(x: real): (r: int)
    ensures x - 0.5 < r as real <= x + 0.5
  {
    (x + 0.5).Floor
  }

  /** The display rounding: to the nearest cent, half-way cases up; it moves
      a value by at most half a cent. */
  function Round2(x: real): (rounded: real)
    ensures x - 0.005 < rounded <= x + 0.005
  {
    RoundHalfUp(x * 100.0) as real / 100.0
  }

  /** The rounded value is a whole number of cents. */
  lemma Round2IsWholeCents(x: real)
    ensures (Round2(x) * 100.0).Floor as real == Round2(x) * 100.0
  {
    var c := RoundHalfUp(x * 100.0);
    assert Round2(x) * 100.0 == c as real;
  }

  lemma Round2Monotone(x: real, y: real)
    requires x <= y
    ensures Round2(x) <= Round2(y)
  {
    assert (x * 100.0 + 0.5).Floor <= (y * 100.0 + 0.5).Floor;
  }

  lemma Round2OfCents(c: int)
    ensures Round2(c as real / 100.0) == c as real / 100.0
  {
    assert (c as real / 100.0) * 100.0 + 0.5 == c as real + 0.5;
    assert (c as real + 0.5).Floor == c;
  }

  /** x raised to a whole power: positive for a positive base, and one for
      a base of one. */
  function Pow(x: real, n: nat): (p: real)
    ensures x > 0.0 ==> p > 0.0
    ensures x == 1.0 ==> p == 1.0
  {
    if n == 0 then 1.0 else x * Pow(x, n - 1)
  }

  lemma PowStep(x: real, n: nat)
    requires n > 0
    ensures Pow(x, n) == Pow(x, n - 1) * x
  {
  }

  lemma ProductPositive(a: real, b: real)
    requires a > 0.0 && b > 0.0
    ensures a * b > 0.0
  {
  }

  /** A base above one grows strictly with the exponent. */
  lemma {:induction false} PowStrictlyIncreasing(x: real, k: nat, n: nat)
    requires x > 1.0 && k < n
    ensures 0.0 < Pow(x, k) < Pow(x, n)
  {
    if k < n - 1 {
      PowStrictlyIncreasing(x, k, n - 1);
    }
    var p := Pow(x, n - 1);
    var d := (x - 1.0) * p;
    ProductPositive(x - 1.0, p);
    assert Pow(x, n) == x * p == p + d;
    assert Pow(x, k) <= p;
    assert p < Pow(x, n);
  }

  /** The appreciated value `price * Math.pow(1 + a/100, months/12)` of a
      price after a number of months at an annual appreciation of a percent.
      The exponent is fractional, so the curve is a parameter of the model,
      constrained to keep a positive price positive and to be the price
      itself after zero months. */
  type GrowthCurve = f: (real, real, int) -> real
    | (forall p: real, a: real, m: int :: p > 0.0 ==> f(p, a, m) > 0.0) && (forall p: real, a: real :: f(p, a, 0) == p)
    witness (p: real, a: real, m: int) => p
}
