/** The transcendental functions the pitch and loudness arithmetic uses.
    Dafny's reals have no logarithm or real power, so they are supplied as
    parameters, together with the few laws the model relies on. */
module Numerics {

  /** `ln` is the natural logarithm (`np.log`), `exp2` is `x ↦ 2^x`, and
      `pow` is `torch.pow` on non-negative bases. */
  datatype Transcendentals = Transcendentals(ln: real -> real, exp2: real -> real, pow: (real, real) -> real)

  /** The laws of ln, 2^x and x^y that the promises of the model rest on. */
  ghost predicate Lawful(t: Transcendentals)
  {
    && t.ln(1.0) == 0.0
    && (forall x, y :: 0.0 < x < y ==> t.ln(x) < t.ln(y))
    && t.exp2(0.0) == 1.0
    && t.exp2(1.0) == 2.0
    && (forall x :: t.exp2(x) > 0.0)
    && (forall x, y :: x < y ==> t.exp2(x) < t.exp2(y))
    && (forall x :: t.pow(x, 0.0) == 1.0)
    && (forall x :: x >= 0.0 ==> t.pow(x, 1.0) == x)
    && (forall x :: x > 0.0 ==> t.pow(x, -1.0) == 1.0 / x)
  }
}
