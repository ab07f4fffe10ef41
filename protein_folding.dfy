/**
 * The three-state protein folding model (excercise3_kinetics/protein_folding):
 * the denatured state D, the intermediate I and the native state N, linked by
 * the reactions R15 (D <-> I) and R16 (I <-> N), whose rate constants depend
 * exponentially on the urea concentration.
 *
 * `exact_solution.py` gives the equilibrium fractions in closed form;
 * `iterative_solution.py` gives the rate equations that `solve_ivp`
 * integrates. The exponential is the parameter `exp`; the lemmas that need
 * it positive say so.
 */
module ProteinFolding {

  // constants.py: the rate constants at zero urea and their urea coefficients.
  const KfR15: real := 26000.0
  const KuR15: real := 0.06
  const KfR16: real := 730.0
  const KuR16: real := 0.00075
  const CoeffKfR15: real := -1.68
  const CoeffKuR15: real := 0.95
  const CoeffKfR16: real := -1.72
  const CoeffKuR16: real := 1.20

  ghost predicate ExpPositive(exp: real -> real)
  {
    forall x :: exp(x) > 0.0
  }

  /** The tuple `(kf_R15, ku_R15, kf_R16, ku_R16)`. */
  datatype RateConstants = RateConstants(kf15: real, ku15: real, kf16: real, ku16: real)

  /** One rate constant: its value at zero urea scaled by exp(coefficient * urea). */
  function RateAt(base: real, coeff: real, urea: real, exp: real -> real): (k: real)
    requires base > 0.0
    ensures exp(coeff * urea) > 0.0 ==> k > 0.0
  {
    base * exp(coeff * urea)
  }

  /** `get_rate_constants(urea_conc)`. */
  function GetRateConstants(urea: real, exp: real -> real): (r: RateConstants)
    ensures ExpPositive(exp) ==> r.kf15 > 0.0 && r.ku15 > 0.0 && r.kf16 > 0.0 && r.ku16 > 0.0
  {
    RateConstants(RateAt(KfR15, CoeffKfR15, urea, exp), RateAt(KuR15, CoeffKuR15, urea, exp),
                  RateAt(KfR16, CoeffKfR16, urea, exp), RateAt(KuR16, CoeffKuR16, urea, exp))
  }

  /**
   * `get_equilibrium_constants(urea_conc)`: each equilibrium constant is the
   * forward rate over the backward rate of its reaction, computed from the
   * same constants and the same exponentials as `get_rate_constants`.
   */
  function GetEquilibriumConstants(urea: real, exp: real -> real): (k: (real, real))
    requires ExpPositive(exp)
    ensures k.0 > 0.0 && k.1 > 0.0
    ensures k.0 == GetRateConstants(urea, exp).kf15 / GetRateConstants(urea, exp).ku15
    ensures k.1 == GetRateConstants(urea, exp).kf16 / GetRateConstants(urea, exp).ku16
  {
    var r := GetRateConstants(urea, exp);
    QuotientPositive(r.kf15, r.ku15);
    QuotientPositive(r.kf16, r.ku16);
    (KfR15 * exp(CoeffKfR15 * urea) / (KuR15 * exp(CoeffKuR15 * urea)),
     KfR16 * exp(CoeffKfR16 * urea) / (KuR16 * exp(CoeffKuR16 * urea)))
  }

  lemma QuotientPositive(a: real, b: real)
    requires a > 0.0 && b > 0.0
    ensures a / b > 0.0
  {
  }

  /** The fractions `(D, I, N)`. */
  datatype Composition = Composition(d: real, i: real, n: real)

  /** The closed form of `get_fractional_composition` for given equilibrium constants. */
  function Fractions(k15: real, k16: real): (c: Composition)
    requires k15 > 0.0 && k16 > 0.0
    ensures c.d + c.i + c.n == 1.0
    ensures 0.0 < c.d < 1.0 && 0.0 < c.i < 1.0 && 0.0 < c.n < 1.0
    ensures c.i == c.d * k15 && c.n == c.i * k16
  {
    var denominator := 1.0 + k15 + k15 * k16;
    ProductPositive(k15, k16);
    var d := 1.0 / denominator;
    FractionsSumToOne(d, k15, k16, denominator);
    Composition(d, d * k15, d * k15 * k16)
  }

  lemma ProductPositive(a: real, b: real)
    requires a > 0.0 && b > 0.0
    ensures a * b > 0.0
  {
  }

  /** D (1 + K15 + K15 K16) = 1 and the three terms are positive, so each of them lies strictly below one. */
  lemma FractionsSumToOne(d: real, k15: real, k16: real, denominator: real)
    requires k15 > 0.0 && k16 > 0.0 && k15 * k16 > 0.0
    requires denominator == 1.0 + k15 + k15 * k16 && d == 1.0 / denominator
    ensures d + d * k15 + d * k15 * k16 == 1.0
    ensures 0.0 < d && 0.0 < d * k15 && 0.0 < d * k15 * k16
  {
    assert d * denominator == 1.0;
    assert d > 0.0;
    ProductPositive(d, k15);
    ProductPositive(d * k15, k16);
  }

  /** `get_fractional_composition(urea_conc)`. */
  function GetFractionalComposition(urea: real, exp: real -> real): (c: Composition)
    requires ExpPositive(exp)
    ensures c.d + c.i + c.n == 1.0
    ensures 0.0 < c.d < 1.0 && 0.0 < c.i < 1.0 && 0.0 < c.n < 1.0
    ensures c.i == c.d * GetEquilibriumConstants(urea, exp).0
    ensures c.n == c.i * GetEquilibriumConstants(urea, exp).1
  {
    var k := GetEquilibriumConstants(urea, exp);
    Fractions(k.0, k.1)
  }

  /**
   * `d_conc(t, y, rate_constants)` for the state `y = [D, I, N]`: the
   * derivatives in the same order. D gains by the backward R15 and loses by
   * the forward R15; N gains by the forward R16 and loses by the backward
   * R16; I takes up the rest, so nothing is created or destroyed.
   */
  function DConc(y: seq<real>, k: RateConstants): (dy: seq<real>)
    requires |y| == 3
    ensures |dy| == 3
    ensures dy[0] == y[1] * k.ku15 - y[0] * k.kf15
    ensures dy[2] == y[1] * k.kf16 - y[2] * k.ku16
    ensures dy[0] + dy[1] + dy[2] == 0.0
  {
    var dD := -y[0] * k.kf15 + y[1] * k.ku15;
    var dN := -y[2] * k.ku16 + y[1] * k.kf16;
    var dI := -dD - dN;
    [dD, dI, dN]
  }

  /** Both reactions are balanced at the closed-form composition, so the rate equations vanish there. */
  lemma EquilibriumIsSteady(urea: real, exp: real -> real)
    requires ExpPositive(exp)
    ensures var c := GetFractionalComposition(urea, exp);
      DConc([c.d, c.i, c.n], GetRateConstants(urea, exp)) == [0.0, 0.0, 0.0]
  {
    var c := GetFractionalComposition(urea, exp);
    var r := GetRateConstants(urea, exp);
    SteadyAt(c, r);
  }

  /** A composition in the ratios of both equilibrium constants makes every rate equation vanish. */
  lemma SteadyAt(c: Composition, r: RateConstants)
    requires r.ku15 > 0.0 && r.ku16 > 0.0
    requires c.i == c.d * (r.kf15 / r.ku15) && c.n == c.i * (r.kf16 / r.ku16)
    ensures DConc([c.d, c.i, c.n], r) == [0.0, 0.0, 0.0]
  {
    Balanced(c.d, c.i, r.kf15 / r.ku15, r.kf15, r.ku15);
    Balanced(c.i, c.n, r.kf16 / r.ku16, r.kf16, r.ku16);
    var dy := DConc([c.d, c.i, c.n], r);
    assert dy[0] == 0.0 && dy[2] == 0.0;
  }

  /** If after == before * (forward / backward) then the forward and backward flows are equal. */
  lemma Balanced(before: real, after: real, kEq: real, forward: real, backward: real)
    requires backward > 0.0
    requires kEq == forward / backward
    requires after == before * kEq
    ensures after * backward == before * forward
  {
    assert kEq * backward == forward;
    assert after * backward == before * (kEq * backward);
  }
}
