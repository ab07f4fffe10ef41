/**
 * The harmonic approximation of the potential energy surface that
 * excercise2_gaussian/calculate_frequencies.py fits around the minimum:
 *
 *   E = E_min + k_r (r - r_min)^2 / 2 + k_theta (theta - theta_min)^2 / 2.
 */
module HarmonicPotential {

  /** The fitted parameters `E_min, k_r, k_theta, r_min, theta_min`. */
  datatype Params = Params(eMin: real, kR: real, kTheta: real, rMin: real, thetaMin: real)

  /**
   * `harmonic_potential([dist, angl], *params)`: `E_min` at the equilibrium
   * geometry, and never below it when both force constants are non-negative.
   */
  function Harmonic(p: Params, dist: real, angl: real): (e: real)
    ensures dist == p.rMin && angl == p.thetaMin ==> e == p.eMin
    ensures p.kR >= 0.0 && p.kTheta >= 0.0 ==> e >= p.eMin
  {
    var e := p.eMin + 0.5 * p.kR * (dist - p.rMin) * (dist - p.rMin) + 0.5 * p.kTheta * (angl - p.thetaMin) * (angl - p.thetaMin);
    if p.kR >= 0.0 && p.kTheta >= 0.0 then
      ScaledSquare(p.kR, dist - p.rMin);
      ScaledSquare(p.kTheta, angl - p.thetaMin);
      e
    else e
  }

  lemma ScaledSquare(k: real, x: real)
    requires k >= 0.0
    ensures 0.5 * k * x * x >= 0.0
  {
    assert x * x >= 0.0;
    assert 0.5 * k * x * x == (0.5 * k) * (x * x);
  }

  /** The potential is symmetric about both equilibrium values. */
  lemma Symmetric(p: Params, delta: real, dist: real, angl: real)
    ensures Harmonic(p, p.rMin + delta, angl) == Harmonic(p, p.rMin - delta, angl)
    ensures Harmonic(p, dist, p.thetaMin + delta) == Harmonic(p, dist, p.thetaMin - delta)
  {
    assert (p.rMin + delta - p.rMin) * (p.rMin + delta - p.rMin) == (p.rMin - delta - p.rMin) * (p.rMin - delta - p.rMin);
    assert (p.thetaMin + delta - p.thetaMin) * (p.thetaMin + delta - p.thetaMin)
        == (p.thetaMin - delta - p.thetaMin) * (p.thetaMin - delta - p.thetaMin);
  }

  /** Each term grows with the distance from equilibrium: farther out in r, higher up, when k_r > 0. */
  lemma RisesAwayFromMinimum(p: Params, near: real, far: real, angl: real)
    requires p.kR > 0.0
    requires 0.0 <= near < far
    ensures Harmonic(p, p.rMin + near, angl) < Harmonic(p, p.rMin + far, angl)
  {
    assert (p.rMin + near - p.rMin) == near && (p.rMin + far - p.rMin) == far;
    SquareIncreasing(near, far);
    assert 0.5 * p.kR * near * near < 0.5 * p.kR * far * far by {
      assert 0.5 * p.kR * near * near == (0.5 * p.kR) * (near * near);
      assert 0.5 * p.kR * far * far == (0.5 * p.kR) * (far * far);
    }
  }

  lemma SquareIncreasing(near: real, far: real)
    requires 0.0 <= near < far
    ensures near * near < far * far
  {
    assert far * far - near * near == (far - near) * (far + near);
    ProductPositive(far - near, far + near);
  }

  lemma ProductPositive(x: real, y: real)
    requires x > 0.0 && y > 0.0
    ensures x * y > 0.0
  {
  }
}
