/**
 * The second-degree surface that excercise2_gaussian/plot_old.py fits to the
 * samples around the minimum,
 *
 *   E = a + b D + c A + d D A + e D^2 + f A^2   (D distance, A angle),
 *
 * its stationary point and its Hessian.
 */
module QuadraticSurface {
  import opened Wrappers

  /** The fitted parameters `a, b, c, d, e, f`. */
  datatype Params = Params(a: real, b: real, c: real, d: real, e: real, f: real)

  /**
   * `quadratic_2D([dist, angl], *params)`. A polynomial of degree at most two
   * meets Euler's identity with its partial derivatives: twice its rise over
   * the constant term is the point dotted with the gradient plus the linear
   * coefficients.
   */
  function Quadratic2D(p: Params, dist: real, angl: real): (e: real)
    ensures 2.0 * (e - p.a) == dist * (GradDist(p, dist, angl) + p.b) + angl * (GradAngle(p, dist, angl) + p.c)
  {
    p.a + p.b * dist + p.c * angl + p.d * dist * angl + p.e * dist * dist + p.f * angl * angl
  }

  /** The partial derivative of the surface by the distance. */
  function GradDist(p: Params, dist: real, angl: real): real
  {
    p.b + p.d * angl + 2.0 * p.e * dist
  }

  /** The partial derivative of the surface by the angle. */
  function GradAngle(p: Params, dist: real, angl: real): real
  {
    p.c + p.d * dist + 2.0 * p.f * angl
  }

  /** The determinant `4 e f - d^2` of the Hessian. */
  function Determinant(p: Params): real
  {
    4.0 * p.e * p.f - p.d * p.d
  }

  /** The point `quadratic_2D_min` returns. */
  datatype Stationary = Stationary(dist: real, angl: real, energy: real)

  /**
   * `quadratic_2D_min(params)`: the angle from the determinant, then the
   * distance, then the energy there. Where the script divides by a zero
   * determinant or a zero `e` (and numpy answers inf or nan) the model
   * answers None.
   */
  function Quadratic2DMin(p: Params): (r: Option<Stationary>)
    ensures r.None? <==> p.e == 0.0 || Determinant(p) == 0.0
    ensures r.Some? ==> GradDist(p, r.value.dist, r.value.angl) == 0.0 && GradAngle(p, r.value.dist, r.value.angl) == 0.0
    ensures r.Some? ==> r.value.energy == Quadratic2D(p, r.value.dist, r.value.angl)
  {
    if p.e == 0.0 || Determinant(p) == 0.0 then None
    else
      var minAngle := (p.b * p.d - 2.0 * p.e * p.c) / Determinant(p);
      var minDistance := -(p.b + p.d * minAngle) / (2.0 * p.e);
      StationaryPoint(p, minDistance, minAngle);
      Some(Stationary(minDistance, minAngle, Quadratic2D(p, minDistance, minAngle)))
  }

  lemma StationaryPoint(p: Params, dist: real, angl: real)
    requires p.e != 0.0 && Determinant(p) != 0.0
    requires angl == (p.b * p.d - 2.0 * p.e * p.c) / Determinant(p)
    requires dist == -(p.b + p.d * angl) / (2.0 * p.e)
    ensures GradDist(p, dist, angl) == 0.0 && GradAngle(p, dist, angl) == 0.0
  {
    var den := Determinant(p);
    assert 2.0 * p.e * dist == -(p.b + p.d * angl);
    assert angl * den == p.b * p.d - 2.0 * p.e * p.c;
    calc {
      2.0 * p.e * GradAngle(p, dist, angl);
      2.0 * p.e * p.c + p.d * (2.0 * p.e * dist) + 4.0 * p.e * p.f * angl;
      2.0 * p.e * p.c - p.d * (p.b + p.d * angl) + 4.0 * p.e * p.f * angl;
      2.0 * p.e * p.c - p.d * p.b + angl * den;
      0.0;
    }
    NonZeroFactor(2.0 * p.e, GradAngle(p, dist, angl));
  }

  lemma NonZeroFactor(x: real, y: real)
    requires x != 0.0 && x * y == 0.0
    ensures y == 0.0
  {
  }

  /**
   * The point is the only stationary point: where both derivatives vanish,
   * `quadratic_2D_min` returns that very point.
   */
  lemma StationaryPointIsUnique(p: Params, dist: real, angl: real)
    requires p.e != 0.0 && Determinant(p) != 0.0
    requires GradDist(p, dist, angl) == 0.0 && GradAngle(p, dist, angl) == 0.0
    ensures Quadratic2DMin(p).Some?
    ensures Quadratic2DMin(p).value.dist == dist && Quadratic2DMin(p).value.angl == angl
  {
    var den := Determinant(p);
    assert 2.0 * p.e * dist == -(p.b + p.d * angl);
    calc {
      angl * den;
      4.0 * p.e * p.f * angl - p.d * p.d * angl;
      2.0 * p.e * (2.0 * p.f * angl) + p.d * (2.0 * p.e * dist) + p.d * p.b;
      2.0 * p.e * (GradAngle(p, dist, angl) - p.c - p.d * dist) + p.d * (2.0 * p.e * dist) + p.d * p.b;
      p.b * p.d - 2.0 * p.e * p.c;
    }
    assert angl == (p.b * p.d - 2.0 * p.e * p.c) / den;
    assert dist == -(p.b + p.d * angl) / (2.0 * p.e);
  }

  /** `quadratic_2D_hessian(params)`, rows and columns in the order distance, angle. */
  function Hessian(p: Params): (h: seq<seq<real>>)
    ensures |h| == 2 && |h[0]| == 2 && |h[1]| == 2
    ensures h[0][1] == h[1][0]
  {
    [[2.0 * p.e, p.d], [p.d, 2.0 * p.f]]
  }

  /** The quadratic form of the Hessian on a step (h, k). */
  function HessianForm(p: Params, h: real, k: real): real
  {
    var m := Hessian(p);
    m[0][0] * h * h + 2.0 * m[0][1] * h * k + m[1][1] * k * k
  }

  /**
   * The Hessian holds the second derivatives: the surface is exactly its
   * second-order Taylor expansion around any point.
   */
  lemma Taylor(p: Params, dist: real, angl: real, h: real, k: real)
    ensures Quadratic2D(p, dist + h, angl + k)
         == Quadratic2D(p, dist, angl) + GradDist(p, dist, angl) * h + GradAngle(p, dist, angl) * k
            + HessianForm(p, h, k) / 2.0
  {
    assert Quadratic2D(p, dist + h, angl + k) - Quadratic2D(p, dist, angl)
        == p.b * h + p.c * k + p.d * (dist * k + h * angl + h * k)
           + p.e * (2.0 * dist * h + h * h) + p.f * (2.0 * angl * k + k * k);
  }

  /**
   * With e > 0 and a positive determinant the Hessian is positive definite
   * and the stationary point is the global minimum of the surface.
   */
  lemma MinimumIsMinimal(p: Params, dist: real, angl: real)
    requires p.e > 0.0 && Determinant(p) > 0.0
    ensures Quadratic2DMin(p).Some?
    ensures Quadratic2DMin(p).value.energy <= Quadratic2D(p, dist, angl)
  {
    var m := Quadratic2DMin(p).value;
    var h, k := dist - m.dist, angl - m.angl;
    Taylor(p, m.dist, m.angl, h, k);
    assert dist == m.dist + h && angl == m.angl + k;
    PositiveDefinite(p, h, k);
  }

  /** 2e (e h^2 + d h k + f k^2) = (2 e h + d k)^2 + (4 e f - d^2) k^2, which is not negative. */
  lemma PositiveDefinite(p: Params, h: real, k: real)
    requires p.e > 0.0 && Determinant(p) > 0.0
    ensures HessianForm(p, h, k) >= 0.0
  {
    var s := 2.0 * p.e * h + p.d * k;
    var q := p.e * h * h + p.d * h * k + p.f * k * k;
    assert HessianForm(p, h, k) == 2.0 * q;
    assert 4.0 * p.e * q == s * s + Determinant(p) * k * k;
    Square(s);
    Square(k);
    NonNegativeProduct(Determinant(p), k * k);
    PositiveFactor(4.0 * p.e, q);
  }

  lemma Square(x: real)
    ensures x * x >= 0.0
  {
  }

  lemma NonNegativeProduct(x: real, y: real)
    requires x >= 0.0 && y >= 0.0
    ensures x * y >= 0.0
  {
  }

  lemma PositiveFactor(x: real, y: real)
    requires x > 0.0 && x * y >= 0.0
    ensures y >= 0.0
  {
  }
}
