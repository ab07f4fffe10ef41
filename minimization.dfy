/**
 * What the two global-search scripts of excercise4_potentials share: the
 * answer of scipy's `minimize` (its final point and whether it converged),
 * and the random step `vec + np.random.randn(len(vec)) * amplitude`.
 *
 * The minimiser itself is a parameter. All the model asks of it is that it
 * returns a point of the same dimension as the start.
 */
module Minimization {

  /** `solution.x` and `solution.success`. */
  datatype Solution = Solution(x: seq<real>, success: bool)

  /** The minimiser answers with a point of the dimension it started from. */
  ghost predicate PreservesLength(minimize: seq<real> -> Solution)
  {
    forall v :: |minimize(v).x| == |v|
  }

  /** `v + z * amplitude`, for one vector z of normal draws. */
  function Perturb(v: seq<real>, z: seq<real>, amplitude: real): (r: seq<real>)
    requires |z| == |v|
    ensures |r| == |v|
  {
    seq(|v|, k requires 0 <= k < |v| => v[k] + z[k] * amplitude)
  }

  /** A zero amplitude, as in the last multi-start iteration, leaves the vector where it is. */
  lemma PerturbByZero(v: seq<real>, z: seq<real>)
    requires |z| == |v|
    ensures Perturb(v, z, 0.0) == v
  {
  }
}
