/**
 * The right-hand side of one-dimensional diffusion in a closed tube
 * (excercise3_kinetics/diffusion_1D.py, `D_conc`): the discrete Laplacian of
 * the concentration profile, from a zero-padded convolution, with the two end
 * cells corrected so that nothing flows through the walls.
 *
 * The same no-flux divergence is the building block of the two-dimensional
 * model, which applies it along every row and every column.
 */
module Diffusion1D {
  import opened RealSums

  /** c[k], or 0 outside the profile: the zero padding of `np.convolve`. */
  function Get(c: seq<real>, k: int): real
  {
    if 0 <= k < |c| then c[k] else 0.0
  }

  /** `np.convolve(c, [1, -2, 1], mode='same')`, for a profile of at least three cells. */
  function Laplacian(c: seq<real>): (d: seq<real>)
    requires |c| >= 3
    ensures |d| == |c|
  {
    seq(|c|, i requires 0 <= i < |c| => Get(c, i - 1) - 2.0 * c[i] + Get(c, i + 1))
  }

  /**
   * The flow from cell k to cell k + 1, driven by the difference of their
   * concentrations. There is no flow through either wall.
   */
  function Flux(c: seq<real>, k: int): real
  {
    if 0 <= k < |c| - 1 then c[k + 1] - c[k] else 0.0
  }

  /** What flows into each cell minus what flows out of it, with closed walls. */
  function NoFluxDivergence(c: seq<real>): (d: seq<real>)
    ensures |d| == |c|
  {
    seq(|c|, i => Flux(c, i) - Flux(c, i - 1))
  }

  /**
   * `D_conc`: the convolution, then `d_conc[0] += conc[0]` and
   * `d_conc[-1] += conc[-1]` in place. numpy's 'same' mode returns three
   * entries for shorter profiles, so the model takes n >= 3.
   */
  method DConc(conc: seq<real>) returns (dconc: seq<real>)
    requires |conc| >= 3
    ensures |dconc| == |conc|
    ensures forall i :: 0 < i < |conc| - 1 ==> dconc[i] == conc[i - 1] - 2.0 * conc[i] + conc[i + 1]
    ensures dconc[0] == conc[1] - conc[0]
    ensures dconc[|conc| - 1] == conc[|conc| - 2] - conc[|conc| - 1]
    ensures dconc == NoFluxDivergence(conc)
  {
    var n := |conc|;
    var lap := Laplacian(conc);
    var d := new real[n](i requires 0 <= i < n => lap[i]);
    d[0] := d[0] + conc[0];
    d[n - 1] := d[n - 1] + conc[n - 1];
    dconc := d[..];
    var div := NoFluxDivergence(conc);
    forall i | 0 <= i < n
      ensures dconc[i] == div[i]
    {
      if i == 0 {
        assert dconc[0] == lap[0] + conc[0];
      } else if i == n - 1 {
        assert dconc[n - 1] == lap[n - 1] + conc[n - 1];
      } else {
        assert dconc[i] == lap[i];
      }
    }
  }

  /** The sum of the first m entries of the divergence is the flow out of cell m - 1. */
  lemma {:induction false} DivergencePrefix(c: seq<real>, m: nat)
    requires m <= |c|
    ensures Sum(NoFluxDivergence(c)[..m]) == Flux(c, m - 1)
  {
    if m == 0 {
      assert NoFluxDivergence(c)[..0] == [];
    } else {
      DivergencePrefix(c, m - 1);
      SumPrefixStep(NoFluxDivergence(c), m - 1);
    }
  }

  /** The closed tube conserves material: the derivatives add up to zero. */
  lemma DivergenceSumsToZero(c: seq<real>)
    ensures Sum(NoFluxDivergence(c)) == 0.0
  {
    DivergencePrefix(c, |c|);
    assert NoFluxDivergence(c)[..|c|] == NoFluxDivergence(c);
  }

  /** A uniform profile does not change. */
  lemma ConstantIsSteady(c: seq<real>, v: real)
    requires forall k :: 0 <= k < |c| ==> c[k] == v
    ensures forall i :: 0 <= i < |c| ==> NoFluxDivergence(c)[i] == 0.0
  {
  }
}
