/**
 * The multi-start search of excercise4_potentials/randomized_optimization.py:
 * K local minimisations, each started from the best point found so far moved
 * by normal noise whose amplitude falls linearly from 2 to 0.
 *
 * The minimiser, the energy and the normal draws (one vector per iteration)
 * are parameters. `best_energy = np.inf` is `None`: every finite energy is
 * below it.
 */
module RandomizedOptimization {
  import opened Wrappers
  import opened Minimization
  import Schedules

  /** The loop variables `pos0`, `best_energy` and `best_vec`. */
  datatype SearchState = SearchState(pos0: seq<real>, best: Option<real>, bestVec: seq<real>)

  /** `pos0 = POS0; best_energy = np.inf; best_vec = pos0`. */
  function Start(pos0: seq<real>): (s: SearchState)
    ensures s.best.None? && s.pos0 == s.bestVec == pos0
  {
    SearchState(pos0, None, pos0)
  }

  /** `energy < best_energy`, with None standing for infinity. */
  predicate Improves(e: real, best: Option<real>)
  {
    best.None? || e < best.value
  }

  /** Both vectors of the state have dimension d. */
  predicate HasDimension(s: SearchState, d: nat)
  {
    |s.pos0| == d && |s.bestVec| == d
  }

  /**
   * One iteration with amplitude `amplitude` and normal draws z. A failed
   * minimisation changes nothing but the next start; a converged one replaces
   * the best point when its energy is lower. Either way the next start is the
   * best point moved by the noise.
   */
  function Step(s: SearchState, amplitude: real, z: seq<real>,
                minimize: seq<real> -> Solution, energy: seq<real> -> real): (t: SearchState)
    requires PreservesLength(minimize)
    requires HasDimension(s, |z|)
    ensures HasDimension(t, |z|)
    ensures t.pos0 == Perturb(t.bestVec, z, amplitude)
    ensures !minimize(s.pos0).success ==> t.best == s.best && t.bestVec == s.bestVec
    ensures minimize(s.pos0).success ==>
      if Improves(energy(minimize(s.pos0).x), s.best)
      then t.best == Some(energy(minimize(s.pos0).x)) && t.bestVec == minimize(s.pos0).x
      else t.best == s.best && t.bestVec == s.bestVec
    ensures s.best.Some? ==> t.best.Some? && t.best.value <= s.best.value
  {
    var solution := minimize(s.pos0);
    if !solution.success then
      SearchState(Perturb(s.bestVec, z, amplitude), s.best, s.bestVec)
    else
      var e := energy(solution.x);
      if Improves(e, s.best) then SearchState(Perturb(solution.x, z, amplitude), Some(e), solution.x)
      else SearchState(Perturb(s.bestVec, z, amplitude), s.best, s.bestVec)
  }

  /** The draws fit the start: one normal vector of the start's dimension per amplitude. */
  predicate DrawsFit(pos0: seq<real>, amplitudes: seq<real>, noise: seq<seq<real>>)
  {
    |noise| == |amplitudes| && forall i :: 0 <= i < |noise| ==> |noise[i]| == |pos0|
  }

  /** The state after the first k iterations, iteration i using `amplitudes[i]` and `noise[i]`. */
  function Run(pos0: seq<real>, amplitudes: seq<real>, noise: seq<seq<real>>,
               minimize: seq<real> -> Solution, energy: seq<real> -> real, k: nat): (t: SearchState)
    requires PreservesLength(minimize) && DrawsFit(pos0, amplitudes, noise)
    requires k <= |amplitudes|
    ensures HasDimension(t, |pos0|)
    decreases k
  {
    if k == 0 then Start(pos0)
    else Step(Run(pos0, amplitudes, noise, minimize, energy, k - 1), amplitudes[k - 1], noise[k - 1], minimize, energy)
  }

  /** The start of iteration j, and what the minimiser makes of it. */
  function Trial(pos0: seq<real>, amplitudes: seq<real>, noise: seq<seq<real>>,
                 minimize: seq<real> -> Solution, energy: seq<real> -> real, j: nat): (sol: Solution)
    requires PreservesLength(minimize) && DrawsFit(pos0, amplitudes, noise)
    requires j <= |amplitudes|
    ensures |sol.x| == |pos0|
  {
    minimize(Run(pos0, amplitudes, noise, minimize, energy, j).pos0)
  }

  /**
   * The loop of lines 67-84, with `RANDOMIZATION = np.linspace(2, 0, K)`;
   * `reported` is the energy of the best vector, which is what the script
   * prints and saves.
   */
  method Search(pos0: seq<real>, iterations: nat, noise: seq<seq<real>>,
                minimize: seq<real> -> Solution, energy: seq<real> -> real)
    returns (bestVec: seq<real>, reported: real)
    requires PreservesLength(minimize) && DrawsFit(pos0, Schedules.Amplitudes(iterations), noise)
    ensures bestVec == Run(pos0, Schedules.Amplitudes(iterations), noise, minimize, energy, iterations).bestVec
    ensures |bestVec| == |pos0| && reported == energy(bestVec)
    ensures var t := Run(pos0, Schedules.Amplitudes(iterations), noise, minimize, energy, iterations);
      t.best.Some? ==> reported == t.best.value
  {
    var amplitudes := Schedules.Amplitudes(iterations);
    var pos := pos0;
    var best: Option<real> := None;
    bestVec := pos0;
    var i := 0;
    while i < iterations
      invariant 0 <= i <= iterations
      invariant SearchState(pos, best, bestVec) == Run(pos0, amplitudes, noise, minimize, energy, i)
    {
      var rnd := amplitudes[i];
      var solution := minimize(pos);
      if !solution.success {
        pos := Perturb(bestVec, noise[i], rnd);
        i := i + 1;
        continue;
      }
      var e := energy(solution.x);
      if best.None? || e < best.value {
        best := Some(e);
        bestVec := solution.x;
      }
      pos := Perturb(bestVec, noise[i], rnd);
      i := i + 1;
    }
    reported := energy(bestVec);
    BestMatchesItsVector(pos0, amplitudes, noise, minimize, energy, iterations);
  }

  /** `best_energy` is infinite or the energy of `best_vec`. */
  predicate BestIsEnergyOfBestVec(s: SearchState, energy: seq<real> -> real)
  {
    s.best.None? || s.best.value == energy(s.bestVec)
  }

  lemma {:induction false} BestMatchesItsVector(pos0: seq<real>, amplitudes: seq<real>, noise: seq<seq<real>>,
                                               minimize: seq<real> -> Solution, energy: seq<real> -> real, k: nat)
    requires PreservesLength(minimize) && DrawsFit(pos0, amplitudes, noise)
    requires k <= |amplitudes|
    ensures BestIsEnergyOfBestVec(Run(pos0, amplitudes, noise, minimize, energy, k), energy)
  {
    if k > 0 {
      BestMatchesItsVector(pos0, amplitudes, noise, minimize, energy, k - 1);
    }
  }

  /** Once finite, `best_energy` never increases, over any number of iterations. */
  lemma {:induction false} BestNeverIncreases(pos0: seq<real>, amplitudes: seq<real>, noise: seq<seq<real>>,
                                             minimize: seq<real> -> Solution, energy: seq<real> -> real, j: nat, k: nat)
    requires PreservesLength(minimize) && DrawsFit(pos0, amplitudes, noise)
    requires j <= k <= |amplitudes|
    requires Run(pos0, amplitudes, noise, minimize, energy, j).best.Some?
    ensures Run(pos0, amplitudes, noise, minimize, energy, k).best.Some?
    ensures Run(pos0, amplitudes, noise, minimize, energy, k).best.value
         <= Run(pos0, amplitudes, noise, minimize, energy, j).best.value
  {
    if j < k {
      BestNeverIncreases(pos0, amplitudes, noise, minimize, energy, j, k - 1);
    }
  }

  /**
   * After k iterations the best energy is at most the energy of every
   * converged trial so far; with no converged trial it is still infinite.
   */
  lemma {:induction false} BestBoundsEveryTrial(pos0: seq<real>, amplitudes: seq<real>, noise: seq<seq<real>>,
                                               minimize: seq<real> -> Solution, energy: seq<real> -> real, k: nat)
    requires PreservesLength(minimize) && DrawsFit(pos0, amplitudes, noise)
    requires k <= |amplitudes|
    ensures forall j :: 0 <= j < k && Trial(pos0, amplitudes, noise, minimize, energy, j).success ==>
      Run(pos0, amplitudes, noise, minimize, energy, k).best.Some? &&
      Run(pos0, amplitudes, noise, minimize, energy, k).best.value <= energy(Trial(pos0, amplitudes, noise, minimize, energy, j).x)
    ensures (forall j :: 0 <= j < k ==> !Trial(pos0, amplitudes, noise, minimize, energy, j).success) ==>
      Run(pos0, amplitudes, noise, minimize, energy, k).best.None?
  {
    if k > 0 {
      BestBoundsEveryTrial(pos0, amplitudes, noise, minimize, energy, k - 1);
      var before := Run(pos0, amplitudes, noise, minimize, energy, k - 1);
      var after := Run(pos0, amplitudes, noise, minimize, energy, k);
      forall j | 0 <= j < k && Trial(pos0, amplitudes, noise, minimize, energy, j).success
        ensures after.best.Some? && after.best.value <= energy(Trial(pos0, amplitudes, noise, minimize, energy, j).x)
      {
        if j < k - 1 {
          BestNeverIncreases(pos0, amplitudes, noise, minimize, energy, k - 1, k);
        }
      }
      if !Trial(pos0, amplitudes, noise, minimize, energy, k - 1).success {
        assert after.best == before.best;
      }
    }
  }

  /** A finite best vector is the point of some converged trial. */
  lemma {:induction false} BestComesFromATrial(pos0: seq<real>, amplitudes: seq<real>, noise: seq<seq<real>>,
                                              minimize: seq<real> -> Solution, energy: seq<real> -> real, k: nat)
    requires PreservesLength(minimize) && DrawsFit(pos0, amplitudes, noise)
    requires k <= |amplitudes|
    requires Run(pos0, amplitudes, noise, minimize, energy, k).best.Some?
    ensures exists j :: 0 <= j < k && Trial(pos0, amplitudes, noise, minimize, energy, j).success
                          && Run(pos0, amplitudes, noise, minimize, energy, k).bestVec == Trial(pos0, amplitudes, noise, minimize, energy, j).x
  {
    var before := Run(pos0, amplitudes, noise, minimize, energy, k - 1);
    var after := Run(pos0, amplitudes, noise, minimize, energy, k);
    if before.best.Some? && after.bestVec == before.bestVec {
      BestComesFromATrial(pos0, amplitudes, noise, minimize, energy, k - 1);
      var j :| 0 <= j < k - 1 && Trial(pos0, amplitudes, noise, minimize, energy, j).success
               && before.bestVec == Trial(pos0, amplitudes, noise, minimize, energy, j).x;
      assert 0 <= j < k;
    } else {
      assert Trial(pos0, amplitudes, noise, minimize, energy, k - 1).success;
    }
  }

  /**
   * With at least two iterations the last amplitude is 0, so the search ends
   * with the next start sitting exactly on the best vector.
   */
  lemma EndsOnBestVector(pos0: seq<real>, iterations: nat, noise: seq<seq<real>>,
                         minimize: seq<real> -> Solution, energy: seq<real> -> real)
    requires PreservesLength(minimize) && DrawsFit(pos0, Schedules.Amplitudes(iterations), noise)
    requires iterations >= 2
    ensures var t := Run(pos0, Schedules.Amplitudes(iterations), noise, minimize, energy, iterations);
      t.pos0 == t.bestVec
  {
    Schedules.AmplitudesFall(iterations);
    var t := Run(pos0, Schedules.Amplitudes(iterations), noise, minimize, energy, iterations);
    PerturbByZero(t.bestVec, noise[iterations - 1]);
  }
}
