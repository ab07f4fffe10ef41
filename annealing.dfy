/**
 * Simulated annealing as in excercise4_potentials/simulated_annealing.py.
 * Each iteration proposes the current point moved by normal noise. A
 * proposal with a coordinate outside [-5, 5] is skipped. Otherwise the
 * proposal may become the best point, and it becomes the current point with
 * the Metropolis probability. The best point is then refined by one local
 * minimisation.
 *
 * The energy, `exp`, the minimiser and the draws are parameters: one normal
 * vector and one uniform per iteration.
 */
module SimulatedAnnealing {
  import opened Wrappers
  import opened Minimization
  import Schedules

  /** The starting value 999 of both `best_e` and `curr_e`. */
  const Sentinel: real := 999.0

  /** The bound of the box that proposals must stay in. */
  const BoxBound: real := 5.0

  /** The loop variables, with the trace lists `energies` and `iters`. */
  datatype AnnealState = AnnealState(
    currVec: seq<real>, currE: real,
    bestVec: seq<real>, bestE: real,
    energies: seq<real>, iters: seq<nat>)

  function Start(pos0: seq<real>): (s: AnnealState)
    ensures s.currVec == s.bestVec == pos0 && s.currE == s.bestE == Sentinel
    ensures s.energies == [] && s.iters == []
  {
    AnnealState(pos0, Sentinel, pos0, Sentinel, [], [])
  }

  function Abs(x: real): real
  {
    if x < 0.0 then -x else x
  }

  /** `max(abs(test_vec) > 5.)`: some coordinate lies outside the box. */
  predicate OutOfBox(v: seq<real>)
  {
    exists k :: 0 <= k < |v| && Abs(v[k]) > BoxBound
  }

  /** The Metropolis probability `1 if dE < 0 else exp(-dE / temp)`. */
  function Acceptance(dE: real, temp: real, exp: real -> real): (p: real)
    requires temp > 0.0
    ensures dE < 0.0 ==> p == 1.0
    ensures dE >= 0.0 ==> p == exp(-dE / temp)
  {
    if dE < 0.0 then 1.0 else exp(-dE / temp)
  }

  /**
   * Iteration i with amplitude `amplitude`, temperature `temp`, normal draws z
   * and uniform draw u.
   */
  function Step(s: AnnealState, i: nat, amplitude: real, temp: real, z: seq<real>, u: real,
                energy: seq<real> -> real, exp: real -> real): (t: AnnealState)
    requires temp > 0.0 && |z| == |s.currVec|
    ensures |t.currVec| == |s.currVec|
    ensures OutOfBox(Perturb(s.currVec, z, amplitude)) ==> t == s
    ensures !OutOfBox(Perturb(s.currVec, z, amplitude)) ==>
      var test := Perturb(s.currVec, z, amplitude);
      && (if energy(test) < s.bestE then t.bestVec == test && t.bestE == energy(test)
          else t.bestVec == s.bestVec && t.bestE == s.bestE)
      && (if Acceptance(energy(test) - s.currE, temp, exp) >= u
          then t.currVec == test && t.currE == energy(test)
               && t.energies == s.energies + [energy(test)] && t.iters == s.iters + [i]
          else t.currVec == s.currVec && t.currE == s.currE
               && t.energies == s.energies && t.iters == s.iters)
  {
    var test := Perturb(s.currVec, z, amplitude);
    var testE := energy(test);
    if OutOfBox(test) then s
    else
      var (bestVec, bestE) := if testE < s.bestE then (test, testE) else (s.bestVec, s.bestE);
      if Acceptance(testE - s.currE, temp, exp) >= u
      then AnnealState(test, testE, bestVec, bestE, s.energies + [testE], s.iters + [i])
      else AnnealState(s.currVec, s.currE, bestVec, bestE, s.energies, s.iters)
  }

  /** The draws fit the start: one normal vector of its dimension and one uniform per iteration. */
  predicate DrawsFit(pos0: seq<real>, iterations: nat, normals: seq<seq<real>>, uniforms: seq<real>)
  {
    |normals| == iterations && |uniforms| == iterations
    && forall i :: 0 <= i < iterations ==> |normals[i]| == |pos0|
  }

  /** The state after the first k iterations of the schedule for `iterations` iterations. */
  function Run(pos0: seq<real>, iterations: nat, normals: seq<seq<real>>, uniforms: seq<real>,
               energy: seq<real> -> real, exp: real -> real, k: nat): (t: AnnealState)
    requires DrawsFit(pos0, iterations, normals, uniforms) && k <= iterations
    ensures |t.currVec| == |pos0|
    decreases k
  {
    if k == 0 then Start(pos0)
    else
      var s := Run(pos0, iterations, normals, uniforms, energy, exp, k - 1);
      var temps := Schedules.Temperatures(iterations);
      Schedules.TemperaturesPositive(iterations);
      Step(s, k - 1, Schedules.AnnealingAmplitudes(iterations)[k - 1], temps[k - 1],
           normals[k - 1], uniforms[k - 1], energy, exp)
  }

  /** One more iteration is one more Step, with that iteration's amplitude, temperature and draws. */
  lemma RunStep(pos0: seq<real>, iterations: nat, normals: seq<seq<real>>, uniforms: seq<real>,
                energy: seq<real> -> real, exp: real -> real, k: nat)
    requires DrawsFit(pos0, iterations, normals, uniforms) && k < iterations
    ensures Schedules.Temperatures(iterations)[k] > 0.0
    ensures Run(pos0, iterations, normals, uniforms, energy, exp, k + 1)
         == Step(Run(pos0, iterations, normals, uniforms, energy, exp, k), k,
                 Schedules.AnnealingAmplitudes(iterations)[k], Schedules.Temperatures(iterations)[k],
                 normals[k], uniforms[k], energy, exp)
  {
    Schedules.TemperaturesPositive(iterations);
  }

  /** The result of the script: the refined point and its energy, or None where it exits. */
  datatype Outcome = Outcome(bestVec: seq<real>, bestE: real)

  /**
   * Lines 97-104: a failed refinement ends the script before anything is
   * saved; otherwise the refined point replaces the best one, whatever its
   * energy.
   */
  function Refine(bestVec: seq<real>, minimize: seq<real> -> Solution, energy: seq<real> -> real): (r: Option<Outcome>)
    ensures r.None? <==> !minimize(bestVec).success
    ensures r.Some? ==> r.value.bestVec == minimize(bestVec).x && r.value.bestE == energy(r.value.bestVec)
  {
    var solution := minimize(bestVec);
    if !solution.success then None
    else Some(Outcome(solution.x, energy(solution.x)))
  }

  /**
   * The loop of lines 67-94 followed by the refinement, with the schedules
   * `TEMP` and `RANDOMIZATION` of lines 54-56.
   */
  method Anneal(pos0: seq<real>, iterations: nat, normals: seq<seq<real>>, uniforms: seq<real>,
                energy: seq<real> -> real, exp: real -> real, minimize: seq<real> -> Solution)
    returns (outcome: Option<Outcome>, energies: seq<real>, iters: seq<nat>)
    requires DrawsFit(pos0, iterations, normals, uniforms)
    ensures var t := Run(pos0, iterations, normals, uniforms, energy, exp, iterations);
      outcome == Refine(t.bestVec, minimize, energy) && energies == t.energies && iters == t.iters
    ensures |energies| == |iters|
    ensures forall a, b :: 0 <= a < b < |iters| ==> iters[a] < iters[b]
  {
    var temps := Schedules.Temperatures(iterations);
    var amplitudes := Schedules.AnnealingAmplitudes(iterations);
    Schedules.TemperaturesPositive(iterations);
    var bestE := Sentinel;
    var bestVec := pos0;
    var currE := Sentinel;
    var currVec := pos0;
    energies := [];
    iters := [];
    var i := 0;
    while i < iterations
      invariant 0 <= i <= iterations
      invariant AnnealState(currVec, currE, bestVec, bestE, energies, iters)
             == Run(pos0, iterations, normals, uniforms, energy, exp, i)
    {
      ghost var before := AnnealState(currVec, currE, bestVec, bestE, energies, iters);
      RunStep(pos0, iterations, normals, uniforms, energy, exp, i);
      var rnd := amplitudes[i];
      var temp := temps[i];
      var testVec := Perturb(currVec, normals[i], rnd);
      var testE := energy(testVec);
      if OutOfBox(testVec) {
        assert Step(before, i, rnd, temp, normals[i], uniforms[i], energy, exp) == before;
        i := i + 1;
        continue;
      }
      if testE < bestE {
        bestE := testE;
        bestVec := testVec;
      }
      var dE := testE - currE;
      var prob := if dE < 0.0 then 1.0 else exp(-dE / temp);
      assert prob == Acceptance(dE, temp, exp);
      if prob >= uniforms[i] {
        currE := testE;
        currVec := testVec;
        energies := energies + [currE];
        iters := iters + [i];
      }
      assert AnnealState(currVec, currE, bestVec, bestE, energies, iters)
          == Step(before, i, rnd, temp, normals[i], uniforms[i], energy, exp);
      i := i + 1;
    }
    outcome := Refine(bestVec, minimize, energy);
    TraceIsOrdered(pos0, iterations, normals, uniforms, energy, exp, iterations);
  }

  // ---------------------------------------------------------------------------
  // What the loop keeps
  // ---------------------------------------------------------------------------

  /** Every coordinate lies in [-5, 5]. */
  predicate InBox(v: seq<real>)
  {
    forall k :: 0 <= k < |v| ==> Abs(v[k]) <= BoxBound
  }

  /**
   * If the start lies in the box, the current and the best point never leave
   * it, because a proposal outside the box is skipped before either is
   * touched.
   */
  lemma {:induction false} StaysInBox(pos0: seq<real>, iterations: nat, normals: seq<seq<real>>, uniforms: seq<real>,
                                      energy: seq<real> -> real, exp: real -> real, k: nat)
    requires DrawsFit(pos0, iterations, normals, uniforms) && k <= iterations
    requires InBox(pos0)
    ensures InBox(Run(pos0, iterations, normals, uniforms, energy, exp, k).currVec)
    ensures InBox(Run(pos0, iterations, normals, uniforms, energy, exp, k).bestVec)
  {
    if k > 0 {
      StaysInBox(pos0, iterations, normals, uniforms, energy, exp, k - 1);
    }
  }

  /** `POS0` in [-4, 4) lies in the box. */
  lemma InitialPositionsInBox(uniforms: seq<real>)
    requires forall k :: 0 <= k < |uniforms| ==> 0.0 <= uniforms[k] < 1.0
    ensures InBox(Schedules.InitialPositions(uniforms))
  {
  }

  /**
   * The bookkeeping the loop keeps: the best energy is at most the current
   * one and at most every recorded energy; each energy is the sentinel, with
   * its vector still the start, or the energy of its vector; the last
   * recorded energy is the current one.
   */
  predicate Bookkeeping(s: AnnealState, pos0: seq<real>, energy: seq<real> -> real)
  {
    && s.bestE <= s.currE
    && (forall a :: 0 <= a < |s.energies| ==> s.bestE <= s.energies[a])
    && (s.bestE == energy(s.bestVec) || (s.bestE == Sentinel && s.bestVec == pos0))
    && (s.currE == energy(s.currVec) || (s.currE == Sentinel && s.currVec == pos0))
    && (|s.energies| > 0 ==> s.energies[|s.energies| - 1] == s.currE)
  }

  lemma {:induction false} KeepsBookkeeping(pos0: seq<real>, iterations: nat, normals: seq<seq<real>>, uniforms: seq<real>,
                                            energy: seq<real> -> real, exp: real -> real, k: nat)
    requires DrawsFit(pos0, iterations, normals, uniforms) && k <= iterations
    ensures Bookkeeping(Run(pos0, iterations, normals, uniforms, energy, exp, k), pos0, energy)
  {
    if k > 0 {
      KeepsBookkeeping(pos0, iterations, normals, uniforms, energy, exp, k - 1);
      var s := Run(pos0, iterations, normals, uniforms, energy, exp, k - 1);
      var t := Run(pos0, iterations, normals, uniforms, energy, exp, k);
      if t.energies != s.energies {
        assert t.energies == s.energies + [t.currE];
        forall a | 0 <= a < |t.energies|
          ensures t.bestE <= t.energies[a]
        {
          if a < |s.energies| {
            assert t.energies[a] == s.energies[a];
          }
        }
      }
    }
  }

  /** `best_e` never increases, over any number of iterations. */
  lemma {:induction false} BestNeverIncreases(pos0: seq<real>, iterations: nat, normals: seq<seq<real>>, uniforms: seq<real>,
                                              energy: seq<real> -> real, exp: real -> real, j: nat, k: nat)
    requires DrawsFit(pos0, iterations, normals, uniforms) && j <= k <= iterations
    ensures Run(pos0, iterations, normals, uniforms, energy, exp, k).bestE
         <= Run(pos0, iterations, normals, uniforms, energy, exp, j).bestE
  {
    if j < k {
      BestNeverIncreases(pos0, iterations, normals, uniforms, energy, exp, j, k - 1);
    }
  }

  /**
   * The trace: `energies` and `iters` grow together, and `iters` lists
   * strictly increasing iteration numbers, all below the number of
   * iterations done.
   */
  predicate TraceOrdered(s: AnnealState, k: nat)
  {
    && |s.energies| == |s.iters|
    && (forall a, b :: 0 <= a < b < |s.iters| ==> s.iters[a] < s.iters[b])
    && (forall a :: 0 <= a < |s.iters| ==> s.iters[a] < k)
  }

  lemma {:induction false} TraceIsOrdered(pos0: seq<real>, iterations: nat, normals: seq<seq<real>>, uniforms: seq<real>,
                                          energy: seq<real> -> real, exp: real -> real, k: nat)
    requires DrawsFit(pos0, iterations, normals, uniforms) && k <= iterations
    ensures TraceOrdered(Run(pos0, iterations, normals, uniforms, energy, exp, k), k)
  {
    if k > 0 {
      TraceIsOrdered(pos0, iterations, normals, uniforms, energy, exp, k - 1);
      var s := Run(pos0, iterations, normals, uniforms, energy, exp, k - 1);
      var t := Run(pos0, iterations, normals, uniforms, energy, exp, k);
      if t.iters != s.iters {
        assert t.iters == s.iters + [k - 1];
      }
    }
  }

  /**
   * A proposal inside the box whose energy is not above the current one is
   * always accepted: its probability is 1 and a uniform draw lies below 1.
   */
  lemma DownhillIsAccepted(s: AnnealState, i: nat, amplitude: real, temp: real, z: seq<real>, u: real,
                           energy: seq<real> -> real, exp: real -> real)
    requires temp > 0.0 && |z| == |s.currVec|
    requires exp(0.0) == 1.0 && 0.0 <= u < 1.0
    requires !OutOfBox(Perturb(s.currVec, z, amplitude))
    requires energy(Perturb(s.currVec, z, amplitude)) <= s.currE
    ensures Step(s, i, amplitude, temp, z, u, energy, exp).currVec == Perturb(s.currVec, z, amplitude)
    ensures Step(s, i, amplitude, temp, z, u, energy, exp).iters == s.iters + [i]
  {
    var dE := energy(Perturb(s.currVec, z, amplitude)) - s.currE;
    if dE == 0.0 {
      assert -dE / temp == 0.0;
    }
  }
}
