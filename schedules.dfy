/**
 * The schedules of the two global-search scripts: `np.linspace`, the
 * randomisation amplitudes of the multi-start search
 * (excercise4_potentials/randomized_optimization.py), the temperature and
 * amplitude schedule of simulated annealing (simulated_annealing.py), and the
 * random starting vector both scripts draw.
 *
 * Random draws are parameters. The model computes in exact reals, so
 * `linspace` ends exactly on `stop`, as numpy arranges by setting the last
 * entry explicitly.
 */
module Schedules {

  /** `np.linspace(start, stop, n)`: n evenly spaced values from start to stop, both included. */
  function Linspace(start: real, stop: real, n: nat): (r: seq<real>)
    ensures |r| == n
    ensures n >= 1 ==> r[0] == start
    ensures n >= 2 ==> r[n - 1] == stop
    ensures n >= 2 ==> forall i :: 0 <= i < n - 1 ==> r[i + 1] - r[i] == (stop - start) / (n - 1) as real
  {
    if n <= 1 then seq(n, _ => start)
    else
      var step := (stop - start) / (n - 1) as real;
      var r := seq(n, i => start + i as real * step);
      StepToEnd(start, stop, n);
      r
  }

  lemma StepToEnd(start: real, stop: real, n: nat)
    requires n >= 2
    ensures start + (n - 1) as real * ((stop - start) / (n - 1) as real) == stop
  {
  }

  /** A sequence whose consecutive entries differ by a positive step is strictly increasing. */
  lemma {:induction false} EvenStepsIncrease(r: seq<real>, step: real)
    requires step > 0.0
    requires forall k :: 0 <= k < |r| - 1 ==> r[k + 1] - r[k] == step
    ensures forall i, j :: 0 <= i < j < |r| ==> r[i] < r[j]
  {
    forall i, j | 0 <= i < j < |r|
      ensures r[i] < r[j]
    {
      var k := i;
      while k < j
        invariant i <= k <= j
        invariant r[i] <= r[k]
        invariant k > i ==> r[i] < r[k]
      {
        assert r[k + 1] - r[k] == step;
        k := k + 1;
      }
    }
  }

  /** An increasing linspace is strictly increasing and stays between its ends. */
  lemma LinspaceIncreasing(start: real, stop: real, n: nat)
    requires start < stop && n >= 2
    ensures forall i, j :: 0 <= i < j < n ==> Linspace(start, stop, n)[i] < Linspace(start, stop, n)[j]
    ensures forall i :: 0 <= i < n ==> start <= Linspace(start, stop, n)[i] <= stop
  {
    var r := Linspace(start, stop, n);
    EvenStepsIncrease(r, (stop - start) / (n - 1) as real);
    assert forall i :: 0 <= i < n ==> r[0] <= r[i] <= r[n - 1] by {
      forall i | 0 <= i < n
        ensures r[0] <= r[i] <= r[n - 1]
      {
        if 0 < i { assert r[0] < r[i]; }
        if i < n - 1 { assert r[i] < r[n - 1]; }
      }
    }
  }

  /** A decreasing linspace is strictly decreasing and stays between its ends. */
  lemma LinspaceDecreasing(start: real, stop: real, n: nat)
    requires stop < start && n >= 2
    ensures forall i, j :: 0 <= i < j < n ==> Linspace(start, stop, n)[j] < Linspace(start, stop, n)[i]
    ensures forall i :: 0 <= i < n ==> stop <= Linspace(start, stop, n)[i] <= start
  {
    var r := Linspace(start, stop, n);
    var step := (stop - start) / (n - 1) as real;
    NegativeQuotient(stop - start, (n - 1) as real);
    EvenStepsDecrease(r, step);
    forall i | 0 <= i < n
      ensures r[n - 1] <= r[i] <= r[0]
    {
      if 0 < i { assert r[i] < r[0]; }
      if i < n - 1 { assert r[n - 1] < r[i]; }
    }
  }

  lemma NegativeQuotient(a: real, b: real)
    requires a < 0.0 && b > 0.0
    ensures a / b < 0.0
  {
  }

  /** A sequence whose consecutive entries differ by a negative step is strictly decreasing. */
  lemma EvenStepsDecrease(r: seq<real>, step: real)
    requires step < 0.0
    requires forall k :: 0 <= k < |r| - 1 ==> r[k + 1] - r[k] == step
    ensures forall i, j :: 0 <= i < j < |r| ==> r[j] < r[i]
  {
    var neg := seq(|r|, k requires 0 <= k < |r| => -r[k]);
    forall k | 0 <= k < |neg| - 1
      ensures neg[k + 1] - neg[k] == -step
    {
      assert r[k + 1] - r[k] == step;
    }
    EvenStepsIncrease(neg, -step);
    forall i, j | 0 <= i < j < |r|
      ensures r[j] < r[i]
    {
      assert neg[i] < neg[j];
    }
  }

  // ---------------------------------------------------------------------------
  // randomized_optimization.py
  // ---------------------------------------------------------------------------

  /** `RANDOMIZATION = np.linspace(2., 0., ITERATIONS)`. */
  function Amplitudes(iterations: nat): (r: seq<real>)
    ensures |r| == iterations
  {
    Linspace(2.0, 0.0, iterations)
  }

  /** The amplitudes fall evenly from 2 to 0, and a single iteration uses amplitude 2. */
  lemma AmplitudesFall(iterations: nat)
    ensures iterations == 1 ==> Amplitudes(iterations) == [2.0]
    ensures iterations >= 1 ==> Amplitudes(iterations)[0] == 2.0
    ensures iterations >= 2 ==> Amplitudes(iterations)[iterations - 1] == 0.0
    ensures forall i, j :: 0 <= i <= j < iterations ==> Amplitudes(iterations)[j] <= Amplitudes(iterations)[i]
    ensures forall i :: 0 <= i < iterations ==> 0.0 <= Amplitudes(iterations)[i] <= 2.0
  {
    if iterations >= 2 {
      LinspaceDecreasing(2.0, 0.0, iterations);
    }
  }

  // ---------------------------------------------------------------------------
  // simulated_annealing.py
  // ---------------------------------------------------------------------------

  /** The temperature floor added to every entry of `TEMP`. */
  const TemperatureFloor: real := 0.0000001

  /** `TIME = np.linspace(0, 1, ITERATIONS); TEMP = (1 - TIME) * 0.1 + 1e-7`. */
  function Temperatures(iterations: nat): (r: seq<real>)
    ensures |r| == iterations
  {
    var time := Linspace(0.0, 1.0, iterations);
    seq(iterations, i requires 0 <= i < iterations => (1.0 - time[i]) * 0.1 + TemperatureFloor)
  }

  /** `RANDOMIZATION = TEMP * 1.`. */
  function AnnealingAmplitudes(iterations: nat): (r: seq<real>)
    ensures |r| == iterations
  {
    var temp := Temperatures(iterations);
    seq(iterations, i requires 0 <= i < iterations => temp[i] * 1.0)
  }

  /**
   * The temperatures fall strictly from 0.1 + 1e-7 to 1e-7 and are always
   * positive; the randomisation amplitudes are the same values.
   */
  lemma TemperaturesFall(iterations: nat)
    requires iterations >= 2
    ensures Temperatures(iterations)[0] == 0.1 + TemperatureFloor
    ensures Temperatures(iterations)[iterations - 1] == TemperatureFloor
    ensures forall i, j :: 0 <= i < j < iterations ==> Temperatures(iterations)[j] < Temperatures(iterations)[i]
    ensures forall i :: 0 <= i < iterations ==> Temperatures(iterations)[i] >= TemperatureFloor > 0.0
    ensures AnnealingAmplitudes(iterations) == Temperatures(iterations)
  {
    var time := Linspace(0.0, 1.0, iterations);
    var temp := Temperatures(iterations);
    LinspaceIncreasing(0.0, 1.0, iterations);
    forall i, j | 0 <= i < j < iterations
      ensures temp[j] < temp[i]
    {
      assert time[i] < time[j];
    }
    forall i | 0 <= i < iterations
      ensures temp[i] >= TemperatureFloor
    {
      assert time[i] <= 1.0;
    }
  }

  /** Every iteration count the annealing script accepts gives positive temperatures. */
  lemma TemperaturesPositive(iterations: nat)
    ensures forall i :: 0 <= i < iterations ==> Temperatures(iterations)[i] > 0.0
  {
    if iterations >= 2 {
      TemperaturesFall(iterations);
    }
  }

  // ---------------------------------------------------------------------------
  // The random start
  // ---------------------------------------------------------------------------

  /** `np.random.rand(N_PARTICLES*3-6)*8-4` for the given uniform draws. */
  function InitialPositions(uniforms: seq<real>): (r: seq<real>)
    ensures |r| == |uniforms|
    ensures forall i :: 0 <= i < |r| && 0.0 <= uniforms[i] < 1.0 ==> -4.0 <= r[i] < 4.0
  {
    seq(|uniforms|, i requires 0 <= i < |uniforms| => uniforms[i] * 8.0 - 4.0)
  }
}
