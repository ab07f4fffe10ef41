/**
 * The command line of the two global-search scripts
 * (excercise4_potentials/randomized_optimization.py and
 * simulated_annealing.py):
 *
 *   [program] [potential] [number of particles] [iterations] [output file]
 *
 * Both scripts run the same guards in the same order and stop at the first
 * that fails; they differ only in the least number of iterations (1 for the
 * multi-start search, 100 for annealing). Python's `int(...)` is the
 * parameter `parseInt`, None where `int` raises. The message printed before
 * each `exit()` is the error value.
 */
module OptimizerArguments {
  import opened Wrappers
  import Potentials

  /** The validated settings: `POTENTIAL`, `N_PARTICLES`, `ITERATIONS` and `FILENAME`. */
  datatype Config = Config(potential: Potentials.PotentialKind, particles: int, iterations: int, filename: string)

  datatype ArgError =
    | WrongArgumentCount
    | UnknownPotential(name: string)
    | UnparsableParticles(text: string)
    | TooFewParticles(particles: int)
    | UnparsableIterations(text: string)
    | TooFewIterations(iterations: int)
    | NotXyz(filename: string)

  predicate EndsWith(s: string, suffix: string)
  {
    |suffix| <= |s| && s[|s| - |suffix|..] == suffix
  }

  /** The least number of iterations each script accepts. */
  const MultiStartMinIterations: int := 1
  const AnnealingMinIterations: int := 100

  /** The guards of both scripts, for a given least number of iterations. */
  function Validate(argv: seq<string>, parseInt: string -> Option<int>, minIterations: int): (r: Result<Config, ArgError>)
    ensures r.Ok? <==>
      |argv| == 5 && argv[1] in Potentials.Registry
      && parseInt(argv[2]).Some? && parseInt(argv[2]).value >= 3
      && parseInt(argv[3]).Some? && parseInt(argv[3]).value >= minIterations
      && EndsWith(argv[4], ".xyz")
    ensures r.Ok? ==>
      r.value == Config(Potentials.Registry[argv[1]], parseInt(argv[2]).value, parseInt(argv[3]).value, argv[4])
    ensures |argv| != 5 ==> r == Err(WrongArgumentCount)
    ensures |argv| == 5 && argv[1] !in Potentials.Registry ==> r == Err(UnknownPotential(argv[1]))
    ensures r.Err? && r.error.TooFewIterations? ==> r.error.iterations < minIterations
    ensures r.Err? && r.error.TooFewParticles? ==> r.error.particles < 3
  {
    if |argv| != 5 then Err(WrongArgumentCount)
    else if argv[1] !in Potentials.Registry then Err(UnknownPotential(argv[1]))
    else match parseInt(argv[2])
      case None => Err(UnparsableParticles(argv[2]))
      case Some(particles) =>
        if particles < 3 then Err(TooFewParticles(particles))
        else match parseInt(argv[3])
          case None => Err(UnparsableIterations(argv[3]))
          case Some(iterations) =>
            if iterations < minIterations then Err(TooFewIterations(iterations))
            else if !EndsWith(argv[4], ".xyz") then Err(NotXyz(argv[4]))
            else Ok(Config(Potentials.Registry[argv[1]], particles, iterations, argv[4]))
  }

  /** The guards of randomized_optimization.py. */
  function MultiStartArguments(argv: seq<string>, parseInt: string -> Option<int>): (r: Result<Config, ArgError>)
    ensures r.Ok? ==> r.value.particles >= 3 && r.value.iterations >= 1 && EndsWith(r.value.filename, ".xyz")
    ensures r.Ok? ==> |argv| == 5 && argv[1] in Potentials.Registry
  {
    Validate(argv, parseInt, MultiStartMinIterations)
  }

  /** The guards of simulated_annealing.py. */
  function AnnealingArguments(argv: seq<string>, parseInt: string -> Option<int>): (r: Result<Config, ArgError>)
    ensures r.Ok? ==> r.value.particles >= 3 && r.value.iterations >= 100 && EndsWith(r.value.filename, ".xyz")
    ensures r.Ok? ==> |argv| == 5 && argv[1] in Potentials.Registry
  {
    Validate(argv, parseInt, AnnealingMinIterations)
  }

  /**
   * The two scripts accept the same command lines except for the iteration
   * count: annealing refuses counts from 1 to 99 that the multi-start search
   * accepts, and accepts nothing the other refuses.
   */
  lemma AnnealingIsStricter(argv: seq<string>, parseInt: string -> Option<int>)
    ensures AnnealingArguments(argv, parseInt).Ok? ==> MultiStartArguments(argv, parseInt) == AnnealingArguments(argv, parseInt)
    ensures MultiStartArguments(argv, parseInt).Ok? && !AnnealingArguments(argv, parseInt).Ok? ==>
      1 <= MultiStartArguments(argv, parseInt).value.iterations < 100
    ensures MultiStartArguments(argv, parseInt).Ok? && MultiStartArguments(argv, parseInt).value.iterations >= 100 ==>
      AnnealingArguments(argv, parseInt) == MultiStartArguments(argv, parseInt)
  {
  }
}
