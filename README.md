# Hückel method and computational-chemistry exercises, modelled in Dafny

The repository is a small collection of Python programs written for a
computational-chemistry course:

- **The Hückel program.** `main.py`, `parse_input.py` and `huckel_matrix.py`
  read a structure name (a linear or cyclic polyene, a platonic solid, a
  fullerene) from the command line. They build the 0/1 connectivity
  (Hückel) matrix, diagonalise it, group the orbital energies into
  degenerate levels and print a table, highest level first.
- **Exercise 4: global minimum of atom clusters.** It encodes N atoms in a
  reduced vector of 3N−6 coordinates (`utils.py`). It sums a pair potential,
  Lennard-Jones or Morse (`potentials.py`), over the strict upper triangle of
  the distance matrix. Two scripts search for the global minimum: a
  multi-start local minimiser (`randomized_optimization.py`) and simulated
  annealing (`simulated_annealing.py`).
- **Exercise 3: kinetics.**
  - No-flux diffusion stencils in one and two dimensions (`diffusion_1D.py`
    and `diffusion_2D.py`).
  - The three-state protein-folding scheme D ⇌ I ⇌ N: closed-form
    equilibrium fractions (`exact_solution.py`) and the rate equations
    (`iterative_solution.py`).
- **Exercise 2: Gaussian output of a water scan.**
  - `parse.py` turns Gaussian output into a `;`-separated table with
    normalised quotes.
  - `plot_old.py` and `calculate_frequencies.py` locate the grid minimum,
    cut out a window of samples around it and fit a quadratic or a
    harmonic surface.

The model is written in the form of each source:

- **Expressions** become functions with named results.
  - Examples: `vec_to_xyz`, `distance_matrix`, `sum_potential`, the
    potentials, the stencils, the kinetics formulae, the surface algebra.
- **Loops that update variables** become methods whose `ensures` ties the
  result to a specification function.
  - Examples: `extract_flags`, the degeneracy grouping of `print_results`,
    the weighted stencil sum of the 2D `D_conc`, `data_to_table`, the
    argument loop of `parse.py`.
- **In-place writes** are done on an `array` or an `array2`.
  - Examples: the two end corrections of the 1D `D_conc` (no loop: the
    convolution, then two `+=` on the ends), the corner writes of
    `cyclic_polyene`, the `edges` mask of the 2D stencil.
- **The two search scripts** are each a step function, a `Run` over the
  iterations, and a method whose loop is proved equal to `Run`. Lemmas
  about `Run` then state the loop's invariants:
  - the best-so-far bookkeeping;
  - the box;
  - the acceptance;
  - the trace.

Numbers are Dafny `real`s. Counts and flags are `int`/`nat`. Floating-point
rounding is not modelled.

- `sqrt` and `exp` are function parameters of the operations that use them.
  A lemma that needs a fact about them states it as a precondition, such
  as `sqrt(0) == 0` or `exp(0) == 1`.
- The scipy minimiser is a parameter that returns a point and a success
  flag.
- Random draws are sequences given as parameters, one entry per iteration.

Modules, one per file:

| file | module | models |
|---|---|---|
| `wrappers.dfy` | `Wrappers` | the `Option` and `Result` types |
| `real_sums.dfy` | `RealSums` | sums of real sequences |
| `grids.dfy` | `Grids` | row-major 2D grids: `flatten`, `reshape`, `unravel_index` |
| `potentials.dfy` | `Potentials` | `potentials.py` |
| `geometry.dfy` | `ClusterGeometry` | `utils.py` |
| `schedules.dfy` | `Schedules` | the `linspace` schedules and the start box of both search scripts |
| `minimization.dfy` | `Minimization` | the gaussian kick `x + randn·amplitude` and the minimiser's result |
| `command_line.dfy` | `OptimizerArguments` | argv validation of both search scripts |
| `multistart.dfy` | `RandomizedOptimization` | the loop of `randomized_optimization.py` |
| `annealing.dfy` | `SimulatedAnnealing` | the loop and refinement of `simulated_annealing.py` |
| `huckel_matrix.dfy` | `HuckelMatrix` | `huckel_matrix.py` |
| `parse_input.dfy` | `HuckelInput` | `parse_input.py` |
| `huckel_main.dfy` | `HuckelMain` | `print_results` and the dispatch of `main.py` |
| `diffusion_1d.dfy` | `Diffusion1D` | `D_conc` of `diffusion_1D.py` |
| `diffusion_2d.dfy` | `Diffusion2D` | `D_conc` of `diffusion_2D.py` |
| `protein_folding.dfy` | `ProteinFolding` | `exact_solution.py` and `iterative_solution.py` |
| `energy_surface.dfy` | `EnergySurface` | `find_min_energy` and the window filters of the two fitting scripts |
| `quadratic_fit.dfy` | `QuadraticSurface` | `quadratic_2D`, its minimum and Hessian |
| `harmonic_fit.dfy` | `HarmonicPotential` | `harmonic_potential` |
| `gaussian_parse.dfy` | `GaussianParse` | quote normalisation, table, argument split and quote list of `parse.py` |

## Model

| member | source | states |
|---|---|---|
| ClusterGeometry.Insert | excercise4_potentials/utils.py:10 | `np.insert(vec, 1, 0)`: one longer, the value at the given index, the entries before it unchanged and those after it shifted by one |
| ClusterGeometry.Reshape3 | excercise4_potentials/utils.py:14 | a flat sequence of length 3m becomes m points, point k made of entries 3k, 3k+1, 3k+2 |
| ClusterGeometry.Flatten | excercise4_potentials/utils.py:14 | the inverse layout: 3 entries per point, in x, y, z order |
| ClusterGeometry.VecToXyz | excercise4_potentials/utils.py:4-16 | a 3N−6 vector gives N atoms: atom 0 at the origin, atom 1 = (0,0,v0), atom 2 = (0,v1,v2), and atom k ≥ 3 made of v[3k−6..3k−4] |
| ClusterGeometry.XyzToVec | excercise4_potentials/utils.py:7 | the inverse encoding: drop the six fixed coordinates x1,y1,z1,x2,y2,x3 and get 3N−6 values |
| ClusterGeometry.VecRoundTrip | excercise4_potentials/utils.py:10-14 | decoding gives a canonical geometry, and encoding it back returns the input vector |
| ClusterGeometry.XyzRoundTrip | excercise4_potentials/utils.py:10-14 | every canonical geometry is decoded from exactly its encoding, whose length is a positive multiple of 3 |
| ClusterGeometry.VecToXyzExample | excercise4_potentials/utils.py:72 | the case of the script's assertion: [1..6] decodes to [[0,0,0],[0,0,1],[0,2,3],[4,5,6]] |
| ClusterGeometry.SquaredNorm | excercise4_potentials/utils.py:23 | the squared length of a difference vector is non-negative |
| ClusterGeometry.SquaredDistance | excercise4_potentials/utils.py:22-23 | the squared distance of two atoms is non-negative |
| ClusterGeometry.Stack | excercise4_potentials/utils.py:21 | `np.stack([xyz]*N)`: N copies of the coordinates |
| ClusterGeometry.Transpose | excercise4_potentials/utils.py:22 | `transpose(1,0,2)` swaps the two atom indices |
| ClusterGeometry.Differences | excercise4_potentials/utils.py:21-22 | `M − Mᵀ`: entry (i, j) is atom j minus atom i |
| ClusterGeometry.RootSquaredNorms | excercise4_potentials/utils.py:23-24 | entry (i, j) is sqrt of the summed squared components of difference (i, j) |
| ClusterGeometry.DistanceMatrix | excercise4_potentials/utils.py:18-25 | an N×N matrix whose entry (i, j) is sqrt of the squared distance of atoms i and j |
| ClusterGeometry.SquaredDistanceSymmetric | excercise4_potentials/utils.py:22-23 | the squared distance does not depend on the order of the two atoms |
| ClusterGeometry.DistanceMatrixSymmetric | excercise4_potentials/utils.py:21-24 | the distance matrix is symmetric |
| ClusterGeometry.DistanceMatrixDiagonal | excercise4_potentials/utils.py:18-25 | given sqrt(0) = 0 the diagonal is zero |
| ClusterGeometry.TriangleDistances | excercise4_potentials/utils.py:74-75 | the test triangle (0,0,0),(1,0,0),(0,1,0) has distances [[0,1,1],[1,0,√2],[1,√2,0]], given sqrt(0)=0 and sqrt(1)=1 |
| ClusterGeometry.Mask | excercise4_potentials/utils.py:32 | `1 − tril(ones)`: 1 strictly above the diagonal, 0 elsewhere |
| ClusterGeometry.UpperRow | excercise4_potentials/utils.py:35-36 | the potential at the entries of row i right of the diagonal: N−i−1 values |
| ClusterGeometry.SumPotential | excercise4_potentials/utils.py:27-39 | the masked-and-padded sum equals the sum of potential(D[i][j]) over pairs i < j only |
| ClusterGeometry.EnergyRow | excercise4_potentials/utils.py:36-37 | a row of the `np.where` energies sums to its upper-triangle part |
| ClusterGeometry.EnergiesRows | excercise4_potentials/utils.py:36-37 | the total of the `np.where` energy matrix from row i on is the pair sum from row i on |
| ClusterGeometry.PairSumFromUpper | excercise4_potentials/utils.py:35-36 | the pair sum from any row on depends on the upper-triangle entries only |
| ClusterGeometry.SumPotentialUpperOnly | excercise4_potentials/utils.py:35-36 | two distance matrices that agree above the diagonal give the same energy; the diagonal and lower triangle do not matter |
| ClusterGeometry.GetEnergy | excercise4_potentials/utils.py:41-46 | the energy of a vector is the pair sum over the distance matrix of its decoded geometry |
| ClusterGeometry.TriangleEnergy | excercise4_potentials/utils.py:77 | under Lennard-Jones the test triangle has energy 1/2⁶ − 1/2³, and the potential is defined at every entry it is applied to |
| Potentials.LennardJones | excercise4_potentials/potentials.py:3-10 | `1/r¹² − 1/r⁶`: negative beyond r = 1, positive inside it, zero at ±1, never below −1/4, and −1/4 where r⁶ = 2 |
| Potentials.LennardJonesAtRootTwo | excercise4_potentials/potentials.py:8-10 | at √2 the potential is 1/64 − 1/8 |
| Potentials.Pow6Facts | excercise4_potentials/potentials.py:8 | r⁶ is positive for r ≠ 0, above 1 beyond 1, below 1 inside, and 1 at ±1 |
| Potentials.PowEven | excercise4_potentials/potentials.py:8 | an even power is a power of the square, and the same for −r |
| Potentials.Morse | excercise4_potentials/potentials.py:12-18 | `(1 − exp(−(r − re)))²` is never negative, and zero where the exponential is 1 |
| Potentials.MorseAtEquilibrium | excercise4_potentials/potentials.py:17 | given exp(0) = 1, the Morse potential vanishes at r = re |
| Potentials.RegistryEntries | excercise4_potentials/potentials.py:20 | the registry holds exactly "lennard-jones", "morse-1" (re = 1) and "morse-2" (re = 2) |
| Potentials.AsFunction | excercise4_potentials/potentials.py:20 | the registered callable: defined everywhere except Lennard-Jones at 0, and equal to the named potential |
| OptimizerArguments.Validate | excercise4_potentials/randomized_optimization.py:14-50 | accepts iff there are four user arguments, a registered potential, at least 3 particles, at least the minimum of iterations and a ".xyz" file; then returns exactly those values; a wrong count and an unknown potential give their own errors, and a too-few error carries a value below its bound |
| OptimizerArguments.MultiStartArguments | excercise4_potentials/randomized_optimization.py:14-50 | an accepted command line has ≥ 3 particles, ≥ 1 iteration, a ".xyz" file and a registered potential |
| OptimizerArguments.AnnealingArguments | excercise4_potentials/simulated_annealing.py:15-51 | the same guards, with ≥ 100 iterations |
| OptimizerArguments.AnnealingIsStricter | excercise4_potentials/simulated_annealing.py:43-45 | the two command lines differ only for 1 to 99 iterations: there the annealing script refuses and the multi-start script accepts |
| Schedules.Linspace | excercise4_potentials/randomized_optimization.py:55 | `np.linspace`: n values, first `start`, last `stop`, with equal steps |
| Schedules.StepToEnd | excercise4_potentials/randomized_optimization.py:55 | n−1 equal steps from start reach stop |
| Schedules.EvenStepsIncrease | excercise4_potentials/randomized_optimization.py:55 | a sequence with a constant positive step is strictly increasing |
| Schedules.EvenStepsDecrease | excercise4_potentials/randomized_optimization.py:55 | a sequence with a constant negative step is strictly decreasing |
| Schedules.LinspaceIncreasing | excercise4_potentials/simulated_annealing.py:54 | an increasing linspace is strictly increasing and stays within [start, stop] |
| Schedules.LinspaceDecreasing | excercise4_potentials/randomized_optimization.py:55 | a decreasing linspace is strictly decreasing and stays within [stop, start] |
| Schedules.Amplitudes | excercise4_potentials/randomized_optimization.py:55 | one amplitude per iteration |
| Schedules.AmplitudesFall | excercise4_potentials/randomized_optimization.py:55 | the amplitudes fall from 2 to 0, never increase and stay within [0, 2]; just [2] for one iteration |
| Schedules.Temperatures | excercise4_potentials/simulated_annealing.py:54-55 | one temperature per iteration |
| Schedules.AnnealingAmplitudes | excercise4_potentials/simulated_annealing.py:56 | one amplitude per iteration |
| Schedules.TemperaturesFall | excercise4_potentials/simulated_annealing.py:54-56 | the temperatures fall strictly from 0.1 + 1e−7 to 1e−7, never below 1e−7, and the amplitudes are the temperatures |
| Schedules.TemperaturesPositive | excercise4_potentials/simulated_annealing.py:55 | every temperature is positive, so the Metropolis quotient is defined |
| Schedules.InitialPositions | excercise4_potentials/randomized_optimization.py:58 | `rand·8 − 4`: uniform draws in [0, 1) give coordinates in [−4, 4) |
| Minimization.Perturb | excercise4_potentials/randomized_optimization.py:84 | the next start `best_vec + randn·rnd` has the dimension of the vector |
| Minimization.PerturbByZero | excercise4_potentials/randomized_optimization.py:84 | with amplitude 0 the kick leaves the vector unchanged |
| RandomizedOptimization.Start | excercise4_potentials/randomized_optimization.py:67-69 | no best energy yet (+∞), and the best vector and the start are the initial vector |
| RandomizedOptimization.Step | excercise4_potentials/randomized_optimization.py:71-84 | a failed minimisation keeps the best; a successful one replaces it exactly when its energy is lower; either way the next start is the best vector kicked by the amplitude, and the best never rises |
| RandomizedOptimization.Run | excercise4_potentials/randomized_optimization.py:70-84 | after k iterations every vector still has the start's dimension |
| RandomizedOptimization.Trial | excercise4_potentials/randomized_optimization.py:71 | the minimiser's answer in iteration j has the start's dimension |
| RandomizedOptimization.Search | excercise4_potentials/randomized_optimization.py:67-90 | the loop ends on the best vector of `Run` over all iterations, and the reported energy is the energy of that vector, equal to the best energy when one was found |
| RandomizedOptimization.BestMatchesItsVector | excercise4_potentials/randomized_optimization.py:78-81 | invariant: the best energy is +∞ or the energy of the best vector |
| RandomizedOptimization.BestNeverIncreases | excercise4_potentials/randomized_optimization.py:79-81 | once found, the best energy never increases from iteration j to k |
| RandomizedOptimization.BestBoundsEveryTrial | excercise4_potentials/randomized_optimization.py:72-81 | the best energy is at most the energy of every successful trial so far, and stays +∞ when every trial failed |
| RandomizedOptimization.BestComesFromATrial | excercise4_potentials/randomized_optimization.py:79-81 | a best vector, once found, is the answer of some successful trial |
| RandomizedOptimization.EndsOnBestVector | excercise4_potentials/randomized_optimization.py:84 | with the last amplitude 0, the final start is the best vector itself |
| SimulatedAnnealing.Start | excercise4_potentials/simulated_annealing.py:67-72 | current and best both start at the initial vector with the 999 sentinel, and the trace is empty |
| SimulatedAnnealing.Acceptance | excercise4_potentials/simulated_annealing.py:84-88 | the Metropolis probability: 1 downhill, exp(−dE/T) otherwise |
| SimulatedAnnealing.Step | excercise4_potentials/simulated_annealing.py:74-94 | a proposal outside the box changes nothing; otherwise best is replaced exactly when the proposal is lower, and the proposal is accepted exactly when the probability reaches the draw, in which case it becomes current and (i, energy) is appended to the trace |
| SimulatedAnnealing.Run | excercise4_potentials/simulated_annealing.py:73-94 | after k iterations the current vector keeps the start's dimension |
| SimulatedAnnealing.RunStep | excercise4_potentials/simulated_annealing.py:73 | iteration k uses amplitude k, temperature k (positive) and draw k |
| SimulatedAnnealing.Refine | excercise4_potentials/simulated_annealing.py:97-104 | no result when the minimiser fails; otherwise best becomes the refined point unconditionally, with its energy |
| SimulatedAnnealing.Anneal | excercise4_potentials/simulated_annealing.py:67-104 | the loop's outcome is the refinement of `Run`'s best vector and its trace is `Run`'s, of equal lengths and with strictly increasing iteration numbers |
| SimulatedAnnealing.StaysInBox | excercise4_potentials/simulated_annealing.py:77-78 | from a start inside [−5, 5], the current and the best vector never leave it |
| SimulatedAnnealing.InitialPositionsInBox | excercise4_potentials/simulated_annealing.py:59 | the random start lies inside the box |
| SimulatedAnnealing.KeepsBookkeeping | excercise4_potentials/simulated_annealing.py:67-94 | invariant: best ≤ current and ≤ every traced energy; each is the sentinel at the start or the energy of its vector; the last traced energy is the current one |
| SimulatedAnnealing.BestNeverIncreases | excercise4_potentials/simulated_annealing.py:80-82 | the best energy never increases from iteration j to k |
| SimulatedAnnealing.TraceIsOrdered | excercise4_potentials/simulated_annealing.py:90-94 | the trace lists have equal length, and the iteration numbers strictly increase and stay below the iterations done |
| SimulatedAnnealing.DownhillIsAccepted | excercise4_potentials/simulated_annealing.py:84-94 | given exp(0) = 1, a proposal in the box that is not uphill is always accepted and traced |
| HuckelMatrix.LinearPolyene | huckel_matrix.py:5-11 | n×n with entry (i, j) = 1 exactly when \|i − j\| = 1; symmetric with a zero diagonal |
| HuckelMatrix.LinearPolyeneExamples | huckel_matrix.py:48-53 | the cases n = 2 and n = 3 of `test_linear_polyene` |
| HuckelMatrix.LinearPolyeneDegrees | huckel_matrix.py:7-9 | for n ≥ 2 the end atoms have one neighbour and every other atom two |
| HuckelMatrix.CyclicMatrix | huckel_matrix.py:13-19 | an n×n matrix equal to the chain matrix except at the two ring corners (n−1, 0) and (0, n−1), which are 1; CyclicAdjacency below states it is the ring's adjacency |
| HuckelMatrix.CyclicPolyene | huckel_matrix.py:13-19 | the linear matrix with the two corners (n−1, 0) and (0, n−1) set to 1, and nothing else changed |
| HuckelMatrix.CyclicAdjacency | huckel_matrix.py:15-17 | for n ≥ 3 entry (i, j) is 1 exactly when i and j are neighbours on the ring (j = i ± 1 mod n) |
| HuckelMatrix.CyclicShape | huckel_matrix.py:15-17 | for n ≥ 3 the ring matrix is symmetric with a zero diagonal |
| HuckelMatrix.CyclicDegrees | huckel_matrix.py:15-17 | for n ≥ 3 every ring atom has exactly two neighbours |
| HuckelMatrix.CyclicPolyeneExamples | huckel_matrix.py:55-60 | the cases n = 3 and n = 4 of `test_cyclic_polyene` |
| HuckelMatrix.PlatonicSolid | huckel_matrix.py:22-41 | an atom count of a solid gives that solid's table; an error only when no solid has that count |
| HuckelMatrix.PlatonicSizes | huckel_matrix.py:26-39 | the lookup succeeds exactly for 4, 6, 8, 12, 20 and 60 |
| HuckelInput.ExtractFlags | parse_input.py:28-53 | the loop's flags and arguments are the flag and positional filters of argv[1:] |
| HuckelInput.FlagOf | parse_input.py:38-49 | an argument contributes a flag only when it starts with "-", and the flag is "optimized" or "help" |
| HuckelInput.Flags | parse_input.py:37-49 | at most one flag per argument, each "optimized" or "help" |
| HuckelInput.Positional | parse_input.py:37-51 | at most as many values as arguments, each one of the arguments and none starting with "-" |
| HuckelInput.ShortFlagValues | parse_input.py:26 | the short-flag table maps onto exactly {"optimized", "help"} |
| HuckelInput.LongFlagForms | parse_input.py:38-49 | an argument yields "optimized" exactly when it is "--optimized" or "-o", and "help" exactly when it is "--help" or "-h" |
| HuckelInput.FlagMembership | parse_input.py:37-49 | a flag is in the list exactly when one of its two spellings occurs in the arguments |
| HuckelInput.PositionalMembership | parse_input.py:37-51 | the arguments kept are exactly those not starting with "-" |
| HuckelInput.PositionalAppend | parse_input.py:37-51 | the positional filter keeps the order: it distributes over concatenation |
| HuckelInput.Decide | parse_input.py:60-121 | each branch of `parse_user_input`: no_calc with 0 for no argument, an unknown name, a polyene without count or an unparsable count; a solid name gives its count; "platonic", "cyclic_polyene" and "linear_polyene" need a count in the table, ≥ 3 and ≥ 2; the flags are passed through |
| HuckelInput.ParseUserInput | parse_input.py:55-124 | the returned flags are those extracted from argv, all of them known |
| HuckelInput.ExtraArgumentsIgnored | parse_input.py:83-91 | arguments beyond the second change nothing |
| HuckelInput.PlatonicCounts | parse_input.py:6 | the solids have 4, 6, 8, 12, 20 and 60 atoms |
| HuckelMain.BumpLast | main.py:57 | `degeneracies[-1] += 1`: only the last count grows, by one |
| HuckelMain.OffsetMonotone | main.py:57-60 | the start index of a level never decreases with the level |
| HuckelMain.GroupedStart | main.py:53-54 | after the first sorted energy is read, one level of size 1 represented by it satisfies the grouping invariant |
| HuckelMain.GroupedJoin | main.py:56-57 | an energy within 1e−5 of the last representative joins the last level and keeps the invariant |
| HuckelMain.GroupedOpen | main.py:58-60 | an energy at least 1e−5 above the last representative opens a new level of size 1 and keeps the invariant |
| HuckelMain.LastRepresentativeBelow | main.py:52-58 | with sorted input the last representative is at most the next energy |
| HuckelMain.GroupDegeneracies | main.py:49-60 | the levels' sizes are all ≥ 1 and add up to the number of energies; each level is a consecutive run of the sorted energies that starts at its representative; every member is within 1e−5 of it; representatives are at least 1e−5 apart and are input values |
| HuckelMain.Reverse | main.py:66 | `[::-1]`: the same length, read from the end |
| HuckelMain.ResultRows | main.py:66-67 | the rows go from the last level to the first, labelled with index + 1, each with its energy and degeneracy |
| HuckelMain.ResultRowsDescend | main.py:66-67 | consecutive rows fall by at least 1e−5 in energy and by one in label |
| HuckelMain.Dispatch | main.py:74-86 | "no_calc" runs nothing; otherwise exactly the calculation matching the structure runs, optimized when the flag was given |
| HuckelMain.Hamiltonian | main.py:11-46 | a result exists exactly for a Platonic calculation (the table entry of the solid with that atom count, or the error `platonic_solid` raises when no solid has it) and for an unoptimized polyene of at least one atom (a square matrix of the requested size) |
| HuckelMain.DispatchIsSafe | main.py:76-86 | for every command line, a platonic calculation finds its table, and an unoptimized polyene builds its linear or ring matrix for at least 2 or 3 atoms |
| Diffusion1D.Laplacian | excercise3_kinetics/diffusion_1D.py:14-15 | the zero-padded `[1, −2, 1]` convolution keeps the length |
| Diffusion1D.NoFluxDivergence | excercise3_kinetics/diffusion_1D.py:14-19 | the stencil with its edge correction keeps the length |
| Diffusion1D.DConc | excercise3_kinetics/diffusion_1D.py:13-21 | interior cells get c[i−1] − 2c[i] + c[i+1], the ends c[1] − c[0] and c[n−2] − c[n−1]; the result is the divergence of the no-flux fluxes |
| Diffusion1D.DivergencePrefix | excercise3_kinetics/diffusion_1D.py:18-19 | the first m derivatives add up to the flux through the boundary after cell m−1 |
| Diffusion1D.DivergenceSumsToZero | excercise3_kinetics/diffusion_1D.py:18-19 | the derivatives sum to zero: the amount of substance is conserved |
| Diffusion1D.ConstantIsSteady | excercise3_kinetics/diffusion_1D.py:14-19 | a constant profile has an all-zero derivative |
| Diffusion2D.Reshape | excercise3_kinetics/diffusion_2D.py:24 | `np.reshape`: a rows × cols grid whose row-major flattening is the input |
| Diffusion2D.Convolved | excercise3_kinetics/diffusion_2D.py:27-28 | the zero-padded five-point convolution keeps the shape |
| Diffusion2D.EdgeGrid | excercise3_kinetics/diffusion_2D.py:31-35 | the edge mask has the grid's shape |
| Diffusion2D.Weighted | excercise3_kinetics/diffusion_2D.py:36 | `Dconc += edges*conc` keeps the shape |
| Diffusion2D.Derivative | excercise3_kinetics/diffusion_2D.py:27-36 | the corrected stencil keeps the shape |
| Diffusion2D.EdgeMask | excercise3_kinetics/diffusion_2D.py:31-35 | the four in-place `+= 1` updates leave in every cell the number of grid sides it touches |
| Diffusion2D.EdgeCountSides | excercise3_kinetics/diffusion_2D.py:31-35 | on grids of at least 2 rows and 2 columns, the count is 0 exactly inside, 2 exactly at a corner, and never above 2 |
| Diffusion2D.AddWeighted | excercise3_kinetics/diffusion_2D.py:36 | the in-place update leaves the weighted sum in every cell |
| Diffusion2D.GridDerivative | excercise3_kinetics/diffusion_2D.py:27-36 | the convolution followed by the in-place edge correction computes the derivative |
| Diffusion2D.DConc | excercise3_kinetics/diffusion_2D.py:22-39 | the flat derivative has rows·cols entries, the row-major flattening of the derivative of the reshaped input |
| Diffusion2D.DerivativeCell | excercise3_kinetics/diffusion_2D.py:28-36 | each cell is its convolution value plus its edge count times itself |
| Diffusion2D.DerivativeAt | excercise3_kinetics/diffusion_2D.py:27-36 | each cell is four neighbours (0 outside) − 4·self, plus self once for each missing side |
| Diffusion2D.ReflectingWalls | excercise3_kinetics/diffusion_2D.py:27-36 | a missing neighbour counts as the cell itself; an interior cell is the plain five-point Laplacian |
| Diffusion2D.RowsAndColumns | excercise3_kinetics/diffusion_2D.py:27-36 | the 2D derivative is the 1D no-flux derivative of the row plus that of the column |
| Diffusion2D.SumFlatten | excercise3_kinetics/diffusion_2D.py:39 | flattening keeps the total |
| Diffusion2D.TotalByColumns | excercise3_kinetics/diffusion_2D.py:31-36 | the grid total is the sum of the column totals |
| Diffusion2D.DerivativeSumsToZero | excercise3_kinetics/diffusion_2D.py:31-39 | the flat derivative sums to zero: the closed container conserves the substance |
| Diffusion2D.ConstantIsSteady | excercise3_kinetics/diffusion_2D.py:27-36 | a constant field has an all-zero derivative |
| Grids.RowStartIsProduct | excercise3_kinetics/diffusion_2D.py:39 | row i of a flattened grid starts at i·cols |
| Grids.FlattenIndex | excercise3_kinetics/diffusion_2D.py:39 | the flattening has rows·cols entries, cell (i, j) at i·cols + j |
| Grids.Unravel | excercise2_gaussian/plot_old.py:26-27 | `unravel_index`: flat position k holds cell (k / cols, k % cols) |
| ProteinFolding.RateAt | excercise3_kinetics/protein_folding/iterative_solution.py:18-21 | a rate `k0·exp(a·c)` with positive k0 is positive whenever the exponential is |
| ProteinFolding.GetRateConstants | excercise3_kinetics/protein_folding/iterative_solution.py:16-22 | with a positive exponential all four rate constants are positive |
| ProteinFolding.GetEquilibriumConstants | excercise3_kinetics/protein_folding/exact_solution.py:9-18 | both equilibrium constants are forward over backward rate, and positive |
| ProteinFolding.Fractions | excercise3_kinetics/protein_folding/exact_solution.py:25-27 | for positive constants D + I + N = 1, each strictly between 0 and 1, with I = D·K15 and N = I·K16 |
| ProteinFolding.FractionsSumToOne | excercise3_kinetics/protein_folding/exact_solution.py:25-27 | D, D·K15 and D·K15·K16 add up to 1 and are positive |
| ProteinFolding.GetFractionalComposition | excercise3_kinetics/protein_folding/exact_solution.py:20-29 | the composition at a urea concentration is a distribution tied by both equilibrium constants |
| ProteinFolding.DConc | excercise3_kinetics/protein_folding/iterative_solution.py:25-34 | dD = I·ku15 − D·kf15 and dN = I·kf16 − N·ku16, in the order D, I, N, and the three derivatives sum to zero |
| ProteinFolding.EquilibriumIsSteady | excercise3_kinetics/protein_folding/iterative_solution.py:25-34 | at the exact composition for the same urea concentration every derivative vanishes |
| ProteinFolding.SteadyAt | excercise3_kinetics/protein_folding/iterative_solution.py:30-32 | any composition in the equilibrium ratios of the rate constants is a steady state |
| EnergySurface.ArgMin | excercise2_gaussian/plot_old.py:26 | `np.argmin`: an index of the smallest value, the first such |
| EnergySurface.MinCell | excercise2_gaussian/plot_old.py:26-27 | the unravelled cell of the first minimum; none for an empty grid |
| EnergySurface.MinCellIsFirstMinimum | excercise2_gaussian/plot_old.py:25-29 | the cell's energy is at most every grid energy and strictly below those earlier in row-major order |
| EnergySurface.FindMinGeometry | excercise2_gaussian/plot_old.py:25-29 | a distance and angle on the grid where the energy is smallest, and of those the first in row-major order (every earlier cell has a strictly higher energy), as `argmin` and `unravel_index` pick it; none iff the grid is empty |
| EnergySurface.FindMinEnergy | excercise2_gaussian/calculate_frequencies.py:32-37 | the same first row-major minimum together with its energy, which is at most every grid energy; none iff the grid is empty |
| EnergySurface.FirstMinimumIsUnique | excercise2_gaussian/plot_old.py:25-29 | at most one cell is the first minimum in row-major order, so the two contracts above determine the cell |
| EnergySurface.FindMinAgree | excercise2_gaussian/calculate_frequencies.py:32-37 | both scripts' `find_min_energy` pick the same distance and angle |
| EnergySurface.Filter | excercise2_gaussian/plot_old.py:72-73 | a boolean-mask selection: no longer than its input, every kept row passes |
| EnergySurface.FilterMembership | excercise2_gaussian/plot_old.py:72-73 | a row is kept exactly when it is in the input and passes |
| EnergySurface.FilterAppend | excercise2_gaussian/plot_old.py:72-73 | the selection keeps the order: it distributes over concatenation |
| EnergySurface.FilterTwice | excercise2_gaussian/plot_old.py:71-73 | two successive masks select what their conjunction selects |
| EnergySurface.Window | excercise2_gaussian/calculate_frequencies.py:62-64 | every sample kept is within ±δ of the centre in both distance and angle |
| EnergySurface.WindowKeepsExactly | excercise2_gaussian/plot_old.py:71-73 | the two masks keep exactly the samples within the window, in their order |
| EnergySurface.QuadraticFitSamples | excercise2_gaussian/plot_old.py:69-73 | the samples handed to the quadratic fit are the window around the grid minimum |
| EnergySurface.HarmonicFitSetup | excercise2_gaussian/calculate_frequencies.py:55-68 | the window is centred on the given distance and angle or else on the grid minimum, and the initial guess is [minimum energy, 1, 1e−5, centre] |
| EnergySurface.DefaultCentresAgree | excercise2_gaussian/calculate_frequencies.py:55-64 | without given centres, the harmonic fit sees the same samples as the quadratic fit |
| QuadraticSurface.Quadratic2D | excercise2_gaussian/plot_old.py:40-42 | the surface meets Euler's identity with its two partial derivatives, so it is a polynomial of degree at most two in distance and angle; its Hessian, stationary point and minimum are stated by Taylor, StationaryPoint, StationaryPointIsUnique and MinimumIsMinimal below |
| QuadraticSurface.Quadratic2DMin | excercise2_gaussian/plot_old.py:44-51 | defined exactly when e ≠ 0 and 4ef − d² ≠ 0; then both partial derivatives vanish at the point and its energy is the surface there |
| QuadraticSurface.StationaryPoint | excercise2_gaussian/plot_old.py:47-48 | the script's two formulae solve the stationarity equations |
| QuadraticSurface.StationaryPointIsUnique | excercise2_gaussian/plot_old.py:44-51 | any point where both derivatives vanish is the point returned |
| QuadraticSurface.Hessian | excercise2_gaussian/plot_old.py:53-61 | a symmetric 2×2 matrix |
| QuadraticSurface.Taylor | excercise2_gaussian/plot_old.py:53-61 | the surface equals its second-order expansion with this Hessian at every point, so the Hessian holds the second derivatives |
| QuadraticSurface.PositiveDefinite | excercise2_gaussian/plot_old.py:53-61 | with e > 0 and a positive determinant the Hessian form is never negative |
| QuadraticSurface.MinimumIsMinimal | excercise2_gaussian/plot_old.py:44-51 | then the returned point is the global minimum of the surface |
| HarmonicPotential.Harmonic | excercise2_gaussian/calculate_frequencies.py:39-46 | at (r_min, θ_min) the potential is E_min, and with non-negative force constants it is never below E_min |
| HarmonicPotential.Symmetric | excercise2_gaussian/calculate_frequencies.py:44 | the same value at r_min ± δ for a fixed angle, and at θ_min ± δ for a fixed distance |
| HarmonicPotential.RisesAwayFromMinimum | excercise2_gaussian/calculate_frequencies.py:44 | with k_r > 0 the potential rises strictly with the distance from r_min |
| GaussianParse.RemoveNewlines | excercise2_gaussian/parse.py:50 | no newline is left, and every other character is kept |
| GaussianParse.StripStart | excercise2_gaussian/parse.py:51 | a suffix that starts with a non-space; only whitespace was removed |
| GaussianParse.StripEnd | excercise2_gaussian/parse.py:51 | a prefix that ends with a non-space; only whitespace was removed |
| GaussianParse.Strip | excercise2_gaussian/parse.py:51 | `strip()`: neither end is whitespace, and no new character appears |
| GaussianParse.CollapseSpaces | excercise2_gaussian/parse.py:52 | `re.sub(" {2,}", " ")`: no double space is left, no new character appears, and the first and last characters are kept |
| GaussianParse.CollapseLeavesSingleSpaces | excercise2_gaussian/parse.py:52 | a text without double spaces is left unchanged |
| GaussianParse.CollapseIsIdempotent | excercise2_gaussian/parse.py:52 | collapsing twice is collapsing once |
| GaussianParse.ReplaceSemicolons | excercise2_gaussian/parse.py:53 | every ';' becomes ',' and every other character stays in place |
| GaussianParse.NormaliseQuote | excercise2_gaussian/parse.py:49-53 | the stored quote has no newline, no ';', no double space, and no whitespace at either end |
| GaussianParse.QuoteHasNoSemicolon | excercise2_gaussian/parse.py:53 | so it never breaks the ';'-separated output |
| GaussianParse.Row | excercise2_gaussian/parse.py:88 | five cells in the order filename, energy, distance, angle, quote |
| GaussianParse.Table | excercise2_gaussian/parse.py:86-88 | one row more than records, all of five columns |
| GaussianParse.DataToTable | excercise2_gaussian/parse.py:85-91 | the loop gives the header row followed by each record's row, in order |
| GaussianParse.Positional | excercise2_gaussian/parse.py:99-105 | the arguments kept are exactly those other than "--full" and "--quotes" |
| GaussianParse.PositionalAppend | excercise2_gaussian/parse.py:99-105 | they are kept in order |
| GaussianParse.SplitArguments | excercise2_gaussian/parse.py:96-105 | the loop keeps the positional arguments and sets each flag exactly when it occurs |
| GaussianParse.ParseCommand | excercise2_gaussian/parse.py:107-115 | accepted exactly when two arguments remain and the first is a folder; the mode is quotes-only when "--quotes" occurs, else full when "--full" occurs |
| GaussianParse.DataColumns | excercise2_gaussian/parse.py:134-135 | `data[:,1:4]`: energy, distance and angle of each row |
| GaussianParse.DataColumnsOfTable | excercise2_gaussian/parse.py:134-136 | the default output is the header energy, distance, angle, then those three cells of every record |
| GaussianParse.StringLessIrreflexive | excercise2_gaussian/parse.py:131 | string order: no string is below itself |
| GaussianParse.StringLessTotal | excercise2_gaussian/parse.py:131 | of two different strings one is below the other |
| GaussianParse.StringLessTransitive | excercise2_gaussian/parse.py:131 | the order is transitive |
| GaussianParse.Insert | excercise2_gaussian/parse.py:129-131 | inserting into a strictly ascending list keeps it strictly ascending and adds exactly that element |
| GaussianParse.SortedUnique | excercise2_gaussian/parse.py:129-131 | `sorted(set(...))`: strictly ascending, with exactly the input's elements |
| GaussianParse.AscendingIsUnique | excercise2_gaussian/parse.py:129-131 | a strictly ascending list is determined by its elements |
| GaussianParse.QuoteColumn | excercise2_gaussian/parse.py:128 | `data[:,4]`: the fifth cell of every row |
| GaussianParse.Quotes | excercise2_gaussian/parse.py:88 | the quote of every record, in order |
| GaussianParse.QuoteColumnOfTable | excercise2_gaussian/parse.py:86-88 | the quote column is the header "quote" followed by the records' quotes |
| GaussianParse.SavedQuotes | excercise2_gaussian/parse.py:126-131 | the quotes-only output is strictly ascending, duplicate-free, and holds exactly "quote" and the records' quotes |
| GaussianParse.SplitCells | excercise2_gaussian/parse.py:136 | splitting a line at ';' gives at least one cell |
| GaussianParse.JoinCells | excercise2_gaussian/parse.py:136 | the `savetxt` line starts with the first cell and, when no cell holds a ';', has exactly one ';' per pair of neighbouring cells |
| GaussianParse.SplitJoin | excercise2_gaussian/parse.py:136 | cells without ';' joined with ';' split back into the same cells |
| GaussianParse.FullRowReadsBack | excercise2_gaussian/parse.py:136 | a full-table row whose other cells have no ';' reads back unchanged, because the quote never has one |

## Left out

- Floating-point arithmetic: all numbers are exact reals, so rounding, `inf` and `nan` are not modelled.
- `sqrt`, `exp`, `cos`, `arcsin` and `np.linalg.eigh` are not defined.
  - `sqrt` and `exp` are parameters, and the facts a lemma needs about them are its preconditions.
  - The eigenvalue solver and the closed-form Hückel energies of `main.py` (lines 23-24 and 38-39) are not modelled. `HuckelMain.Hamiltonian` stops at the matrix that would be diagonalised.
- HuckelMain.GroupDegeneracies: takes the sorted energies as a parameter, required sorted and a permutation of the raw energies, instead of calling `np.sort` itself.
- The `adjacency_matrices` module is not part of this model. `HuckelMatrix.PlatonicSolid` takes its tables as a function parameter.
- The scipy calls are not modelled.
  - `minimize` is a parameter that returns a point and a success flag. RandomizedOptimization requires it to keep the dimension. `curve_fit` and `solve_ivp` are left out.
  - The fitting scripts are modelled up to the samples and the initial guess handed to `curve_fit`.
  - The ODE scripts are modelled up to the derivative function handed to `solve_ivp`.
- Random draws are not modelled as a stream.
  - The normal and uniform draws are sequences with one entry per iteration, and no distribution is modelled.
  - SimulatedAnnealing.Anneal: in the script, an iteration whose proposal leaves the box draws no uniform number, so later iterations read the global stream one place earlier. The model gives every iteration its own uniform draw.
- RandomizedOptimization.Start: the initial `best_energy = np.inf` is represented as `None`.
- QuadraticSurface.Quadratic2DMin: where the script divides by a zero `e` or a zero determinant, numpy returns `inf` or `nan`; the model returns `None`.
- OptimizerArguments.Validate, HuckelInput.ParseUserInput: Python's `int()` is a parameter `parseInt` that returns `None` where the script's `int()` raises.
- GaussianParse.ParseCommand: `os.path.isdir` is a parameter `isDir`.
- The program-exit paths are not modelled as control flow. `exit()` after an error and the early exit after a failed refinement appear only as the `Err` and `None` results.
- File I/O, regex search and formatting are not modelled.
  - Not modelled: `parse_file`, with its regex search over the Gaussian output, its float formatting and the bond-angle formula at `parse.py:62`.
  - Not modelled: `process_folder`, `np.savetxt`, `load_data` (`genfromtxt`, `unique`, `lexsort`) and `astype(str)`.
  - EnergySurface therefore takes the grid of distances, angles and energies as given, with the raw samples beside it.
- Output is not modelled: all printing, logging, timing, the help text, `distance_matrix_to_str`, `save_coordinates` and every plot and animation.
- `estimate_frequencies_with_estimated_limits`, `calculate_frequencies` and `estimate_classical_limits` are not modelled.
  - The first is an iterative curve-fitting loop over scipy fits.
  - Its clamp assigns into the tuple returned by `estimate_classical_limits`, which Python refuses at run time.
  - The other two are SI-unit conversions under `sqrt`.
- The protein-folding main loops only call `solve_ivp` and store its result, so they are not modelled.
- Scripts outside the core are not modelled: the reaction-diffusion scripts (`2D_reaction.py`, `belousov_zhabotinsky_reaction.py`), the scratch diffusion tests and the Oregonator scripts. They are exp-heavy ODE integrations with no exact property to state.
- Diffusion1D.DConc: requires at least three cells. For shorter input `np.convolve(..., mode='same')` returns three values, not as many as the input, and the script is only ever run on 100 cells.
- Diffusion2D.DConc: requires at least one row and one column. The script's grid is 256 × 256.
- ClusterGeometry.SumPotential: requires the potential to be defined at every upper-triangle distance and at 1.0, because `np.where` evaluates the potential on the whole padded matrix. A zero distance between two distinct atoms under Lennard-Jones is therefore outside the model; numpy would compute `inf - inf`, which is `nan` at that entry, so the summed energy would be `nan`.
- Potentials.LennardJones: the script's `r = 0` gives a division by zero; the model requires `r != 0`.
