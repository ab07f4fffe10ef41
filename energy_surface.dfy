/**
 * The scanned potential energy surface of excercise2_gaussian: a grid of
 * energies over the distances and angles of the scan, and the raw samples it
 * was built from. Both plot_old.py and calculate_frequencies.py locate the
 * lowest grid point and cut a window of samples around it for a fit.
 *
 * `load_data` (genfromtxt, np.unique, lexsort) is not part of this model: the
 * surface is given already built.
 */
module EnergySurface {
  import opened Wrappers
  import opened Grids

  /** One raw row `[energy, distance, angle]`. */
  datatype Sample = Sample(energy: real, distance: real, angle: real)

  /** The dictionary `load_data` returns: `energies[d][a]` is the energy at `distances[d]`, `angles[a]`. */
  datatype Surface = Surface(distances: seq<real>, angles: seq<real>, energies: seq<seq<real>>, raw: seq<Sample>)

  predicate WellFormed(s: Surface)
  {
    IsGrid(s.energies, |s.distances|, |s.angles|)
  }

  // ---------------------------------------------------------------------------
  // The lowest grid point
  // ---------------------------------------------------------------------------

  /** `np.argmin`: the first position of the smallest entry. */
  function ArgMin(v: seq<real>): (k: nat)
    requires |v| > 0
    ensures k < |v|
    ensures forall m :: 0 <= m < |v| ==> v[k] <= v[m]
    ensures forall m :: 0 <= m < k ==> v[k] < v[m]
  {
    if |v| == 1 then 0
    else
      var r := ArgMin(v[..|v| - 1]);
      if v[|v| - 1] < v[r] then |v| - 1 else r
  }

  /**
   * `np.unravel_index(np.argmin(energies), energies.shape)`, or None where
   * the grid is empty and `argmin` raises.
   */
  function MinCell(s: Surface): (c: Option<(nat, nat)>)
    requires WellFormed(s)
    ensures c.None? <==> |s.distances| == 0 || |s.angles| == 0
    ensures c.Some? ==> c.value.0 < |s.distances| && c.value.1 < |s.angles|
  {
    var flat := Flatten(s.energies);
    FlattenLength(s.energies, |s.distances|, |s.angles|);
    RowStartIsProduct(|s.distances|, |s.angles|);
    if |flat| == 0 then None
    else
      var k := ArgMin(flat);
      Unravel(s.energies, |s.distances|, |s.angles|, k);
      Some((k / |s.angles|, k % |s.angles|))
  }

  lemma {:induction false} RowStartMonotone(i: nat, i': nat, cols: nat)
    requires i' < i
    ensures RowStart(i', cols) + cols <= RowStart(i, cols)
  {
    if i' < i - 1 {
      RowStartMonotone(i - 1, i', cols);
    }
  }

  /**
   * The cell found holds the smallest energy of the grid, and every cell
   * before it in row-major order holds a strictly larger one.
   */
  lemma MinCellIsFirstMinimum(s: Surface)
    requires WellFormed(s) && MinCell(s).Some?
    ensures var (i, j) := MinCell(s).value;
      forall d, a :: 0 <= d < |s.distances| && 0 <= a < |s.angles| ==> s.energies[i][j] <= s.energies[d][a]
    ensures var (i, j) := MinCell(s).value;
      forall d, a :: 0 <= d < |s.distances| && 0 <= a < |s.angles| && (d < i || (d == i && a < j)) ==>
        s.energies[i][j] < s.energies[d][a]
  {
    var rows, cols := |s.distances|, |s.angles|;
    var flat := Flatten(s.energies);
    FlattenLength(s.energies, rows, cols);
    RowStartIsProduct(rows, cols);
    var k := ArgMin(flat);
    Unravel(s.energies, rows, cols, k);
    var (i, j) := MinCell(s).value;
    DivModRowStart(k, cols);
    forall d, a | 0 <= d < rows && 0 <= a < cols
      ensures s.energies[i][j] <= s.energies[d][a]
      ensures d < i || (d == i && a < j) ==> s.energies[i][j] < s.energies[d][a]
    {
      CellAgainstMinimum(s.energies, flat, rows, cols, k, i, j, d, a);
    }
  }

  lemma DivModRowStart(k: nat, cols: nat)
    requires cols > 0
    ensures k == RowStart(k / cols, cols) + k % cols
  {
    RowStartIsProduct(k / cols, cols);
  }

  /** One cell compared with the cell at flat position k, the first minimum of the flat vector. */
  lemma CellAgainstMinimum(g: seq<seq<real>>, flat: seq<real>, rows: nat, cols: nat, k: nat, i: nat, j: nat, d: nat, a: nat)
    requires IsGrid(g, rows, cols) && flat == Flatten(g)
    requires i < rows && j < cols && d < rows && a < cols
    requires k == RowStart(i, cols) + j && k < |flat| && flat[k] == g[i][j]
    requires forall m :: 0 <= m < |flat| ==> flat[k] <= flat[m]
    requires forall m :: 0 <= m < k ==> flat[k] < flat[m]
    ensures g[i][j] <= g[d][a]
    ensures d < i || (d == i && a < j) ==> g[i][j] < g[d][a]
  {
    FlattenAt(g, rows, cols, d, a);
    if d < i {
      RowStartMonotone(i, d, cols);
    }
  }

  /**
   * Cell (d, a) holds the smallest energy of the grid and every cell before
   * it in row-major order a strictly larger one: the cell `argmin` picks
   * when several cells tie.
   */
  predicate IsFirstMinimum(s: Surface, d: int, a: int)
    requires WellFormed(s)
  {
    && 0 <= d < |s.distances| && 0 <= a < |s.angles|
    && (forall d', a' :: 0 <= d' < |s.distances| && 0 <= a' < |s.angles| ==> s.energies[d][a] <= s.energies[d'][a'])
    && (forall d', a' :: 0 <= d' < |s.distances| && 0 <= a' < |s.angles| && (d' < d || (d' == d && a' < a)) ==>
          s.energies[d][a] < s.energies[d'][a'])
  }

  /** At most one cell is the first minimum, so the property pins the cell down. */
  lemma FirstMinimumIsUnique(s: Surface, d1: int, a1: int, d2: int, a2: int)
    requires WellFormed(s) && IsFirstMinimum(s, d1, a1) && IsFirstMinimum(s, d2, a2)
    ensures d1 == d2 && a1 == a2
  {
    // Both cells are minimal, so they hold the same energy; a strict
    // inequality with an earlier cell rules out either coming first.
    assert s.energies[d1][a1] <= s.energies[d2][a2];
    assert s.energies[d2][a2] <= s.energies[d1][a1];
    assert !(d1 < d2 || (d1 == d2 && a1 < a2));
    assert !(d2 < d1 || (d2 == d1 && a2 < a1));
  }

  /** plot_old.py `find_min_energy`: the distance and angle of the lowest grid point, the first in row-major order. */
  function FindMinGeometry(s: Surface): (r: Option<(real, real)>)
    requires WellFormed(s)
    ensures r.None? <==> |s.distances| == 0 || |s.angles| == 0
    ensures r.Some? ==>
      exists d, a :: (0 <= d < |s.distances| && 0 <= a < |s.angles| && r.value == (s.distances[d], s.angles[a])
        && forall d', a' :: 0 <= d' < |s.distances| && 0 <= a' < |s.angles| ==> s.energies[d][a] <= s.energies[d'][a'])
    ensures r.Some? ==>
      exists d, a :: IsFirstMinimum(s, d, a) && r.value == (s.distances[d], s.angles[a])
  {
    match MinCell(s)
    case None => None
    case Some((i, j)) =>
      MinCellIsFirstMinimum(s);
      assert IsFirstMinimum(s, i, j);
      Some((s.distances[i], s.angles[j]))
  }

  /** calculate_frequencies.py `find_min_energy`: the same first lowest point, with its energy. */
  function FindMinEnergy(s: Surface): (r: Option<(real, real, real)>)
    requires WellFormed(s)
    ensures r.None? <==> |s.distances| == 0 || |s.angles| == 0
    ensures r.Some? ==> forall d, a :: 0 <= d < |s.distances| && 0 <= a < |s.angles| ==> r.value.2 <= s.energies[d][a]
    ensures r.Some? ==>
      exists d, a :: (0 <= d < |s.distances| && 0 <= a < |s.angles| && r.value == (s.distances[d], s.angles[a], s.energies[d][a]))
    ensures r.Some? ==>
      exists d, a :: IsFirstMinimum(s, d, a) && r.value == (s.distances[d], s.angles[a], s.energies[d][a])
  {
    match MinCell(s)
    case None => None
    case Some((i, j)) =>
      MinCellIsFirstMinimum(s);
      assert IsFirstMinimum(s, i, j);
      Some((s.distances[i], s.angles[j], s.energies[i][j]))
  }

  /** The two scripts' `find_min_energy` find the same geometry. */
  lemma FindMinAgree(s: Surface)
    requires WellFormed(s)
    ensures FindMinGeometry(s).None? <==> FindMinEnergy(s).None?
    ensures FindMinEnergy(s).Some? ==>
      FindMinGeometry(s).value == (FindMinEnergy(s).value.0, FindMinEnergy(s).value.1)
  {
  }

  // ---------------------------------------------------------------------------
  // The window around the minimum
  // ---------------------------------------------------------------------------

  function Abs(x: real): real
  {
    if x < 0.0 then -x else x
  }

  /** Boolean-mask indexing `rows[mask]`: the rows that pass, in their order. */
  function Filter(rows: seq<Sample>, keep: Sample -> bool): (r: seq<Sample>)
    ensures |r| <= |rows|
    ensures forall k :: 0 <= k < |r| ==> keep(r[k])
  {
    if |rows| == 0 then []
    else if keep(rows[0]) then [rows[0]] + Filter(rows[1..], keep)
    else Filter(rows[1..], keep)
  }

  lemma {:induction false} FilterMembership(rows: seq<Sample>, keep: Sample -> bool, x: Sample)
    ensures x in Filter(rows, keep) <==> x in rows && keep(x)
  {
    if |rows| > 0 {
      FilterMembership(rows[1..], keep, x);
      assert rows == [rows[0]] + rows[1..];
    }
  }

  /** Filtering keeps the order: it distributes over concatenation. */
  lemma {:induction false} FilterAppend(a: seq<Sample>, b: seq<Sample>, keep: Sample -> bool)
    ensures Filter(a + b, keep) == Filter(a, keep) + Filter(b, keep)
  {
    if |a| > 0 {
      FilterAppend(a[1..], b, keep);
      assert (a + b)[0] == a[0];
      assert (a + b)[1..] == a[1..] + b;
      if keep(a[0]) {
        assert Filter(a + b, keep) == [a[0]] + (Filter(a[1..], keep) + Filter(b, keep));
      }
    } else {
      assert a + b == b;
    }
  }

  /** Two masks in a row keep what the conjunction keeps. */
  lemma {:induction false} FilterTwice(rows: seq<Sample>, p: Sample -> bool, q: Sample -> bool)
    ensures Filter(Filter(rows, p), q) == Filter(rows, x => p(x) && q(x))
  {
    if |rows| > 0 {
      FilterTwice(rows[1..], p, q);
    }
  }

  /** `np.abs(filtered[:,1] - min_dist) <= delta_dist`. */
  function NearDistance(center: real, delta: real): Sample -> bool
  {
    (x: Sample) => Abs(x.distance - center) <= delta
  }

  /** `np.abs(filtered[:,2] - min_angl) <= delta_angl`. */
  function NearAngle(center: real, delta: real): Sample -> bool
  {
    (x: Sample) => Abs(x.angle - center) <= delta
  }

  predicate InWindow(x: Sample, dist: real, angl: real, deltaDist: real, deltaAngl: real)
  {
    Abs(x.distance - dist) <= deltaDist && Abs(x.angle - angl) <= deltaAngl
  }

  /** The two filtering steps, by distance and then by angle. */
  function Window(raw: seq<Sample>, dist: real, angl: real, deltaDist: real, deltaAngl: real): (w: seq<Sample>)
    ensures forall k :: 0 <= k < |w| ==> InWindow(w[k], dist, angl, deltaDist, deltaAngl)
  {
    var byDistance := Filter(raw, NearDistance(dist, deltaDist));
    var w := Filter(byDistance, NearAngle(angl, deltaAngl));
    forall k | 0 <= k < |w|
      ensures InWindow(w[k], dist, angl, deltaDist, deltaAngl)
    {
      FilterMembership(byDistance, NearAngle(angl, deltaAngl), w[k]);
      FilterMembership(raw, NearDistance(dist, deltaDist), w[k]);
    }
    w
  }

  /** The window keeps exactly the samples within both tolerances, in their original order. */
  lemma WindowKeepsExactly(raw: seq<Sample>, dist: real, angl: real, deltaDist: real, deltaAngl: real)
    ensures Window(raw, dist, angl, deltaDist, deltaAngl)
         == Filter(raw, x => InWindow(x, dist, angl, deltaDist, deltaAngl))
    ensures forall x :: x in Window(raw, dist, angl, deltaDist, deltaAngl)
                    <==> x in raw && InWindow(x, dist, angl, deltaDist, deltaAngl)
  {
    FilterTwice(raw, NearDistance(dist, deltaDist), NearAngle(angl, deltaAngl));
    var both := x => NearDistance(dist, deltaDist)(x) && NearAngle(angl, deltaAngl)(x);
    var inWindow := x => InWindow(x, dist, angl, deltaDist, deltaAngl);
    FilterSameMask(raw, both, inWindow);
    forall x
      ensures x in Window(raw, dist, angl, deltaDist, deltaAngl) <==> x in raw && InWindow(x, dist, angl, deltaDist, deltaAngl)
    {
      FilterMembership(raw, inWindow, x);
    }
  }

  lemma {:induction false} FilterSameMask(rows: seq<Sample>, p: Sample -> bool, q: Sample -> bool)
    requires forall x :: p(x) == q(x)
    ensures Filter(rows, p) == Filter(rows, q)
  {
    if |rows| > 0 {
      FilterSameMask(rows[1..], p, q);
    }
  }

  /**
   * plot_old.py `fit_quadratic_around_minimum`, up to the fit: the samples
   * within the tolerances of the lowest grid point.
   */
  function QuadraticFitSamples(s: Surface, deltaDist: real, deltaAngl: real): (w: Option<seq<Sample>>)
    requires WellFormed(s)
    ensures w.None? <==> |s.distances| == 0 || |s.angles| == 0
    ensures w.Some? ==> w.value == Window(s.raw, FindMinGeometry(s).value.0, FindMinGeometry(s).value.1, deltaDist, deltaAngl)
  {
    match FindMinGeometry(s)
    case None => None
    case Some((dist, angl)) => Some(Window(s.raw, dist, angl, deltaDist, deltaAngl))
  }

  /** What calculate_frequencies.py hands to `curve_fit`: the samples and the initial guess `p0`. */
  datatype FitSetup = FitSetup(samples: seq<Sample>, p0: seq<real>)

  /**
   * `fit_potential_around_minimum`, up to the fit. A centre that is not
   * given defaults to the lowest grid point; `find_min_energy` runs either
   * way, so an empty grid fails even when both centres are given.
   */
  function HarmonicFitSetup(s: Surface, deltaDist: real, deltaAngl: real, minDist: Option<real>, minAngl: Option<real>): (r: Option<FitSetup>)
    requires WellFormed(s)
    ensures r.None? <==> |s.distances| == 0 || |s.angles| == 0
    ensures r.Some? ==>
      var (roughDist, roughAngl, roughEnergy) := FindMinEnergy(s).value;
      var dist := if minDist.Some? then minDist.value else roughDist;
      var angl := if minAngl.Some? then minAngl.value else roughAngl;
      && r.value.samples == Window(s.raw, dist, angl, deltaDist, deltaAngl)
      && r.value.p0 == [roughEnergy, 1.0, 0.00001, dist, angl]
  {
    match FindMinEnergy(s)
    case None => None
    case Some((roughDist, roughAngl, roughEnergy)) =>
      var dist := match minDist case Some(v) => v case None => roughDist;
      var angl := match minAngl case Some(v) => v case None => roughAngl;
      Some(FitSetup(Window(s.raw, dist, angl, deltaDist, deltaAngl), [roughEnergy, 1.0, 0.00001, dist, angl]))
  }

  /** Without given centres, both scripts cut the same window. */
  lemma DefaultCentresAgree(s: Surface, deltaDist: real, deltaAngl: real)
    requires WellFormed(s)
    ensures HarmonicFitSetup(s, deltaDist, deltaAngl, None, None).Some? ==>
      HarmonicFitSetup(s, deltaDist, deltaAngl, None, None).value.samples
        == QuadraticFitSamples(s, deltaDist, deltaAngl).value
  {
    FindMinAgree(s);
  }
}
