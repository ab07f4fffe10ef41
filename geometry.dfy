/**
 * The cluster-geometry code of excercise4_potentials/utils.py: the codec
 * between the optimiser's reduced coordinate vector and the list of atom
 * positions, the pairwise distance matrix, and the pair-energy sum over the
 * strict upper triangle of that matrix.
 *
 * `sqrt` is a parameter; a lemma that needs one of its values (sqrt 0 = 0,
 * sqrt 1 = 1, sqrt 2 squared = 2) states that value as a precondition.
 * A potential is a partial function `real --> real`, so that the
 * Lennard-Jones potential, which divides by its argument, can be passed.
 */
module ClusterGeometry {
  import opened RealSums
  import Potentials

  /** One row of the N x 3 coordinate array. */
  datatype Point = Point(x: real, y: real, z: real)

  const Origin: Point := Point(0.0, 0.0, 0.0)

  // ---------------------------------------------------------------------------
  // vec_to_xyz and its inverse
  // ---------------------------------------------------------------------------

  /** `np.insert(s, i, value)`: value placed before position i. */
  function Insert(s: seq<real>, i: nat, value: real): (r: seq<real>)
    requires i <= |s|
    ensures |r| == |s| + 1 && r[i] == value
    ensures forall k :: 0 <= k < i ==> r[k] == s[k]
    ensures forall k :: i < k < |r| ==> r[k] == s[k - 1]
  {
    s[..i] + [value] + s[i..]
  }

  /** `np.reshape(s, (len(s) // 3, 3))`: consecutive triples become points. */
  function Reshape3(s: seq<real>): (r: seq<Point>)
    requires |s| % 3 == 0
    ensures |r| == |s| / 3
    ensures forall k :: 0 <= k < |r| ==> r[k] == Point(s[3 * k], s[3 * k + 1], s[3 * k + 2])
    decreases |s|
  {
    if |s| == 0 then []
    else
      var rest := Reshape3(s[3..]);
      assert forall k :: 1 <= k < |rest| + 1 ==> 3 * k == 3 * (k - 1) + 3;
      [Point(s[0], s[1], s[2])] + rest
  }

  /** Row-major flattening of an N x 3 array, the inverse of `Reshape3`. */
  function Flatten(xyz: seq<Point>): (s: seq<real>)
    ensures |s| == 3 * |xyz|
    ensures forall k :: 0 <= k < |xyz| ==> s[3 * k] == xyz[k].x && s[3 * k + 1] == xyz[k].y && s[3 * k + 2] == xyz[k].z
  {
    if |xyz| == 0 then []
    else
      var rest := Flatten(xyz[1..]);
      assert forall k :: 1 <= k < |xyz| ==> xyz[k] == xyz[1..][k - 1] && 3 * k == 3 * (k - 1) + 3;
      [xyz[0].x, xyz[0].y, xyz[0].z] + rest
  }

  /**
   * `vec_to_xyz`: a 0 is inserted after the first entry and five zeros are put in
   * front, so the six fixed coordinates x1, y1, z1, x2, y2, x3 are zero. Atom 1 is
   * the origin, atom 2 lies on the z axis, atom 3 in the y-z plane, and every
   * later atom takes the next three entries. numpy raises for an empty vector
   * (the insertion index is out of range) and for a length that is not a
   * multiple of 3 (the reshape fails): hence the precondition.
   */
  function VecToXyz(v: seq<real>): (xyz: seq<Point>)
    requires |v| >= 3 && |v| % 3 == 0
    ensures |xyz| == |v| / 3 + 2
    ensures xyz[0] == Origin
    ensures xyz[1] == Point(0.0, 0.0, v[0])
    ensures xyz[2] == Point(0.0, v[1], v[2])
    ensures forall k :: 3 <= k < |xyz| ==> xyz[k] == Point(v[3 * k - 6], v[3 * k - 5], v[3 * k - 4])
  {
    var flat := Zeros(5) + Insert(v, 1, 0.0);
    assert forall f :: 7 <= f < |flat| ==> flat[f] == v[f - 6];
    Reshape3(flat)
  }

  /** An atom list in the form `VecToXyz` produces: the six fixed coordinates are zero. */
  predicate Canonical(xyz: seq<Point>)
  {
    |xyz| >= 3 && xyz[0] == Origin && xyz[1].x == 0.0 && xyz[1].y == 0.0 && xyz[2].x == 0.0
  }

  /** Flatten the atoms and drop the six fixed coordinates (flat positions 0-4 and 6). */
  function XyzToVec(xyz: seq<Point>): (v: seq<real>)
    requires |xyz| >= 3
    ensures |v| == 3 * |xyz| - 6
  {
    var flat := Flatten(xyz);
    [flat[5]] + flat[7..]
  }

  /** Decoding then encoding gives the reduced vector back. */
  lemma VecRoundTrip(v: seq<real>)
    requires |v| >= 3 && |v| % 3 == 0
    ensures Canonical(VecToXyz(v))
    ensures XyzToVec(VecToXyz(v)) == v
  {
    var xyz := VecToXyz(v);
    var flat := Flatten(xyz);
    var w := XyzToVec(xyz);
    assert w[0] == v[0] by {
      assert flat[3 * 1 + 2] == xyz[1].z;
    }
    forall f | 1 <= f < |v|
      ensures w[f] == v[f]
    {
      var k := (f + 6) / 3;
      var m := (f + 6) % 3;
      assert f + 6 == 3 * k + m;
      assert w[f] == flat[f + 6];
      if k == 2 {
        assert flat[3 * 2 + 1] == xyz[2].y && flat[3 * 2 + 2] == xyz[2].z;
      } else {
        assert 3 <= k < |xyz|;
        assert flat[3 * k] == xyz[k].x && flat[3 * k + 1] == xyz[k].y && flat[3 * k + 2] == xyz[k].z;
      }
    }
  }

  /** Encoding a canonical atom list then decoding gives the atom list back. */
  lemma XyzRoundTrip(xyz: seq<Point>)
    requires Canonical(xyz)
    ensures |XyzToVec(xyz)| >= 3 && |XyzToVec(xyz)| % 3 == 0
    ensures VecToXyz(XyzToVec(xyz)) == xyz
  {
    var flat := Flatten(xyz);
    var v := XyzToVec(xyz);
    assert |v| == 3 * (|xyz| - 2);
    var back := VecToXyz(v);
    assert back[1] == xyz[1] by {
      assert flat[3 * 1 + 2] == xyz[1].z;
    }
    assert back[2] == xyz[2] by {
      assert flat[3 * 2 + 1] == xyz[2].y && flat[3 * 2 + 2] == xyz[2].z;
    }
    forall k | 3 <= k < |xyz|
      ensures back[k] == xyz[k]
    {
      assert flat[3 * k] == xyz[k].x && flat[3 * k + 1] == xyz[k].y && flat[3 * k + 2] == xyz[k].z;
      assert v[3 * k - 6] == flat[3 * k] && v[3 * k - 5] == flat[3 * k + 1] && v[3 * k - 4] == flat[3 * k + 2];
    }
  }

  /** The example at the foot of utils.py: [1, 2, 3, 4, 5, 6] becomes four atoms. */
  lemma VecToXyzExample()
    ensures VecToXyz([1.0, 2.0, 3.0, 4.0, 5.0, 6.0])
         == [Origin, Point(0.0, 0.0, 1.0), Point(0.0, 2.0, 3.0), Point(4.0, 5.0, 6.0)]
  {
    var xyz := VecToXyz([1.0, 2.0, 3.0, 4.0, 5.0, 6.0]);
    assert xyz[3] == Point(4.0, 5.0, 6.0) by {
      assert 3 * 3 - 6 == 3;
    }
  }

  // ---------------------------------------------------------------------------
  // distance_matrix
  // ---------------------------------------------------------------------------

  function Minus(p: Point, q: Point): Point
  {
    Point(p.x - q.x, p.y - q.y, p.z - q.z)
  }

  /** `np.sum(d**2)` over the coordinate axis. */
  function SquaredNorm(d: Point): (s: real)
    ensures s >= 0.0
  {
    d.x * d.x + d.y * d.y + d.z * d.z
  }

  /** The squared Euclidean distance between two atoms. */
  function SquaredDistance(p: Point, q: Point): (s: real)
    ensures s >= 0.0
  {
    SquaredNorm(Minus(q, p))
  }

  /** `np.stack([xyz,]*N, axis=0)`: N copies, so M[i][j] = xyz[j]. */
  function Stack(xyz: seq<Point>): (m: seq<seq<Point>>)
    ensures |m| == |xyz|
    ensures forall i :: 0 <= i < |m| ==> m[i] == xyz
  {
    seq(|xyz|, _ => xyz)
  }

  predicate IsSquareOf<T>(m: seq<seq<T>>, n: nat)
  {
    |m| == n && forall i :: 0 <= i < n ==> |m[i]| == n
  }

  /** `M.transpose(1, 0, 2)`: the first two axes swapped. */
  function Transpose(m: seq<seq<Point>>): (t: seq<seq<Point>>)
    requires IsSquareOf(m, |m|)
    ensures IsSquareOf(t, |m|)
    ensures forall i, j :: 0 <= i < |m| && 0 <= j < |m| ==> t[i][j] == m[j][i]
  {
    seq(|m|, i requires 0 <= i < |m| => seq(|m|, j requires 0 <= j < |m| => m[j][i]))
  }

  /** `M - M.transpose(1, 0, 2)` for the stacked M: entry (i, j) is xyz[j] - xyz[i]. */
  function Differences(xyz: seq<Point>): (diff: seq<seq<Point>>)
    ensures IsSquareOf(diff, |xyz|)
    ensures forall i, j {:trigger diff[i][j]} :: 0 <= i < |xyz| && 0 <= j < |xyz| ==> diff[i][j] == Minus(xyz[j], xyz[i])
  {
    var n := |xyz|;
    var m := Stack(xyz);
    var t := Transpose(m);
    seq(n, i requires 0 <= i < n => seq(n, j requires 0 <= j < n => Minus(m[i][j], t[i][j])))
  }

  /** `np.sqrt(np.sum(M**2, axis=2))`: the root of the squared norm of each entry. */
  function RootSquaredNorms(diff: seq<seq<Point>>, sqrt: real -> real): (d: seq<seq<real>>)
    requires IsSquareOf(diff, |diff|)
    ensures IsSquareOf(d, |diff|)
    ensures forall i, j {:trigger d[i][j]} :: 0 <= i < |diff| && 0 <= j < |diff| ==> d[i][j] == sqrt(SquaredNorm(diff[i][j]))
  {
    seq(|diff|, i requires 0 <= i < |diff| => seq(|diff|, j requires 0 <= j < |diff| => sqrt(SquaredNorm(diff[i][j]))))
  }

  /**
   * `distance_matrix`: the stacked copies minus their transpose give
   * xyz[j] - xyz[i] at (i, j); squaring, summing over the coordinate axis and
   * taking the square root gives the Euclidean distance of atoms i and j.
   */
  function DistanceMatrix(xyz: seq<Point>, sqrt: real -> real): (d: seq<seq<real>>)
    ensures IsSquareOf(d, |xyz|)
    ensures forall i, j {:trigger d[i][j]} :: 0 <= i < |xyz| && 0 <= j < |xyz| ==> d[i][j] == sqrt(SquaredDistance(xyz[i], xyz[j]))
  {
    RootSquaredNorms(Differences(xyz), sqrt)
  }

  lemma SquaredDistanceSymmetric(p: Point, q: Point)
    ensures SquaredDistance(p, q) == SquaredDistance(q, p)
  {
    assert (q.x - p.x) * (q.x - p.x) == (p.x - q.x) * (p.x - q.x);
    assert (q.y - p.y) * (q.y - p.y) == (p.y - q.y) * (p.y - q.y);
    assert (q.z - p.z) * (q.z - p.z) == (p.z - q.z) * (p.z - q.z);
  }

  /** The distance matrix is symmetric. */
  lemma DistanceMatrixSymmetric(xyz: seq<Point>, sqrt: real -> real, i: nat, j: nat)
    requires i < |xyz| && j < |xyz|
    ensures DistanceMatrix(xyz, sqrt)[i][j] == DistanceMatrix(xyz, sqrt)[j][i]
  {
    SquaredDistanceSymmetric(xyz[i], xyz[j]);
  }

  /** The diagonal of the distance matrix is zero. */
  lemma DistanceMatrixDiagonal(xyz: seq<Point>, sqrt: real -> real, i: nat)
    requires sqrt(0.0) == 0.0 && i < |xyz|
    ensures DistanceMatrix(xyz, sqrt)[i][i] == 0.0
  {
    assert SquaredDistance(xyz[i], xyz[i]) == 0.0;
  }

  // ---------------------------------------------------------------------------
  // sum_potential
  // ---------------------------------------------------------------------------

  /** `1 - np.tril(np.ones([N, N]))`: 1 strictly above the diagonal, 0 elsewhere. */
  function Mask(n: nat): (m: seq<seq<real>>)
    ensures IsSquareOf(m, n)
    ensures forall i, j :: 0 <= i < n && 0 <= j < n ==> m[i][j] == if i < j then 1.0 else 0.0
  {
    seq(n, i => seq(n, j => 1.0 - (if j <= i then 1.0 else 0.0)))
  }

  /**
   * The potential can be evaluated wherever `sum_potential` evaluates it: on
   * every strict-upper-triangle entry, and on 1, the value that replaces the
   * others.
   */
  ghost predicate Evaluable(d: seq<seq<real>>, potential: real --> real)
    requires IsSquareOf(d, |d|)
  {
    potential.requires(1.0) && forall i, j :: 0 <= i < j < |d| ==> potential.requires(d[i][j])
  }

  /** The sum of every entry of a matrix. */
  function MatrixSum(m: seq<seq<real>>): real
  {
    if |m| == 0 then 0.0 else Sum(m[0]) + MatrixSum(m[1..])
  }

  /** The energies of the pairs (i, j) with j > i, for one row i. */
  function UpperRow(d: seq<seq<real>>, potential: real --> real, i: nat): (r: seq<real>)
    requires IsSquareOf(d, |d|) && Evaluable(d, potential) && i < |d|
    ensures |r| == |d| - i - 1
  {
    seq(|d| - i - 1, k requires 0 <= k < |d| - i - 1 => potential(d[i][i + 1 + k]))
  }

  /** The reference value: potential(d[i][j]) summed over the pairs i < j, row by row from row i. */
  ghost function PairSumFrom(d: seq<seq<real>>, potential: real --> real, i: nat): real
    requires IsSquareOf(d, |d|) && Evaluable(d, potential) && i <= |d|
    decreases |d| - i
  {
    if i == |d| then 0.0 else Sum(UpperRow(d, potential, i)) + PairSumFrom(d, potential, i + 1)
  }

  ghost function PairSum(d: seq<seq<real>>, potential: real --> real): real
    requires IsSquareOf(d, |d|) && Evaluable(d, potential)
  {
    PairSumFrom(d, potential, 0)
  }

  /**
   * `sum_potential`: entries on and below the diagonal are replaced by 1 so the
   * potential can be evaluated over the whole matrix, `np.where` keeps the
   * values above the diagonal and zeros the rest, and everything is summed.
   * The result is the sum of the potential over the pairs i < j.
   */
  function SumPotential(d: seq<seq<real>>, potential: real --> real): (e: real)
    requires IsSquareOf(d, |d|) && Evaluable(d, potential)
    ensures e == PairSum(d, potential)
  {
    var n := |d|;
    var mask := Mask(n);
    var safe := seq(n, i requires 0 <= i < n => seq(n, j requires 0 <= j < n => d[i][j] * mask[i][j] + (1.0 - mask[i][j])));
    assert forall i, j :: 0 <= i < n && 0 <= j < n ==> safe[i][j] == if i < j then d[i][j] else 1.0;
    var energies := seq(n, i requires 0 <= i < n => seq(n, j requires 0 <= j < n =>
      var v := potential(safe[i][j]); if mask[i][j] == 1.0 then v else 0.0));
    EnergiesRows(d, potential, energies, 0);
    MatrixSum(energies)
  }

  /** Row i of the masked energy matrix sums to the pair energies of row i. */
  lemma EnergyRow(d: seq<seq<real>>, potential: real --> real, row: seq<real>, i: nat)
    requires IsSquareOf(d, |d|) && Evaluable(d, potential) && i < |d|
    requires |row| == |d|
    requires forall j :: 0 <= j < |d| ==> row[j] == if i < j then potential(d[i][j]) else 0.0
    ensures Sum(row) == Sum(UpperRow(d, potential, i))
  {
    var up := UpperRow(d, potential, i);
    assert row == row[..i + 1] + up;
    SumAppend(row[..i + 1], up);
    SumZeros(row[..i + 1]);
  }

  lemma {:induction false} EnergiesRows(d: seq<seq<real>>, potential: real --> real, energies: seq<seq<real>>, i: nat)
    requires IsSquareOf(d, |d|) && Evaluable(d, potential) && i <= |d|
    requires IsSquareOf(energies, |d|)
    requires forall r, j :: 0 <= r < |d| && 0 <= j < |d| ==> energies[r][j] == if r < j then potential(d[r][j]) else 0.0
    ensures MatrixSum(energies[i..]) == PairSumFrom(d, potential, i)
    decreases |d| - i
  {
    if i < |d| {
      EnergiesRows(d, potential, energies, i + 1);
      assert energies[i..][1..] == energies[i + 1..];
      EnergyRow(d, potential, energies[i], i);
    }
  }

  lemma {:induction false} PairSumFromUpper(d1: seq<seq<real>>, d2: seq<seq<real>>, potential: real --> real, i: nat)
    requires IsSquareOf(d1, |d1|) && Evaluable(d1, potential) && i <= |d1|
    requires IsSquareOf(d2, |d1|) && Evaluable(d2, potential)
    requires forall r, j :: 0 <= r < j < |d1| ==> d1[r][j] == d2[r][j]
    ensures PairSumFrom(d1, potential, i) == PairSumFrom(d2, potential, i)
    decreases |d1| - i
  {
    if i < |d1| {
      PairSumFromUpper(d1, d2, potential, i + 1);
      assert UpperRow(d1, potential, i) == UpperRow(d2, potential, i);
    }
  }

  /**
   * Only the strict upper triangle matters: two matrices that agree above the
   * diagonal have the same pair energy, whatever their other entries.
   */
  lemma SumPotentialUpperOnly(d1: seq<seq<real>>, d2: seq<seq<real>>, potential: real --> real)
    requires IsSquareOf(d1, |d1|) && Evaluable(d1, potential)
    requires IsSquareOf(d2, |d1|) && Evaluable(d2, potential)
    requires forall r, j :: 0 <= r < j < |d1| ==> d1[r][j] == d2[r][j]
    ensures SumPotential(d1, potential) == SumPotential(d2, potential)
  {
    PairSumFromUpper(d1, d2, potential, 0);
  }

  // ---------------------------------------------------------------------------
  // get_energy
  // ---------------------------------------------------------------------------

  /** `get_energy`: decode the vector, build the distance matrix, sum the pair energies. */
  function GetEnergy(v: seq<real>, potential: real --> real, sqrt: real -> real): (e: real)
    requires |v| >= 3 && |v| % 3 == 0
    requires Evaluable(DistanceMatrix(VecToXyz(v), sqrt), potential)
    ensures e == PairSum(DistanceMatrix(VecToXyz(v), sqrt), potential)
  {
    var d := DistanceMatrix(VecToXyz(v), sqrt);
    assert IsSquareOf(d, |d|);
    SumPotential(d, potential)
  }

  /** The test triangle (0,0,0), (1,0,0), (0,1,0) at the foot of utils.py. */
  predicate IsTestTriangle(xyz: seq<Point>)
  {
    && |xyz| == 3
    && xyz[0].x == 0.0 && xyz[0].y == 0.0 && xyz[0].z == 0.0
    && xyz[1].x == 1.0 && xyz[1].y == 0.0 && xyz[1].z == 0.0
    && xyz[2].x == 0.0 && xyz[2].y == 1.0 && xyz[2].z == 0.0
  }

  /** The squared distance from coordinate differences given as variables. */
  lemma SquaredDistanceOf(p: Point, q: Point, dx: real, dy: real, dz: real)
    requires q.x - p.x == dx && q.y - p.y == dy && q.z - p.z == dz
    ensures SquaredDistance(p, q) == dx * dx + dy * dy + dz * dz
  {
  }

  lemma RowOfThree(row: seq<real>, a: real, b: real, c: real)
    requires |row| == 3 && row[0] == a && row[1] == b && row[2] == c
    ensures row == [a, b, c]
  {
  }

  lemma MatrixOfThree(d: seq<seq<real>>, r0: seq<real>, r1: seq<real>, r2: seq<real>)
    requires |d| == 3 && d[0] == r0 && d[1] == r1 && d[2] == r2
    ensures d == [r0, r1, r2]
  {
  }

  /** One entry of the distance matrix, from the coordinate differences of its two atoms. */
  lemma DistanceEntry(xyz: seq<Point>, sqrt: real -> real, i: nat, j: nat, dx: real, dy: real, dz: real, sq: real)
    requires i < |xyz| && j < |xyz|
    requires xyz[j].x - xyz[i].x == dx && xyz[j].y - xyz[i].y == dy && xyz[j].z - xyz[i].z == dz
    requires dx * dx + dy * dy + dz * dz == sq
    ensures DistanceMatrix(xyz, sqrt)[i][j] == sqrt(sq)
  {
    SquaredDistanceOf(xyz[i], xyz[j], dx, dy, dz);
  }

  // One lemma per entry of the test triangle's distance matrix.

  lemma TriangleEntry00(xyz: seq<Point>, sqrt: real -> real)
    requires IsTestTriangle(xyz)
    ensures DistanceMatrix(xyz, sqrt)[0][0] == sqrt(0.0)
  {
    DistanceEntry(xyz, sqrt, 0, 0, 0.0, 0.0, 0.0, 0.0);
  }

  lemma TriangleEntry01(xyz: seq<Point>, sqrt: real -> real)
    requires IsTestTriangle(xyz)
    ensures DistanceMatrix(xyz, sqrt)[0][1] == sqrt(1.0)
  {
    DistanceEntry(xyz, sqrt, 0, 1, 1.0, 0.0, 0.0, 1.0);
  }

  lemma TriangleEntry02(xyz: seq<Point>, sqrt: real -> real)
    requires IsTestTriangle(xyz)
    ensures DistanceMatrix(xyz, sqrt)[0][2] == sqrt(1.0)
  {
    DistanceEntry(xyz, sqrt, 0, 2, 0.0, 1.0, 0.0, 1.0);
  }

  lemma TriangleEntry10(xyz: seq<Point>, sqrt: real -> real)
    requires IsTestTriangle(xyz)
    ensures DistanceMatrix(xyz, sqrt)[1][0] == sqrt(1.0)
  {
    DistanceEntry(xyz, sqrt, 1, 0, -1.0, 0.0, 0.0, 1.0);
  }

  lemma TriangleEntry11(xyz: seq<Point>, sqrt: real -> real)
    requires IsTestTriangle(xyz)
    ensures DistanceMatrix(xyz, sqrt)[1][1] == sqrt(0.0)
  {
    DistanceEntry(xyz, sqrt, 1, 1, 0.0, 0.0, 0.0, 0.0);
  }

  lemma TriangleEntry12(xyz: seq<Point>, sqrt: real -> real)
    requires IsTestTriangle(xyz)
    ensures DistanceMatrix(xyz, sqrt)[1][2] == sqrt(2.0)
  {
    DistanceEntry(xyz, sqrt, 1, 2, -1.0, 1.0, 0.0, 2.0);
  }

  lemma TriangleEntry20(xyz: seq<Point>, sqrt: real -> real)
    requires IsTestTriangle(xyz)
    ensures DistanceMatrix(xyz, sqrt)[2][0] == sqrt(1.0)
  {
    DistanceEntry(xyz, sqrt, 2, 0, 0.0, -1.0, 0.0, 1.0);
  }

  lemma TriangleEntry21(xyz: seq<Point>, sqrt: real -> real)
    requires IsTestTriangle(xyz)
    ensures DistanceMatrix(xyz, sqrt)[2][1] == sqrt(2.0)
  {
    DistanceEntry(xyz, sqrt, 2, 1, 1.0, -1.0, 0.0, 2.0);
  }

  lemma TriangleEntry22(xyz: seq<Point>, sqrt: real -> real)
    requires IsTestTriangle(xyz)
    ensures DistanceMatrix(xyz, sqrt)[2][2] == sqrt(0.0)
  {
    DistanceEntry(xyz, sqrt, 2, 2, 0.0, 0.0, 0.0, 0.0);
  }

  /** Row 0 of the test triangle's distance matrix. */
  lemma TriangleRow0(xyz: seq<Point>, sqrt: real -> real)
    requires IsTestTriangle(xyz)
    ensures DistanceMatrix(xyz, sqrt)[0] == [sqrt(0.0), sqrt(1.0), sqrt(1.0)]
  {
    TriangleEntry00(xyz, sqrt);
    TriangleEntry01(xyz, sqrt);
    TriangleEntry02(xyz, sqrt);
    RowOfThree(DistanceMatrix(xyz, sqrt)[0], sqrt(0.0), sqrt(1.0), sqrt(1.0));
  }

  /** Row 1 of the test triangle's distance matrix. */
  lemma TriangleRow1(xyz: seq<Point>, sqrt: real -> real)
    requires IsTestTriangle(xyz)
    ensures DistanceMatrix(xyz, sqrt)[1] == [sqrt(1.0), sqrt(0.0), sqrt(2.0)]
  {
    TriangleEntry10(xyz, sqrt);
    TriangleEntry11(xyz, sqrt);
    TriangleEntry12(xyz, sqrt);
    RowOfThree(DistanceMatrix(xyz, sqrt)[1], sqrt(1.0), sqrt(0.0), sqrt(2.0));
  }

  /** Row 2 of the test triangle's distance matrix. */
  lemma TriangleRow2(xyz: seq<Point>, sqrt: real -> real)
    requires IsTestTriangle(xyz)
    ensures DistanceMatrix(xyz, sqrt)[2] == [sqrt(1.0), sqrt(2.0), sqrt(0.0)]
  {
    TriangleEntry20(xyz, sqrt);
    TriangleEntry21(xyz, sqrt);
    TriangleEntry22(xyz, sqrt);
    RowOfThree(DistanceMatrix(xyz, sqrt)[2], sqrt(1.0), sqrt(2.0), sqrt(0.0));
  }

  /** The distance matrix of the test triangle is [[0,1,1],[1,0,sqrt 2],[1,sqrt 2,0]]. */
  lemma TriangleDistances(xyz: seq<Point>, sqrt: real -> real)
    requires IsTestTriangle(xyz)
    requires sqrt(0.0) == 0.0 && sqrt(1.0) == 1.0
    ensures DistanceMatrix(xyz, sqrt) == [[0.0, 1.0, 1.0], [1.0, 0.0, sqrt(2.0)], [1.0, sqrt(2.0), 0.0]]
  {
    TriangleRow0(xyz, sqrt);
    TriangleRow1(xyz, sqrt);
    TriangleRow2(xyz, sqrt);
    MatrixOfThree(DistanceMatrix(xyz, sqrt), [0.0, 1.0, 1.0], [1.0, 0.0, sqrt(2.0)], [1.0, sqrt(2.0), 0.0]);
  }

  /**
   * The energy test at the foot of utils.py: on the test triangle's distance
   * matrix, Lennard-Jones gives 0 for the two unit pairs, so only the sqrt 2 pair
   * contributes, 1/2^6 - 1/2^3.
   */
  lemma TriangleEnergy(s: real)
    requires s >= 0.0 && s * s == 2.0
    ensures Evaluable([[0.0, 1.0, 1.0], [1.0, 0.0, s], [1.0, s, 0.0]], Potentials.LennardJones)
    ensures SumPotential([[0.0, 1.0, 1.0], [1.0, 0.0, s], [1.0, s, 0.0]], Potentials.LennardJones) == 1.0 / 64.0 - 1.0 / 8.0
  {
    Potentials.LennardJonesAtRootTwo(s);
    var d := [[0.0, 1.0, 1.0], [1.0, 0.0, s], [1.0, s, 0.0]];
    var lj: real --> real := Potentials.LennardJones;
    assert Evaluable(d, lj);
    assert UpperRow(d, lj, 0) == [0.0, 0.0];
    assert UpperRow(d, lj, 1) == [1.0 / 64.0 - 1.0 / 8.0];
    assert UpperRow(d, lj, 2) == [];
    assert Sum([0.0, 0.0]) == 0.0;
    assert Sum([1.0 / 64.0 - 1.0 / 8.0]) == 1.0 / 64.0 - 1.0 / 8.0;
    assert PairSumFrom(d, lj, 3) == 0.0;
    assert PairSumFrom(d, lj, 2) == 0.0;
    assert PairSumFrom(d, lj, 1) == 1.0 / 64.0 - 1.0 / 8.0;
    assert PairSumFrom(d, lj, 0) == 1.0 / 64.0 - 1.0 / 8.0;
  }
}
