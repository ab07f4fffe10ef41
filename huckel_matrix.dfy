/**
 * Hückel connectivity matrices (huckel_matrix.py): the 0/1 adjacency matrix
 * of a linear chain, of a ring, and the lookup of a Platonic solid's table.
 *
 * A matrix is a sequence of rows. The six Platonic-solid tables live in a
 * module of the repository that the model does not contain, so they are a
 * parameter `table` here.
 */
module HuckelMatrix {
  import opened Wrappers
  import opened RealSums

  predicate IsSquare(m: seq<seq<real>>, n: nat)
  {
    |m| == n && forall i :: 0 <= i < n ==> |m[i]| == n
  }

  predicate Symmetric(m: seq<seq<real>>)
    requires IsSquare(m, |m|)
  {
    forall i, j :: 0 <= i < |m| && 0 <= j < |m| ==> m[i][j] == m[j][i]
  }

  predicate ZeroDiagonal(m: seq<seq<real>>)
    requires IsSquare(m, |m|)
  {
    forall i :: 0 <= i < |m| ==> m[i][i] == 0.0
  }

  /** Atoms i and j are neighbours in a chain. */
  predicate ChainNeighbours(i: int, j: int)
  {
    i - j == 1 || j - i == 1
  }

  // ---------------------------------------------------------------------------
  // linear_polyene
  // ---------------------------------------------------------------------------

  /** `np.eye(k)`. */
  function Eye(k: nat): (m: seq<seq<real>>)
    ensures IsSquare(m, k)
  {
    seq(k, i => seq(k, j => if i == j then 1.0 else 0.0))
  }

  /** `np.pad(m, ((1, 0), (0, 1)))`: a zero row on top and a zero column on the right. */
  function PadTopRight(m: seq<seq<real>>, k: nat): (p: seq<seq<real>>)
    requires IsSquare(m, k)
    ensures IsSquare(p, k + 1)
  {
    seq(k + 1, i requires 0 <= i < k + 1 => if i == 0 then Zeros(k + 1) else m[i - 1] + [0.0])
  }

  function Transpose(m: seq<seq<real>>, k: nat): (t: seq<seq<real>>)
    requires IsSquare(m, k)
    ensures IsSquare(t, k)
  {
    seq(k, i requires 0 <= i < k => seq(k, j requires 0 <= j < k => m[j][i]))
  }

  function Add(a: seq<seq<real>>, b: seq<seq<real>>, k: nat): (c: seq<seq<real>>)
    requires IsSquare(a, k) && IsSquare(b, k)
    ensures IsSquare(c, k)
  {
    seq(k, i requires 0 <= i < k => seq(k, j requires 0 <= j < k => a[i][j] + b[i][j]))
  }

  /**
   * `linear_polyene(n)`: the identity of size n - 1 shifted one row down, plus
   * its transpose. The result is the chain adjacency: 1 exactly when |i - j| = 1.
   * numpy refuses `eye(-1)`, so n >= 1.
   */
  function LinearPolyene(n: nat): (m: seq<seq<real>>)
    requires n >= 1
    ensures IsSquare(m, n)
    ensures forall i, j {:trigger m[i][j]} :: 0 <= i < n && 0 <= j < n ==>
      m[i][j] == (if ChainNeighbours(i, j) then 1.0 else 0.0)
    ensures Symmetric(m) && ZeroDiagonal(m)
  {
    var shifted := PadTopRight(Eye(n - 1), n - 1);
    Add(shifted, Transpose(shifted, n), n)
  }

  /** The two tests of linear_polyene. */
  lemma LinearPolyeneExamples()
    ensures LinearPolyene(2) == [[0.0, 1.0], [1.0, 0.0]]
    ensures LinearPolyene(3) == [[0.0, 1.0, 0.0], [1.0, 0.0, 1.0], [0.0, 1.0, 0.0]]
  {
    var m2 := LinearPolyene(2);
    assert m2[0] == [0.0, 1.0] && m2[1] == [1.0, 0.0];
    var m3 := LinearPolyene(3);
    assert m3[0] == [0.0, 1.0, 0.0];
    assert m3[1] == [1.0, 0.0, 1.0];
    assert m3[2] == [0.0, 1.0, 0.0];
  }

  lemma SumOfThree(a: real, b: real, c: real)
    ensures Sum([a, b, c]) == a + b + c
  {
    assert [a, b, c][1..] == [b, c];
    SumOfTwo(b, c);
  }

  lemma SumOfTwo(a: real, b: real)
    ensures Sum([a, b]) == a + b
  {
    assert [a, b][1..] == [b];
    assert [b][1..] == [];
    assert Sum([b]) == b + Sum([]);
  }

  /** Zeros, then a short block, then zeros: the sum is the block's. */
  lemma SumPadded(left: nat, block: seq<real>, right: nat)
    ensures Sum(Zeros(left) + block + Zeros(right)) == Sum(block)
  {
    SumAppend(Zeros(left) + block, Zeros(right));
    SumAppend(Zeros(left), block);
    SumZeros(Zeros(left));
    SumZeros(Zeros(right));
  }

  /**
   * The number of neighbours of each atom of a chain of n >= 2 atoms: the two
   * ends have one, every other atom two.
   */
  lemma LinearPolyeneDegrees(n: nat, i: nat)
    requires n >= 2 && i < n
    ensures Sum(LinearPolyene(n)[i]) == if i == 0 || i == n - 1 then 1.0 else 2.0
  {
    var row := LinearPolyene(n)[i];
    if i == 0 {
      assert row == Zeros(0) + [0.0, 1.0] + Zeros(n - 2);
      SumPadded(0, [0.0, 1.0], n - 2);
      SumOfTwo(0.0, 1.0);
    } else if i == n - 1 {
      assert row == Zeros(n - 2) + [1.0, 0.0] + Zeros(0);
      SumPadded(n - 2, [1.0, 0.0], 0);
      SumOfTwo(1.0, 0.0);
    } else {
      assert row == Zeros(i - 1) + [1.0, 0.0, 1.0] + Zeros(n - i - 2);
      SumPadded(i - 1, [1.0, 0.0, 1.0], n - i - 2);
      SumOfThree(1.0, 0.0, 1.0);
    }
  }

  // ---------------------------------------------------------------------------
  // cyclic_polyene
  // ---------------------------------------------------------------------------

  /** The two corner entries that close the chain into a ring. */
  predicate RingCorner(n: nat, i: int, j: int)
  {
    (i == n - 1 && j == 0) || (i == 0 && j == n - 1)
  }

  /** The matrix `cyclic_polyene(n)` returns: the chain with both corners set to 1. */
  function CyclicMatrix(n: nat): (m: seq<seq<real>>)
    requires n >= 1
    ensures IsSquare(m, n)
    ensures m[n - 1][0] == 1.0 && m[0][n - 1] == 1.0
    ensures forall i, j :: 0 <= i < n && 0 <= j < n && !RingCorner(n, i, j) ==> m[i][j] == LinearPolyene(n)[i][j]
  {
    var lin := LinearPolyene(n);
    seq(n, i requires 0 <= i < n => seq(n, j requires 0 <= j < n => if RingCorner(n, i, j) then 1.0 else lin[i][j]))
  }

  /** Atoms i and j are neighbours on a ring of n atoms. */
  predicate RingNeighbours(n: nat, i: int, j: int)
    requires n >= 1
  {
    (i - j) % n == 1 || (j - i) % n == 1
  }

  /**
   * `cyclic_polyene(n)`: builds the chain matrix, then writes the two corner
   * entries in place.
   */
  method CyclicPolyene(n: nat) returns (m: array2<real>)
    requires n >= 1
    ensures fresh(m)
    ensures m.Length0 == n && m.Length1 == n
    ensures forall i, j :: 0 <= i < n && 0 <= j < n ==> m[i, j] == CyclicMatrix(n)[i][j]
    ensures forall i, j :: 0 <= i < n && 0 <= j < n && !RingCorner(n, i, j) ==> m[i, j] == LinearPolyene(n)[i][j]
    ensures m[n - 1, 0] == 1.0 && m[0, n - 1] == 1.0
  {
    var lin := LinearPolyene(n);
    m := new real[n, n]((i, j) requires 0 <= i < n && 0 <= j < n => lin[i][j]);
    m[n - 1, 0] := 1.0;
    m[0, n - 1] := 1.0;
  }

  lemma ModOfSmall(x: int, n: int)
    requires 0 <= x < n
    ensures x % n == x
  {
  }

  lemma ModOfNegative(x: int, n: int)
    requires -n < x < 0
    ensures x % n == x + n
  {
    ModOfSmall(x + n, n);
    assert (x + n) % n == x % n;
  }

  /**
   * For n >= 3 the cyclic matrix is the ring adjacency: entry (i, j) is 1
   * exactly when i and j are neighbours modulo n.
   */
  lemma CyclicAdjacency(n: nat, i: nat, j: nat)
    requires n >= 3 && i < n && j < n
    ensures CyclicMatrix(n)[i][j] == if RingNeighbours(n, i, j) then 1.0 else 0.0
  {
    if i >= j {
      ModOfSmall(i - j, n);
      if i > j {
        ModOfNegative(j - i, n);
      } else {
        ModOfSmall(0, n);
      }
    } else {
      ModOfSmall(j - i, n);
      ModOfNegative(i - j, n);
    }
  }

  /** For n >= 3 the cyclic matrix is symmetric with a zero diagonal. */
  lemma CyclicShape(n: nat)
    requires n >= 3
    ensures Symmetric(CyclicMatrix(n)) && ZeroDiagonal(CyclicMatrix(n))
  {
    var m := CyclicMatrix(n);
    forall i, j | 0 <= i < n && 0 <= j < n
      ensures m[i][j] == m[j][i]
    {
      CyclicAdjacency(n, i, j);
      CyclicAdjacency(n, j, i);
    }
  }

  /** Every atom of a ring of n >= 3 atoms has exactly two neighbours. */
  lemma CyclicDegrees(n: nat, i: nat)
    requires n >= 3 && i < n
    ensures Sum(CyclicMatrix(n)[i]) == 2.0
  {
    var row := CyclicMatrix(n)[i];
    if i == 0 {
      assert row == Zeros(0) + [0.0, 1.0] + Zeros(n - 3) + [1.0];
      SumAppend(Zeros(0) + [0.0, 1.0] + Zeros(n - 3), [1.0]);
      SumPadded(0, [0.0, 1.0], n - 3);
      SumOfTwo(0.0, 1.0);
      assert Sum([1.0]) == 1.0;
    } else if i == n - 1 {
      assert row == [1.0] + (Zeros(n - 3) + [1.0, 0.0] + Zeros(0));
      SumAppend([1.0], Zeros(n - 3) + [1.0, 0.0] + Zeros(0));
      SumPadded(n - 3, [1.0, 0.0], 0);
      SumOfTwo(1.0, 0.0);
      assert Sum([1.0]) == 1.0;
    } else {
      assert row == LinearPolyene(n)[i];
      LinearPolyeneDegrees(n, i);
    }
  }

  /** The two tests of cyclic_polyene. */
  lemma CyclicPolyeneExamples()
    ensures CyclicMatrix(3) == [[0.0, 1.0, 1.0], [1.0, 0.0, 1.0], [1.0, 1.0, 0.0]]
    ensures CyclicMatrix(4) == [[0.0, 1.0, 0.0, 1.0], [1.0, 0.0, 1.0, 0.0], [0.0, 1.0, 0.0, 1.0], [1.0, 0.0, 1.0, 0.0]]
  {
    var m3 := CyclicMatrix(3);
    assert m3[0] == [0.0, 1.0, 1.0];
    assert m3[1] == [1.0, 0.0, 1.0];
    assert m3[2] == [1.0, 1.0, 0.0];
    var m4 := CyclicMatrix(4);
    assert m4[0] == [0.0, 1.0, 0.0, 1.0];
    assert m4[1] == [1.0, 0.0, 1.0, 0.0];
    assert m4[2] == [0.0, 1.0, 0.0, 1.0];
    assert m4[3] == [1.0, 0.0, 1.0, 0.0];
  }

  // ---------------------------------------------------------------------------
  // platonic_solid
  // ---------------------------------------------------------------------------

  datatype Solid = Tetrahedron | Octahedron | Cube | Icosahedron | Dodecahedron | Fullerene60

  /** The number of atoms (vertices) of each structure the tables describe. */
  function AtomCount(s: Solid): nat
  {
    match s
    case Tetrahedron => 4
    case Octahedron => 6
    case Cube => 8
    case Icosahedron => 12
    case Dodecahedron => 20
    case Fullerene60 => 60
  }

  /**
   * `platonic_solid(n)`: the table of the solid with n atoms, and the
   * "Unreachable code" exception for any other n.
   */
  function PlatonicSolid(n: int, table: Solid -> seq<seq<real>>): (r: Result<seq<seq<real>>, string>)
    ensures r.Err? ==> forall s :: AtomCount(s) != n
    ensures forall s :: AtomCount(s) == n ==> r == Ok(table(s))
  {
    if n == 4 then Ok(table(Tetrahedron))
    else if n == 6 then Ok(table(Octahedron))
    else if n == 8 then Ok(table(Cube))
    else if n == 12 then Ok(table(Icosahedron))
    else if n == 20 then Ok(table(Dodecahedron))
    else if n == 60 then Ok(table(Fullerene60))
    else Err("Unreachable code")
  }

  /** The sizes platonic_solid accepts are exactly 4, 6, 8, 12, 20 and 60. */
  lemma PlatonicSizes(n: int, table: Solid -> seq<seq<real>>)
    ensures PlatonicSolid(n, table).Ok? <==> n in {4, 6, 8, 12, 20, 60}
  {
    if n in {4, 6, 8, 12, 20, 60} {
      var s := if n == 4 then Tetrahedron else if n == 6 then Octahedron else if n == 8 then Cube
        else if n == 12 then Icosahedron else if n == 20 then Dodecahedron else Fullerene60;
      assert AtomCount(s) == n;
    }
  }
}
