/**
 * The driver of the Hückel program (main.py): grouping of sorted orbital
 * energies into degenerate levels, the order of the printed table, and the
 * dispatch from the parsed request to a calculation.
 *
 * `np.sort` is not modelled; the grouping takes the sorted energies as a
 * second argument, with the contract of a sort (ascending, same multiset).
 * Eigenvalues and the closed-form polyene energies are not modelled.
 */
module HuckelMain {
  import opened Wrappers
  import HuckelInput
  import HuckelMatrix

  /** Two energies closer than this belong to one degenerate level. */
  const Tolerance: real := 0.00001

  function Abs(x: real): real
  {
    if x < 0.0 then -x else x
  }

  predicate Sorted(s: seq<real>)
  {
    forall i, j :: 0 <= i <= j < |s| ==> s[i] <= s[j]
  }

  /** The index of the first member of level g: the degeneracies of the levels before it, added up. */
  function Offset(degeneracies: seq<nat>, g: nat): nat
    requires g <= |degeneracies|
  {
    if g == 0 then 0 else Offset(degeneracies, g - 1) + degeneracies[g - 1]
  }

  /** Offset only looks at the first g degeneracies. */
  lemma {:induction false} OffsetPrefix(a: seq<nat>, b: seq<nat>, g: nat)
    requires g <= |a| && g <= |b| && a[..g] == b[..g]
    ensures Offset(a, g) == Offset(b, g)
  {
    if g > 0 {
      assert a[..g - 1] == a[..g][..g - 1] && b[..g - 1] == b[..g][..g - 1];
      assert a[g - 1] == a[..g][g - 1] && b[g - 1] == b[..g][g - 1];
      OffsetPrefix(a, b, g - 1);
    }
  }

  /** Offsets grow with the level. */
  lemma {:induction false} OffsetMonotone(d: seq<nat>, g: nat, h: nat)
    requires g <= h <= |d|
    ensures Offset(d, g) <= Offset(d, h)
    decreases h - g
  {
    if g < h {
      OffsetMonotone(d, g, h - 1);
    }
  }

  /** Level sizes: positive degeneracies which together cover the first i energies. */
  ghost predicate LevelSizes(sorted: seq<real>, i: nat, energies: seq<real>, degeneracies: seq<nat>)
  {
    && 1 <= |energies| == |degeneracies|
    && i <= |sorted|
    && (forall g :: 0 <= g < |degeneracies| ==> degeneracies[g] >= 1)
    && Offset(degeneracies, |degeneracies|) == i
  }

  /** Each level is represented by its first member. */
  ghost predicate FirstMembers(sorted: seq<real>, energies: seq<real>, degeneracies: seq<nat>)
    requires |energies| == |degeneracies|
  {
    forall g {:trigger energies[g]} :: 0 <= g < |energies| ==> Offset(degeneracies, g) < |sorted| && energies[g] == sorted[Offset(degeneracies, g)]
  }

  /** Representatives are at least the tolerance apart, in ascending order. */
  ghost predicate Separated(energies: seq<real>)
  {
    forall g, h :: 0 <= g < h < |energies| ==> energies[h] - energies[g] >= Tolerance
  }

  /** The energies sorted[start .. start + size] all lie within the tolerance of e. */
  ghost predicate NearLevel(sorted: seq<real>, start: nat, size: nat, e: real)
  {
    forall k :: start <= k < start + size && k < |sorted| ==> Abs(sorted[k] - e) < Tolerance
  }

  /** Each member of a level lies within the tolerance of the level's representative. */
  ghost predicate WithinLevels(sorted: seq<real>, energies: seq<real>, degeneracies: seq<nat>)
    requires |energies| == |degeneracies|
  {
    forall g {:trigger energies[g]} :: 0 <= g < |energies| ==> NearLevel(sorted, Offset(degeneracies, g), degeneracies[g], energies[g])
  }

  /** The state of the grouping after the first i sorted energies. */
  ghost predicate Grouped(sorted: seq<real>, i: nat, energies: seq<real>, degeneracies: seq<nat>)
  {
    && LevelSizes(sorted, i, energies, degeneracies)
    && FirstMembers(sorted, energies, degeneracies)
    && Separated(energies)
    && WithinLevels(sorted, energies, degeneracies)
  }

  /** The last degeneracy, incremented: `degeneracies[-1] += 1`. */
  function BumpLast(d: seq<nat>): (r: seq<nat>)
    requires |d| >= 1
    ensures |r| == |d| && r[|d| - 1] == d[|d| - 1] + 1
    ensures forall g :: 0 <= g < |d| - 1 ==> r[g] == d[g]
  {
    d[|d| - 1 := d[|d| - 1] + 1]
  }

  /** The first energy opens the first level, with degeneracy one. */
  lemma GroupedStart(sorted: seq<real>)
    requires |sorted| >= 1
    ensures Grouped(sorted, 1, [sorted[0]], BumpLast([0]))
  {
    assert BumpLast([0]) == [1];
    assert Offset([1], 1) == 1;
  }

  /** An energy within the tolerance of the current level's first member joins that level. */
  lemma GroupedJoin(sorted: seq<real>, i: nat, energies: seq<real>, degeneracies: seq<nat>)
    requires Grouped(sorted, i, energies, degeneracies) && i < |sorted|
    requires Abs(sorted[i] - energies[|energies| - 1]) < Tolerance
    ensures Grouped(sorted, i + 1, energies, BumpLast(degeneracies))
  {
    BumpOffsets(degeneracies);
    JoinSizes(i, degeneracies);
    JoinFirstMembers(sorted, energies, degeneracies);
    JoinWithinLevels(sorted, i, energies, degeneracies);
  }

  lemma JoinSizes(i: nat, degeneracies: seq<nat>)
    requires |degeneracies| >= 1 && Offset(degeneracies, |degeneracies|) == i
    requires forall g :: 0 <= g < |degeneracies| ==> degeneracies[g] >= 1
    requires Offset(BumpLast(degeneracies), |degeneracies|) == Offset(degeneracies, |degeneracies|) + 1
    ensures Offset(BumpLast(degeneracies), |degeneracies|) == i + 1
    ensures forall g :: 0 <= g < |degeneracies| ==> BumpLast(degeneracies)[g] >= 1
  {
    var bumped := BumpLast(degeneracies);
    forall g | 0 <= g < |degeneracies|
      ensures bumped[g] >= 1
    {
      if g < |degeneracies| - 1 {
        assert bumped[g] == degeneracies[g];
      }
    }
  }

  lemma JoinFirstMembers(sorted: seq<real>, energies: seq<real>, degeneracies: seq<nat>)
    requires |energies| == |degeneracies| >= 1 && FirstMembers(sorted, energies, degeneracies)
    requires forall g :: 0 <= g <= |degeneracies| - 1 ==> Offset(BumpLast(degeneracies), g) == Offset(degeneracies, g)
    ensures FirstMembers(sorted, energies, BumpLast(degeneracies))
  {
    var bumped := BumpLast(degeneracies);
    forall g | 0 <= g < |energies|
      ensures Offset(bumped, g) < |sorted| && energies[g] == sorted[Offset(bumped, g)]
    {
      assert Offset(bumped, g) == Offset(degeneracies, g);
      FirstMemberAt(sorted, energies, degeneracies, g);
    }
  }

  /** One instance of FirstMembers. */
  lemma FirstMemberAt(sorted: seq<real>, energies: seq<real>, degeneracies: seq<nat>, g: nat)
    requires |energies| == |degeneracies| && FirstMembers(sorted, energies, degeneracies) && g < |energies|
    ensures Offset(degeneracies, g) < |sorted| && energies[g] == sorted[Offset(degeneracies, g)]
  {
  }

  /** Incrementing the last degeneracy moves only the end of the last level. */
  lemma BumpOffsets(degeneracies: seq<nat>)
    requires |degeneracies| >= 1
    ensures forall g :: 0 <= g <= |degeneracies| - 1 ==> Offset(BumpLast(degeneracies), g) == Offset(degeneracies, g)
    ensures Offset(BumpLast(degeneracies), |degeneracies|) == Offset(degeneracies, |degeneracies|) + 1
  {
    var n := |degeneracies|;
    forall g | 0 <= g <= n - 1
      ensures Offset(BumpLast(degeneracies), g) == Offset(degeneracies, g)
    {
      BumpOffsetBelow(degeneracies, g);
    }
    BumpOffsetBelow(degeneracies, n - 1);
  }

  lemma {:induction false} BumpOffsetBelow(d: seq<nat>, g: nat)
    requires g <= |d| - 1
    ensures Offset(BumpLast(d), g) == Offset(d, g)
  {
    if g > 0 {
      BumpOffsetBelow(d, g - 1);
      assert BumpLast(d)[g - 1] == d[g - 1];
    }
  }

  lemma JoinWithinLevels(sorted: seq<real>, i: nat, energies: seq<real>, degeneracies: seq<nat>)
    requires |energies| == |degeneracies| >= 1 && WithinLevels(sorted, energies, degeneracies)
    requires Offset(degeneracies, |degeneracies|) == i < |sorted|
    requires Abs(sorted[i] - energies[|energies| - 1]) < Tolerance
    requires forall g :: 0 <= g <= |degeneracies| - 1 ==> Offset(BumpLast(degeneracies), g) == Offset(degeneracies, g)
    ensures WithinLevels(sorted, energies, BumpLast(degeneracies))
  {
    var n := |degeneracies|;
    var bumped := BumpLast(degeneracies);
    forall g | 0 <= g < n
      ensures NearLevel(sorted, Offset(bumped, g), bumped[g], energies[g])
    {
      JoinLevelAt(sorted, i, energies, degeneracies, g);
    }
  }

  /** Level g after the bump: unchanged below the last level, one energy longer at the last. */
  lemma JoinLevelAt(sorted: seq<real>, i: nat, energies: seq<real>, degeneracies: seq<nat>, g: nat)
    requires |energies| == |degeneracies| >= 1 && g < |degeneracies| && WithinLevels(sorted, energies, degeneracies)
    requires Offset(degeneracies, |degeneracies|) == i < |sorted|
    requires Abs(sorted[i] - energies[|energies| - 1]) < Tolerance
    requires Offset(BumpLast(degeneracies), g) == Offset(degeneracies, g)
    ensures NearLevel(sorted, Offset(BumpLast(degeneracies), g), BumpLast(degeneracies)[g], energies[g])
  {
    var n := |degeneracies|;
    assert NearLevel(sorted, Offset(degeneracies, g), degeneracies[g], energies[g]);
    if g == n - 1 {
      assert Offset(degeneracies, n) == Offset(degeneracies, n - 1) + degeneracies[n - 1];
      NearLevelGrows(sorted, Offset(degeneracies, g), degeneracies[g], energies[g]);
    } else {
      assert BumpLast(degeneracies)[g] == degeneracies[g];
    }
  }

  /** A level takes in the next sorted energy when that energy is within the tolerance too. */
  lemma NearLevelGrows(sorted: seq<real>, start: nat, size: nat, e: real)
    requires NearLevel(sorted, start, size, e)
    requires start + size < |sorted| ==> Abs(sorted[start + size] - e) < Tolerance
    ensures NearLevel(sorted, start, size + 1, e)
  {
  }

  /** Appending a level leaves the offsets of the existing levels alone. */
  lemma OffsetsGrow(degeneracies: seq<nat>)
    ensures forall g :: 0 <= g <= |degeneracies| ==> Offset(degeneracies + [1], g) == Offset(degeneracies, g)
    ensures Offset(degeneracies + [1], |degeneracies| + 1) == Offset(degeneracies, |degeneracies|) + 1
  {
    var grown := degeneracies + [1];
    forall g | 0 <= g <= |degeneracies|
      ensures Offset(grown, g) == Offset(degeneracies, g)
    {
      assert grown[..g] == degeneracies[..g];
      OffsetPrefix(grown, degeneracies, g);
    }
  }

  /** A new representative at least the tolerance above the last one keeps the representatives apart. */
  lemma OpenSeparated(energies: seq<real>, e: real)
    requires Separated(energies) && |energies| >= 1
    requires energies[|energies| - 1] <= e
    requires !(Abs(e - energies[|energies| - 1]) < Tolerance)
    ensures Separated(energies + [e])
  {
    var n := |energies|;
    var longer := energies + [e];
    forall g, h | 0 <= g < h < n + 1
      ensures longer[h] - longer[g] >= Tolerance
    {
      if h == n && g < n - 1 {
        assert energies[n - 1] - energies[g] >= Tolerance;
      }
    }
  }

  /** The current level's representative comes from before position i, so it is at most sorted[i]. */
  lemma LastRepresentativeBelow(sorted: seq<real>, i: nat, energies: seq<real>, degeneracies: seq<nat>)
    requires Sorted(sorted)
    requires Grouped(sorted, i, energies, degeneracies) && i < |sorted|
    ensures energies[|energies| - 1] <= sorted[i]
  {
    var n := |degeneracies|;
    assert Offset(degeneracies, n) == Offset(degeneracies, n - 1) + degeneracies[n - 1];
    assert energies[n - 1] == sorted[Offset(degeneracies, n - 1)];
  }

  lemma OpenSizes(sorted: seq<real>, i: nat, energies: seq<real>, degeneracies: seq<nat>, e: real)
    requires LevelSizes(sorted, i, energies, degeneracies) && i < |sorted|
    ensures LevelSizes(sorted, i + 1, energies + [e], degeneracies + [1])
  {
    OffsetsGrow(degeneracies);
  }

  lemma OpenFirstMembers(sorted: seq<real>, i: nat, energies: seq<real>, degeneracies: seq<nat>)
    requires |energies| == |degeneracies| && FirstMembers(sorted, energies, degeneracies)
    requires Offset(degeneracies, |degeneracies|) == i < |sorted|
    ensures FirstMembers(sorted, energies + [sorted[i]], degeneracies + [1])
  {
    var n := |degeneracies|;
    var grown := degeneracies + [1];
    var longer := energies + [sorted[i]];
    OffsetsGrow(degeneracies);
    forall g | 0 <= g < n + 1
      ensures Offset(grown, g) < |sorted| && longer[g] == sorted[Offset(grown, g)]
    {
      if g < n {
        assert longer[g] == energies[g];
      }
    }
  }

  lemma OpenWithin(sorted: seq<real>, i: nat, energies: seq<real>, degeneracies: seq<nat>)
    requires |energies| == |degeneracies| && WithinLevels(sorted, energies, degeneracies)
    requires Offset(degeneracies, |degeneracies|) == i < |sorted|
    ensures WithinLevels(sorted, energies + [sorted[i]], degeneracies + [1])
  {
    var n := |degeneracies|;
    var grown := degeneracies + [1];
    var longer := energies + [sorted[i]];
    OffsetsGrow(degeneracies);
    forall g | 0 <= g < n + 1
      ensures NearLevel(sorted, Offset(grown, g), grown[g], longer[g])
    {
      if g < n {
        assert grown[g] == degeneracies[g] && longer[g] == energies[g];
        assert NearLevel(sorted, Offset(degeneracies, g), degeneracies[g], energies[g]);
      } else {
        assert Abs(sorted[i] - sorted[i]) == 0.0;
      }
    }
  }

  /** An energy outside the tolerance opens a new level, represented by itself. */
  lemma GroupedOpen(sorted: seq<real>, i: nat, energies: seq<real>, degeneracies: seq<nat>)
    requires Grouped(sorted, i, energies, degeneracies) && i < |sorted|
    requires energies[|energies| - 1] <= sorted[i]
    requires !(Abs(sorted[i] - energies[|energies| - 1]) < Tolerance)
    ensures Grouped(sorted, i + 1, energies + [sorted[i]], degeneracies + [1])
  {
    OpenSizes(sorted, i, energies, degeneracies, sorted[i]);
    OpenFirstMembers(sorted, i, energies, degeneracies);
    OpenSeparated(energies, sorted[i]);
    OpenWithin(sorted, i, energies, degeneracies);
  }

  /**
   * The degeneracy detection of `print_results`: one pass over the sorted
   * energies, comparing each with the first member of the current level
   * (`energies[-1]`), and either counting it in that level or opening a new one.
   * The input must not be empty, because the first level is `raw_energies[0]`.
   */
  method GroupDegeneracies(raw: seq<real>, sorted: seq<real>) returns (energies: seq<real>, degeneracies: seq<nat>)
    requires |raw| >= 1
    requires Sorted(sorted) && multiset(sorted) == multiset(raw)
    ensures |energies| == |degeneracies| >= 1
    ensures LevelSizes(sorted, |raw|, energies, degeneracies)
    ensures FirstMembers(sorted, energies, degeneracies)
    ensures Separated(energies)
    ensures WithinLevels(sorted, energies, degeneracies)
    ensures forall g :: 0 <= g < |energies| ==> energies[g] in raw
  {
    assert |sorted| == |raw| by {
      assert |multiset(sorted)| == |multiset(raw)|;
    }
    energies := [sorted[0]];
    degeneracies := [0];
    var i := 0;
    while i < |sorted|
      invariant 0 <= i <= |sorted|
      invariant i == 0 ==> energies == [sorted[0]] && degeneracies == [0]
      invariant i >= 1 ==> Grouped(sorted, i, energies, degeneracies)
    {
      var e := sorted[i];
      if Abs(e - energies[|energies| - 1]) < Tolerance {
        if i == 0 {
          GroupedStart(sorted);
        } else {
          GroupedJoin(sorted, i, energies, degeneracies);
        }
        degeneracies := BumpLast(degeneracies);
      } else {
        LastRepresentativeBelow(sorted, i, energies, degeneracies);
        GroupedOpen(sorted, i, energies, degeneracies);
        energies := energies + [e];
        degeneracies := degeneracies + [1];
      }
      i := i + 1;
    }
    forall g | 0 <= g < |energies|
      ensures energies[g] in raw
    {
      assert energies[g] in multiset(sorted);
    }
  }

  /** One line of the output table: level number, degeneracy, energy. */
  datatype Row = Row(level: int, degeneracy: nat, energy: real)

  function Reverse<T>(s: seq<T>): (r: seq<T>)
    ensures |r| == |s|
    ensures forall k :: 0 <= k < |s| ==> r[k] == s[|s| - 1 - k]
  {
    if |s| == 0 then [] else Reverse(s[1..]) + [s[0]]
  }

  /**
   * `list(enumerate(zip(energies, degeneracies)))[::-1]`, each entry labelled
   * with its index plus one: the table runs from the highest level down to level 1.
   */
  function ResultRows(energies: seq<real>, degeneracies: seq<nat>): (rows: seq<Row>)
    requires |energies| == |degeneracies|
    ensures |rows| == |energies|
    ensures forall k :: 0 <= k < |rows| ==> rows[k].level == |energies| - k
    ensures forall k :: 0 <= k < |rows| ==>
      rows[k].energy == energies[|energies| - 1 - k] && rows[k].degeneracy == degeneracies[|energies| - 1 - k]
  {
    Reverse(seq(|energies|, i requires 0 <= i < |energies| => Row(i + 1, degeneracies[i], energies[i])))
  }

  /** With grouped energies, the printed levels descend in energy from the first row to the last. */
  lemma ResultRowsDescend(energies: seq<real>, degeneracies: seq<nat>, k: nat)
    requires |energies| == |degeneracies|
    requires forall g, h :: 0 <= g < h < |energies| ==> energies[h] - energies[g] >= Tolerance
    requires k + 1 < |energies|
    ensures ResultRows(energies, degeneracies)[k].energy - ResultRows(energies, degeneracies)[k + 1].energy >= Tolerance
    ensures ResultRows(energies, degeneracies)[k].level == ResultRows(energies, degeneracies)[k + 1].level + 1
  {
    var n := |energies|;
    assert n - 1 - k == (n - 1 - (k + 1)) + 1;
  }

  // ---------------------------------------------------------------------------
  // The dispatch at the end of main.py
  // ---------------------------------------------------------------------------

  /** The calculation the program runs. */
  datatype Calculation =
    | NoCalculation
    | PlatonicCalculation(atoms: int)
    | LinearCalculation(atoms: int, optimized: bool)
    | CyclicCalculation(atoms: int, optimized: bool)

  /**
   * The `__main__` block: "no_calc" runs nothing; otherwise the calc function of
   * the structure runs, with `optimized` set when the flag was given. The
   * platonic calculation ignores the flag.
   */
  function Dispatch(request: HuckelInput.Request): (c: Calculation)
    ensures request.structure == HuckelInput.NoCalc <==> c.NoCalculation?
    ensures request.structure == HuckelInput.Platonic <==> c == PlatonicCalculation(request.atoms)
    ensures request.structure == HuckelInput.LinearPolyene <==>
      c == LinearCalculation(request.atoms, "optimized" in request.flags)
    ensures request.structure == HuckelInput.CyclicPolyene <==>
      c == CyclicCalculation(request.atoms, "optimized" in request.flags)
  {
    var optimized := "optimized" in request.flags;
    match request.structure
    case NoCalc => NoCalculation
    case Platonic => PlatonicCalculation(request.atoms)
    case LinearPolyene => LinearCalculation(request.atoms, optimized)
    case CyclicPolyene => CyclicCalculation(request.atoms, optimized)
  }

  /**
   * The matrix a calculation diagonalises: the Platonic table (or the error
   * `platonic_solid` raises for an atom count no solid has), the chain or the
   * ring. The optimised polyene calculations use a closed formula and build no
   * matrix, and neither does "no_calc".
   */
  function Hamiltonian(c: Calculation, table: HuckelMatrix.Solid -> seq<seq<real>>): (h: Option<Result<seq<seq<real>>, string>>)
    ensures h.Some? <==> c.PlatonicCalculation? || ((c.LinearCalculation? || c.CyclicCalculation?) && !c.optimized && c.atoms >= 1)
    ensures c.PlatonicCalculation? ==> forall s :: HuckelMatrix.AtomCount(s) == c.atoms ==> h == Some(Ok(table(s)))
    ensures h.Some? && !c.PlatonicCalculation? ==> h.value.Ok? && HuckelMatrix.IsSquare(h.value.value, c.atoms)
  {
    match c
    case NoCalculation => None
    case PlatonicCalculation(n) => Some(HuckelMatrix.PlatonicSolid(n, table))
    case LinearCalculation(n, optimized) =>
      if optimized || n < 1 then None else Some(Ok(HuckelMatrix.LinearPolyene(n)))
    case CyclicCalculation(n, optimized) =>
      if optimized || n < 1 then None else Some(Ok(HuckelMatrix.CyclicMatrix(n)))
  }

  /**
   * Whatever the command line, the program never reaches the "Unreachable code"
   * exception of `platonic_solid`, and every polyene matrix it builds has the
   * requested size, which the parser guarantees is at least 2 (chain) or 3 (ring).
   */
  lemma DispatchIsSafe(argv: seq<string>, parseInt: string -> Option<int>, table: HuckelMatrix.Solid -> seq<seq<real>>)
    ensures var c := Dispatch(HuckelInput.ParseUserInput(argv, parseInt));
      && (c.PlatonicCalculation? ==> Hamiltonian(c, table) == Some(Ok(table(PlatonicOf(c.atoms)))))
      && (c.LinearCalculation? ==> c.atoms >= 2 && (!c.optimized <==> Hamiltonian(c, table) == Some(Ok(HuckelMatrix.LinearPolyene(c.atoms)))))
      && (c.CyclicCalculation? ==> c.atoms >= 3 && (!c.optimized <==> Hamiltonian(c, table) == Some(Ok(HuckelMatrix.CyclicMatrix(c.atoms)))))
  {
    var c := Dispatch(HuckelInput.ParseUserInput(argv, parseInt));
    if c.PlatonicCalculation? {
      HuckelInput.PlatonicCounts();
      assert HuckelMatrix.AtomCount(PlatonicOf(c.atoms)) == c.atoms;
    }
  }

  /** The solid with a given atom count, for the six counts the parser produces. */
  function PlatonicOf(n: int): HuckelMatrix.Solid
  {
    if n == 4 then HuckelMatrix.Tetrahedron
    else if n == 6 then HuckelMatrix.Octahedron
    else if n == 8 then HuckelMatrix.Cube
    else if n == 12 then HuckelMatrix.Icosahedron
    else if n == 20 then HuckelMatrix.Dodecahedron
    else HuckelMatrix.Fullerene60
  }
}
