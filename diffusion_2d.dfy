/**
 * The right-hand side of two-dimensional diffusion in a closed rectangular
 * container (excercise3_kinetics/diffusion_2D.py, `D_conc`), on a generic
 * grid of `rows` by `cols` cells: the flat state vector is reshaped in
 * row-major order, convolved with the five-point Laplacian filter (zero
 * padding), corrected on the edges by `edges * conc`, and flattened again.
 */
module Diffusion2D {
  import opened RealSums
  import opened Grids
  import Diffusion1D

  /** `np.reshape(conc, SHAPE)`: consecutive runs of `cols` entries become the rows. */
  function Reshape(conc: seq<real>, rows: nat, cols: nat): (g: seq<seq<real>>)
    requires |conc| == rows * cols
    ensures IsGrid(g, rows, cols)
    ensures Flatten(g) == conc
    decreases rows
  {
    if rows == 0 then []
    else
      var rest := Reshape(conc[cols..], rows - 1, cols);
      assert ([conc[..cols]] + rest)[1..] == rest;
      [conc[..cols]] + rest
  }

  // ---------------------------------------------------------------------------
  // The stencil
  // ---------------------------------------------------------------------------

  /** g[i][j], or 0 outside the grid: the zero padding of `convolve2d`. */
  function At(g: seq<seq<real>>, rows: nat, cols: nat, i: int, j: int): real
    requires IsGrid(g, rows, cols)
  {
    if 0 <= i < rows && 0 <= j < cols then g[i][j] else 0.0
  }

  /** `convolve2d(conc, [[0,1,0],[1,-4,1],[0,1,0]], mode='same')`. */
  function Convolved(g: seq<seq<real>>, rows: nat, cols: nat): (d: seq<seq<real>>)
    requires IsGrid(g, rows, cols)
    ensures IsGrid(d, rows, cols)
  {
    seq(rows, i requires 0 <= i < rows =>
      seq(cols, j requires 0 <= j < cols =>
        At(g, rows, cols, i - 1, j) + At(g, rows, cols, i + 1, j)
        + At(g, rows, cols, i, j - 1) + At(g, rows, cols, i, j + 1) - 4.0 * g[i][j]))
  }

  function Ind(b: bool): real
  {
    if b then 1.0 else 0.0
  }

  /** The value `edges[i, j]` ends with: one for each of the four `+= 1` updates that reach the cell. */
  function EdgeCount(rows: nat, cols: nat, i: int, j: int): real
  {
    Ind(i == 0) + Ind(j == 0) + Ind(i == rows - 1) + Ind(j == cols - 1)
  }

  /** `base + weights * grid`, cell by cell. */
  function Weighted(base: seq<seq<real>>, weights: seq<seq<real>>, grid: seq<seq<real>>, rows: nat, cols: nat): (d: seq<seq<real>>)
    requires IsGrid(base, rows, cols) && IsGrid(weights, rows, cols) && IsGrid(grid, rows, cols)
    ensures IsGrid(d, rows, cols)
  {
    seq(rows, i requires 0 <= i < rows =>
      seq(cols, j requires 0 <= j < cols => base[i][j] + weights[i][j] * grid[i][j]))
  }

  /** The final contents of `edges`. */
  function EdgeGrid(rows: nat, cols: nat): (e: seq<seq<real>>)
    ensures IsGrid(e, rows, cols)
  {
    seq(rows, i requires 0 <= i < rows => seq(cols, j requires 0 <= j < cols => EdgeCount(rows, cols, i, j)))
  }

  /** `Dconc`: the convolution plus `edges * conc`. */
  function Derivative(g: seq<seq<real>>, rows: nat, cols: nat): (d: seq<seq<real>>)
    requires IsGrid(g, rows, cols)
    ensures IsGrid(d, rows, cols)
  {
    Weighted(Convolved(g, rows, cols), EdgeGrid(rows, cols), g, rows, cols)
  }

  /** `edges`: a zero array, then a `+= 1` on the first row, first column, last row and last column in turn. */
  method EdgeMask(rows: nat, cols: nat) returns (edges: array2<real>)
    requires rows >= 1 && cols >= 1
    ensures fresh(edges)
    ensures edges.Length0 == rows && edges.Length1 == cols
    ensures forall a, b :: 0 <= a < rows && 0 <= b < cols ==> edges[a, b] == EdgeCount(rows, cols, a, b)
  {
    edges := new real[rows, cols]((a, b) => 0.0);
    // edges[0, :] += 1
    var k := 0;
    while k < cols
      invariant 0 <= k <= cols
      invariant forall a, b :: 0 <= a < rows && 0 <= b < cols ==> edges[a, b] == Ind(a == 0 && b < k)
    {
      edges[0, k] := edges[0, k] + 1.0;
      k := k + 1;
    }
    // edges[:, 0] += 1
    k := 0;
    while k < rows
      invariant 0 <= k <= rows
      invariant forall a, b :: 0 <= a < rows && 0 <= b < cols ==>
        edges[a, b] == Ind(a == 0) + Ind(b == 0 && a < k)
    {
      edges[k, 0] := edges[k, 0] + 1.0;
      k := k + 1;
    }
    // edges[-1, :] += 1
    k := 0;
    while k < cols
      invariant 0 <= k <= cols
      invariant forall a, b :: 0 <= a < rows && 0 <= b < cols ==>
        edges[a, b] == Ind(a == 0) + Ind(b == 0) + Ind(a == rows - 1 && b < k)
    {
      edges[rows - 1, k] := edges[rows - 1, k] + 1.0;
      k := k + 1;
    }
    // edges[:, -1] += 1
    k := 0;
    while k < rows
      invariant 0 <= k <= rows
      invariant forall a, b :: 0 <= a < rows && 0 <= b < cols ==>
        edges[a, b] == Ind(a == 0) + Ind(b == 0) + Ind(a == rows - 1) + Ind(b == cols - 1 && a < k)
    {
      edges[k, cols - 1] := edges[k, cols - 1] + 1.0;
      k := k + 1;
    }
    assert forall a, b :: 0 <= a < rows && 0 <= b < cols ==> edges[a, b] == EdgeCount(rows, cols, a, b);
  }

  /** The rows of a two-dimensional array. */
  function Snapshot(a: array2<real>): (g: seq<seq<real>>)
    reads a
    ensures IsGrid(g, a.Length0, a.Length1)
    ensures forall x, y :: 0 <= x < a.Length0 && 0 <= y < a.Length1 ==> g[x][y] == a[x, y]
  {
    seq(a.Length0, x requires 0 <= x < a.Length0 reads a =>
      seq(a.Length1, y requires 0 <= y < a.Length1 reads a => a[x, y]))
  }

  /** `out += weights * grid`, cell by cell in row-major order, where `out` starts as `base`. */
  method AddWeighted(out: array2<real>, base: seq<seq<real>>, weights: seq<seq<real>>, grid: seq<seq<real>>, rows: nat, cols: nat)
    requires out.Length0 == rows && out.Length1 == cols
    requires IsGrid(base, rows, cols) && IsGrid(weights, rows, cols) && IsGrid(grid, rows, cols)
    requires forall x, y :: 0 <= x < rows && 0 <= y < cols ==> out[x, y] == base[x][y]
    modifies out
    ensures forall x, y :: 0 <= x < rows && 0 <= y < cols ==> out[x, y] == Weighted(base, weights, grid, rows, cols)[x][y]
  {
    var a := 0;
    while a < rows
      invariant 0 <= a <= rows
      invariant forall x, y :: 0 <= x < rows && 0 <= y < cols ==>
        out[x, y] == if x < a then base[x][y] + weights[x][y] * grid[x][y] else base[x][y]
    {
      var b := 0;
      while b < cols
        invariant 0 <= b <= cols
        invariant forall x, y :: 0 <= x < rows && 0 <= y < cols ==>
          out[x, y] == if x < a || (x == a && y < b) then base[x][y] + weights[x][y] * grid[x][y] else base[x][y]
      {
        out[a, b] := out[a, b] + weights[a][b] * grid[a][b];
        b := b + 1;
      }
      a := a + 1;
    }
    ghost var w := Weighted(base, weights, grid, rows, cols);
    assert forall x, y :: 0 <= x < rows && 0 <= y < cols ==> w[x][y] == base[x][y] + weights[x][y] * grid[x][y];
  }

  /**
   * `D_conc` on the flat state vector. The edge counts are accumulated in a
   * fresh array by the four slice updates, then added, weighted by the
   * concentration, to the convolution in place.
   */
  method DConc(conc: seq<real>, rows: nat, cols: nat) returns (dconc: seq<real>)
    requires rows >= 1 && cols >= 1 && |conc| == rows * cols
    ensures |dconc| == rows * cols
    ensures dconc == Flatten(Derivative(Reshape(conc, rows, cols), rows, cols))
  {
    var grid := Reshape(conc, rows, cols);
    var result := GridDerivative(grid, rows, cols);
    dconc := Flatten(result);
    FlattenLength(result, rows, cols);
    RowStartIsProduct(rows, cols);
  }

  /** The body of `D_conc` between the reshape and the flatten. */
  method GridDerivative(grid: seq<seq<real>>, rows: nat, cols: nat) returns (result: seq<seq<real>>)
    requires rows >= 1 && cols >= 1 && IsGrid(grid, rows, cols)
    ensures result == Derivative(grid, rows, cols)
  {
    var lap := Convolved(grid, rows, cols);
    var edges := EdgeMask(rows, cols);

    // Dconc += edges * conc
    var out := new real[rows, cols]((a, b) requires 0 <= a < rows && 0 <= b < cols => lap[a][b]);
    assert forall x, y :: 0 <= x < rows && 0 <= y < cols ==> out[x, y] == lap[x][y];
    var weights := Snapshot(edges);
    AddWeighted(out, lap, weights, grid, rows, cols);
    assert weights == EdgeGrid(rows, cols) by {
      forall x | 0 <= x < rows
        ensures weights[x] == EdgeGrid(rows, cols)[x]
      {
        assert forall y :: 0 <= y < cols ==> weights[x][y] == EdgeGrid(rows, cols)[x][y];
      }
    }
    var d := Derivative(grid, rows, cols);
    result := Snapshot(out);
    forall x | 0 <= x < rows
      ensures result[x] == d[x]
    {
      assert forall y :: 0 <= y < cols ==> result[x][y] == d[x][y];
    }
  }

  // ---------------------------------------------------------------------------
  // What the stencil means
  // ---------------------------------------------------------------------------

  /** The neighbour (x, y) of cell (i, j), or the cell itself when (x, y) lies outside. */
  function NeighbourOrSelf(g: seq<seq<real>>, rows: nat, cols: nat, x: int, y: int, i: nat, j: nat): real
    requires IsGrid(g, rows, cols) && i < rows && j < cols
  {
    if 0 <= x < rows && 0 <= y < cols then g[x][y] else g[i][j]
  }

  /**
   * The edge correction replaces every missing neighbour by the cell itself
   * (a reflecting wall); inside the grid this is the plain five-point formula.
   */
  lemma ReflectingWalls(g: seq<seq<real>>, rows: nat, cols: nat, i: nat, j: nat)
    requires IsGrid(g, rows, cols) && i < rows && j < cols
    ensures Derivative(g, rows, cols)[i][j] ==
      NeighbourOrSelf(g, rows, cols, i - 1, j, i, j) + NeighbourOrSelf(g, rows, cols, i + 1, j, i, j)
      + NeighbourOrSelf(g, rows, cols, i, j - 1, i, j) + NeighbourOrSelf(g, rows, cols, i, j + 1, i, j)
      - 4.0 * g[i][j]
    ensures 0 < i < rows - 1 && 0 < j < cols - 1 ==>
      Derivative(g, rows, cols)[i][j] == g[i - 1][j] + g[i + 1][j] + g[i][j - 1] + g[i][j + 1] - 4.0 * g[i][j]
  {
    Reflected(g, rows, cols, i - 1, j, i, j, i == 0);
    Reflected(g, rows, cols, i + 1, j, i, j, i == rows - 1);
    Reflected(g, rows, cols, i, j - 1, i, j, j == 0);
    Reflected(g, rows, cols, i, j + 1, i, j, j == cols - 1);
    DerivativeAt(g, rows, cols, i, j);
  }

  /** x when the flag is set, else 0: one `+= 1` of `edges` times the concentration. */
  function Share(missing: bool, x: real): real
  {
    if missing then x else 0.0
  }

  lemma DerivativeCell(g: seq<seq<real>>, rows: nat, cols: nat, i: nat, j: nat)
    requires IsGrid(g, rows, cols) && i < rows && j < cols
    ensures Derivative(g, rows, cols)[i][j] == Convolved(g, rows, cols)[i][j] + EdgeCount(rows, cols, i, j) * g[i][j]
  {
    assert EdgeGrid(rows, cols)[i][j] == EdgeCount(rows, cols, i, j);
  }

  lemma DerivativeAt(g: seq<seq<real>>, rows: nat, cols: nat, i: nat, j: nat)
    requires IsGrid(g, rows, cols) && i < rows && j < cols
    ensures Derivative(g, rows, cols)[i][j] ==
      At(g, rows, cols, i - 1, j) + At(g, rows, cols, i + 1, j) + At(g, rows, cols, i, j - 1) + At(g, rows, cols, i, j + 1)
      - 4.0 * g[i][j]
      + Share(i == 0, g[i][j]) + Share(i == rows - 1, g[i][j]) + Share(j == 0, g[i][j]) + Share(j == cols - 1, g[i][j])
  {
    var c := Convolved(g, rows, cols);
    var x := g[i][j];
    DerivativeCell(g, rows, cols, i, j);
    SharesAdd(i == 0, j == 0, i == rows - 1, j == cols - 1, x);
  }

  lemma SharesAdd(a: bool, b: bool, c: bool, d: bool, x: real)
    ensures (Ind(a) + Ind(b) + Ind(c) + Ind(d)) * x == Share(a, x) + Share(b, x) + Share(c, x) + Share(d, x)
  {
  }

  /** A zero-padded neighbour plus its share of the edge correction is the reflected neighbour. */
  lemma Reflected(g: seq<seq<real>>, rows: nat, cols: nat, x: int, y: int, i: nat, j: nat, missing: bool)
    requires IsGrid(g, rows, cols) && i < rows && j < cols
    requires missing <==> !(0 <= x < rows && 0 <= y < cols)
    ensures At(g, rows, cols, x, y) + Share(missing, g[i][j]) == NeighbourOrSelf(g, rows, cols, x, y, i, j)
  {
  }

  /** On a grid of at least two by two cells, `edges` is 0 inside, 1 along a side and 2 in a corner. */
  lemma EdgeCountSides(rows: nat, cols: nat, i: nat, j: nat)
    requires rows >= 2 && cols >= 2 && i < rows && j < cols
    ensures EdgeCount(rows, cols, i, j) == 0.0 <==> 0 < i < rows - 1 && 0 < j < cols - 1
    ensures EdgeCount(rows, cols, i, j) == 2.0 <==> (i == 0 || i == rows - 1) && (j == 0 || j == cols - 1)
    ensures EdgeCount(rows, cols, i, j) <= 2.0
  {
  }

  /** Column j of the grid. */
  function Column(g: seq<seq<real>>, rows: nat, cols: nat, j: nat): (c: seq<real>)
    requires IsGrid(g, rows, cols) && j < cols
    ensures |c| == rows
  {
    seq(rows, i requires 0 <= i < rows => g[i][j])
  }

  /** The two-dimensional derivative is the one-dimensional closed-tube derivative along the row plus along the column. */
  lemma RowsAndColumns(g: seq<seq<real>>, rows: nat, cols: nat, i: nat, j: nat)
    requires IsGrid(g, rows, cols) && i < rows && j < cols
    ensures Derivative(g, rows, cols)[i][j] ==
      Diffusion1D.NoFluxDivergence(g[i])[j] + Diffusion1D.NoFluxDivergence(Column(g, rows, cols, j))[i]
  {
    ReflectingWalls(g, rows, cols, i, j);
    var col := Column(g, rows, cols, j);
    if i > 0 { assert col[i - 1] == g[i - 1][j]; }
    if i < rows - 1 { assert col[i + 1] == g[i + 1][j]; }
    assert col[i] == g[i][j];
  }

  // ---------------------------------------------------------------------------
  // Conservation
  // ---------------------------------------------------------------------------

  /** The sum over all cells, row by row. */
  function Total(g: seq<seq<real>>): real
  {
    if |g| == 0 then 0.0 else Sum(g[0]) + Total(g[1..])
  }

  lemma {:induction false} SumFlatten(g: seq<seq<real>>)
    ensures Sum(Flatten(g)) == Total(g)
  {
    if |g| > 0 {
      SumFlatten(g[1..]);
      SumAppend(g[0], Flatten(g[1..]));
    }
  }

  /** The column sums of a grid. */
  function ColumnSums(g: seq<seq<real>>, rows: nat, cols: nat): (s: seq<real>)
    requires IsGrid(g, rows, cols)
    ensures |s| == cols
  {
    seq(cols, j requires 0 <= j < cols => Sum(Column(g, rows, cols, j)))
  }

  /** Adding up by rows or by columns gives the same total. */
  lemma {:induction false} TotalByColumns(g: seq<seq<real>>, rows: nat, cols: nat)
    requires IsGrid(g, rows, cols)
    ensures Total(g) == Sum(ColumnSums(g, rows, cols))
  {
    var s := ColumnSums(g, rows, cols);
    if rows == 0 {
      forall j | 0 <= j < cols
        ensures s[j] == 0.0
      {
        assert Column(g, rows, cols, j) == [];
      }
      SumZeros(s);
    } else {
      var rest := g[1..];
      TotalByColumns(rest, rows - 1, cols);
      var t := ColumnSums(rest, rows - 1, cols);
      forall j | 0 <= j < cols
        ensures s[j] == g[0][j] + t[j]
      {
        var col := Column(g, rows, cols, j);
        assert col[1..] == Column(rest, rows - 1, cols, j);
      }
      SumPointwiseAdd(g[0], t, s);
    }
  }

  /** Totals add up cell by cell. */
  lemma {:induction false} TotalPointwiseAdd(a: seq<seq<real>>, b: seq<seq<real>>, c: seq<seq<real>>, rows: nat, cols: nat)
    requires IsGrid(a, rows, cols) && IsGrid(b, rows, cols) && IsGrid(c, rows, cols)
    requires forall i, j :: 0 <= i < rows && 0 <= j < cols ==> c[i][j] == a[i][j] + b[i][j]
    ensures Total(c) == Total(a) + Total(b)
  {
    if rows > 0 {
      SumPointwiseAdd(a[0], b[0], c[0]);
      TotalPointwiseAdd(a[1..], b[1..], c[1..], rows - 1, cols);
    }
  }

  /** A grid whose every row sums to zero has a zero total. */
  lemma {:induction false} TotalOfBalancedRows(g: seq<seq<real>>)
    requires forall i :: 0 <= i < |g| ==> Sum(g[i]) == 0.0
    ensures Total(g) == 0.0
  {
    if |g| > 0 {
      TotalOfBalancedRows(g[1..]);
    }
  }

  /** The closed container conserves material: the derivative sums to zero over the grid. */
  lemma DerivativeSumsToZero(g: seq<seq<real>>, rows: nat, cols: nat)
    requires IsGrid(g, rows, cols)
    ensures Sum(Flatten(Derivative(g, rows, cols))) == 0.0
  {
    var d := Derivative(g, rows, cols);
    var h := seq(rows, i requires 0 <= i < rows => Diffusion1D.NoFluxDivergence(g[i]));
    var v := seq(rows, i requires 0 <= i < rows =>
      seq(cols, j requires 0 <= j < cols => Diffusion1D.NoFluxDivergence(Column(g, rows, cols, j))[i]));
    forall i, j | 0 <= i < rows && 0 <= j < cols
      ensures d[i][j] == h[i][j] + v[i][j]
    {
      RowsAndColumns(g, rows, cols, i, j);
    }
    TotalPointwiseAdd(h, v, d, rows, cols);

    forall i | 0 <= i < rows
      ensures Sum(h[i]) == 0.0
    {
      Diffusion1D.DivergenceSumsToZero(g[i]);
    }
    TotalOfBalancedRows(h);

    var s := ColumnSums(v, rows, cols);
    forall j | 0 <= j < cols
      ensures s[j] == 0.0
    {
      assert Column(v, rows, cols, j) == Diffusion1D.NoFluxDivergence(Column(g, rows, cols, j));
      Diffusion1D.DivergenceSumsToZero(Column(g, rows, cols, j));
    }
    SumZeros(s);
    TotalByColumns(v, rows, cols);
    SumFlatten(d);
  }

  /** A uniform field does not change. */
  lemma ConstantIsSteady(g: seq<seq<real>>, rows: nat, cols: nat, v: real)
    requires IsGrid(g, rows, cols)
    requires forall i, j :: 0 <= i < rows && 0 <= j < cols ==> g[i][j] == v
    ensures forall i, j :: 0 <= i < rows && 0 <= j < cols ==> Derivative(g, rows, cols)[i][j] == 0.0
  {
    forall i, j | 0 <= i < rows && 0 <= j < cols
      ensures Derivative(g, rows, cols)[i][j] == 0.0
    {
      ReflectingWalls(g, rows, cols, i, j);
    }
  }
}
