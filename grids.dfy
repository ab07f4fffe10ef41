/**
 * Row-major grids: a grid of `rows` by `cols` values as a sequence of rows,
 * and the flat vector numpy makes of it with `flatten()` (or reads into it
 * with `reshape`), cell (i, j) sitting at position i * cols + j.
 */
module Grids {

  predicate IsGrid(g: seq<seq<real>>, rows: nat, cols: nat)
  {
    |g| == rows && forall i :: 0 <= i < rows ==> |g[i]| == cols
  }

  /** `flatten()`: the rows one after another. */
  function Flatten(g: seq<seq<real>>): seq<real>
  {
    if |g| == 0 then [] else g[0] + Flatten(g[1..])
  }

  /** Where row i begins in the flat vector. */
  function RowStart(i: nat, cols: nat): nat
  {
    if i == 0 then 0 else RowStart(i - 1, cols) + cols
  }

  lemma {:induction false} RowStartIsProduct(i: nat, cols: nat)
    ensures RowStart(i, cols) == i * cols
  {
    if i > 0 {
      RowStartIsProduct(i - 1, cols);
      MulStep(i, cols);
    }
  }

  lemma MulStep(i: nat, cols: nat)
    requires i >= 1
    ensures i * cols == cols + (i - 1) * cols
  {
  }

  lemma {:induction false} FlattenAt(g: seq<seq<real>>, rows: nat, cols: nat, i: nat, j: nat)
    requires IsGrid(g, rows, cols)
    requires i < rows && j < cols
    ensures |Flatten(g)| == RowStart(rows, cols)
    ensures RowStart(i, cols) + j < |Flatten(g)| && Flatten(g)[RowStart(i, cols) + j] == g[i][j]
  {
    FlattenLength(g, rows, cols);
    if i > 0 {
      FlattenAt(g[1..], rows - 1, cols, i - 1, j);
      assert |g[0]| == cols;
    }
  }

  lemma {:induction false} FlattenLength(g: seq<seq<real>>, rows: nat, cols: nat)
    requires IsGrid(g, rows, cols)
    ensures |Flatten(g)| == RowStart(rows, cols)
  {
    if rows > 0 {
      FlattenLength(g[1..], rows - 1, cols);
    }
  }

  /** Row-major order: the grid has rows * cols cells, and cell (i, j) is entry i * cols + j of the flat vector. */
  lemma FlattenIndex(g: seq<seq<real>>, rows: nat, cols: nat, i: nat, j: nat)
    requires IsGrid(g, rows, cols)
    requires i < rows && j < cols
    ensures |Flatten(g)| == rows * cols
    ensures i * cols + j < rows * cols
    ensures Flatten(g)[i * cols + j] == g[i][j]
  {
    FlattenAt(g, rows, cols, i, j);
    RowStartIsProduct(i, cols);
    RowStartIsProduct(rows, cols);
  }

  /**
   * `np.unravel_index(k, shape)`: entry k of the flat vector is cell
   * (k / cols, k % cols) of the grid.
   */
  lemma Unravel(g: seq<seq<real>>, rows: nat, cols: nat, k: nat)
    requires IsGrid(g, rows, cols) && k < |Flatten(g)|
    ensures cols > 0 && k / cols < rows && k % cols < cols
    ensures Flatten(g)[k] == g[k / cols][k % cols]
  {
    FlattenLength(g, rows, cols);
    RowStartIsProduct(rows, cols);
    assert cols > 0;
    var i, j := k / cols, k % cols;
    assert k == i * cols + j;
    RowBelow(i, j, rows, cols, k);
    FlattenIndex(g, rows, cols, i, j);
  }

  lemma RowBelow(i: nat, j: nat, rows: nat, cols: nat, k: nat)
    requires k == i * cols + j && k < rows * cols
    ensures i < rows
  {
  }
}
