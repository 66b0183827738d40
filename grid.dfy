/**
 * The samples table of a prickle plot: a rows x columns grid of cells, each
 * either null, a list-like value read as a sequence of (x, y) vectors, or some
 * other non-null value that cannot be drawn.  Also the row-major order in which
 * `itertools.product(range(nrows), range(ncols))` visits the cells.
 */
module Grid {

  /** A point of the drawing plane; a vector held in a cell is read the same way. */
  datatype Point = Point(x: real, y: real)

  /**
   * One element of the table, classified once:
   *   Null     -- a missing value (None / NaN), for which `notnull` is false;
   *   Vectors  -- any value with a length, read as a sequence of (x, y) pairs;
   *   Scalar   -- a non-null value without a length.
   */
  datatype Cell = Null | Vectors(vs: seq<Point>) | Scalar

  /** A table with `ncols` columns and one sequence of cells per row. */
  datatype Frame = Frame(ncols: nat, rows: seq<seq<Cell>>) {
    function NRows(): nat { |rows| }

    /** Every row has exactly `ncols` cells, as in any data frame. */
    predicate WellFormed() {
      forall i :: 0 <= i < |rows| ==> |rows[i]| == ncols
    }
  }

  /** A positional (row, column) index into the table. */
  type Index = (nat, nat)

  predicate InGrid(f: Frame, p: Index) {
    p.0 < f.NRows() && p.1 < f.ncols
  }

  /** Every index of `ij` is a cell of the table. */
  predicate AllInGrid(f: Frame, ij: seq<Index>) {
    forall p :: p in ij ==> InGrid(f, p)
  }

  /** The element at positional index `p` (`samples.iloc[i, j]`). */
  function At(f: Frame, p: Index): Cell
    requires f.WellFormed() && InGrid(f, p)
  {
    f.rows[p.0][p.1]
  }

  /** The grid position of a cell: column index on x, row index on y. */
  function Pos(p: Index): Point {
    Point(p.1 as real, p.0 as real)
  }

  /** Distinct cells have distinct grid positions. */
  lemma PosInjective(p: Index, q: Index)
    requires p != q
    ensures Pos(p) != Pos(q)
  {
  }

  /** Lexicographic order on indices: row first, then column. */
  predicate Before(p: Index, q: Index) {
    p.0 < q.0 || (p.0 == q.0 && p.1 < q.1)
  }

  /** Strictly increasing in row-major order (so also free of repeats). */
  predicate RowMajor(ij: seq<Index>) {
    forall a, b :: 0 <= a < b < |ij| ==> Before(ij[a], ij[b])
  }

  /** The cells of row `i`, left to right. */
  function RowCells(i: nat, ncols: nat): (r: seq<Index>)
    ensures |r| == ncols
    ensures forall j :: 0 <= j < ncols ==> r[j] == (i, j)
  {
    seq(ncols, j requires 0 <= j < ncols => (i, j))
  }

  /**
   * `product(range(nrows), range(ncols))`: every index of the grid, all
   * columns of row 0 first, then row 1, and so on.
   */
  function Product(nrows: nat, ncols: nat): (r: seq<Index>)
    ensures |r| == nrows * ncols
    ensures forall p :: p in r <==> p.0 < nrows && p.1 < ncols
  {
    if nrows == 0 then []
    else
      var r := Product(nrows - 1, ncols) + RowCells(nrows - 1, ncols);
      assert forall p :: p in RowCells(nrows - 1, ncols) <==> p.0 == nrows - 1 && p.1 < ncols by {
        forall p: Index | p.0 == nrows - 1 && p.1 < ncols
          ensures p in RowCells(nrows - 1, ncols)
        {
          assert RowCells(nrows - 1, ncols)[p.1] == p;
        }
      }
      r
  }

  /** The product enumerates the grid in strictly increasing row-major order. */
  lemma {:induction false} ProductRowMajor(nrows: nat, ncols: nat)
    ensures RowMajor(Product(nrows, ncols))
  {
    if nrows > 0 {
      ProductRowMajor(nrows - 1, ncols);
      var front, row := Product(nrows - 1, ncols), RowCells(nrows - 1, ncols);
      assert Product(nrows, ncols) == front + row;
      forall a, b | 0 <= a < b < |front + row|
        ensures Before((front + row)[a], (front + row)[b])
      {
        if b < |front| {
          assert (front + row)[a] == front[a] && (front + row)[b] == front[b];
        } else if a < |front| {
          assert (front + row)[a] == front[a] && front[a] in front;
          assert front[a].0 < nrows - 1;
          assert (front + row)[b] == row[b - |front|] == (nrows - 1, b - |front|);
        } else {
          assert (front + row)[a] == row[a - |front|] && (front + row)[b] == row[b - |front|];
        }
      }
    }
  }
}
