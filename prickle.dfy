/**
 * The `Prickle` chart object: built from a samples table and a zero point, it
 * computes the dots, the prickle segments, the odd-element warnings, the ticks
 * and the axis limits that it hands to the renderer.  The one piece of state
 * is the one-shot cell iterator made at construction, which the first
 * `PlotPrickles` drains.
 */
module PricklePlot {
  import opened Grid
  import opened Style
  import opened Geometry

  /** The points and keyword arguments of the scatter call. */
  datatype Scatter = Scatter(points: seq<Point>, keywords: Kwds)

  /**
   * The segments and keyword arguments of the line collection; among the
   * keywords, `segments` maps to `Data`, which stands for the segments field.
   */
  datatype LineCollection = LineCollection(segments: seq<Segment>, keywords: Kwds)

  datatype Interval = Interval(lo: real, hi: real)

  /** Everything `plot` sets on the axes (tick labels aside). */
  datatype Axes = Axes(
    dots: Scatter,
    prickles: LineCollection,
    xticks: seq<nat>,
    yticks: seq<nat>,
    aspect: real,
    xlim: Interval,
    ylim: Interval)

  const DefaultPad: real := 1.0

  /**
   * `plot_dots`: one dot at (column, row) for each non-null cell -- list-like
   * with any number of vectors, or an odd non-null element -- in row-major
   * order, with the scatter's style defaults resolved.
   */
  function PlotDots(samples: Frame, kwds: Kwds): (r: Scatter)
    requires samples.WellFormed()
    ensures forall p :: InGrid(samples, p) ==>
      multiset(r.points)[Pos(p)] == if At(samples, p).Null? then 0 else 1
    ensures forall d :: d in r.points ==>
      exists p :: InGrid(samples, p) && !At(samples, p).Null? && d == Pos(p)
    ensures forall a, b :: 0 <= a < b < |r.points| ==> PointBefore(r.points[a], r.points[b])
    ensures r.keywords == ScatterKeywords(kwds)
  {
    var ij := Cells(samples);
    assert forall p :: InGrid(samples, p) ==>
      multiset(Dots(samples))[Pos(p)] == if At(samples, p).Null? then 0 else 1 by {
      forall p | InGrid(samples, p)
        ensures multiset(Dots(samples))[Pos(p)] == if At(samples, p).Null? then 0 else 1
      {
        RowMajorNoRepeats(ij);
        DotsFromCell(samples, ij, p);
      }
    }
    assert forall d :: d in Dots(samples) ==>
      exists p :: InGrid(samples, p) && !At(samples, p).Null? && d == Pos(p) by {
      forall d | d in Dots(samples)
        ensures exists p :: InGrid(samples, p) && !At(samples, p).Null? && d == Pos(p)
      {
        DotsAreNonNullCells(samples, ij, d);
      }
    }
    DotsRowMajor(samples, ij);
    Scatter(Dots(samples), ScatterKeywords(kwds))
  }

  /** `range(n)` as tick positions. */
  function Ticks(n: nat): (r: seq<nat>)
    ensures |r| == n
    ensures forall k :: 0 <= k < n ==> r[k] == k
  {
    seq(n, k requires 0 <= k < n => k)
  }

  /**
   * The axis range for `n` grid lines: it leaves a margin of `pad` before the
   * first grid line (0) and after the last (n - 1), so with a non-negative pad
   * every grid line lies inside it, strictly inside when the pad is positive.
   */
  function Limits(n: nat, pad: real): (r: Interval)
    ensures r.hi - r.lo == (n as real - 1.0) + 2.0 * pad
    ensures 0.0 - r.lo == pad && r.hi - (n as real - 1.0) == pad
    ensures pad >= 0.0 ==> forall t :: t in Ticks(n) ==> r.lo <= t as real <= r.hi
    ensures pad > 0.0 ==> forall t :: t in Ticks(n) ==> r.lo < t as real < r.hi
  {
    Interval(-pad, n as real + pad - 1.0)
  }

  /** With a non-negative pad every dot lies within both axis ranges. */
  lemma DotsInsideLimits(samples: Frame, pad: real, kwds: Kwds)
    requires samples.WellFormed() && pad >= 0.0
    ensures forall d :: d in PlotDots(samples, kwds).points ==>
      Limits(samples.ncols, pad).lo <= d.x <= Limits(samples.ncols, pad).hi &&
      Limits(samples.NRows(), pad).lo <= d.y <= Limits(samples.NRows(), pad).hi
  {
  }

  class Prickle {
    const samples: Frame
    const zero: Point
    const nrows: nat
    const ncols: nat
    /** The cells that the one-shot iterator `self.ij` has still to yield. */
    var ij: seq<Index>

    ghost predicate Valid()
      reads this
    {
      samples.WellFormed() && nrows == samples.NRows() && ncols == samples.ncols &&
      AllInGrid(samples, ij)
    }

    /** Records the table's shape and makes the iterator over all its cells, row by row. */
    constructor (samples: Frame, zero: Point)
      requires samples.WellFormed()
      ensures Valid()
      ensures this.samples == samples && this.zero == zero
      ensures nrows == samples.NRows() && ncols == samples.ncols
      ensures ij == Cells(samples)
    {
      this.samples := samples;
      this.zero := zero;
      this.nrows := samples.NRows();
      this.ncols := samples.ncols;
      this.ij := Cells(samples);
    }

    /**
     * `plot_prickles`: drains the iterator; for each cell it yields, a
     * list-like cell adds one segment per vector, an odd non-null cell adds a
     * warning, a null cell adds nothing.  A second call finds the iterator
     * empty.  Only then is the line collection made; it fails (None) when the
     * caller passed `segments` as well, after the iterator is drained and the
     * warnings are issued.
     */
    method PlotPrickles(kwds: Kwds) returns (lines: Option<LineCollection>, warnings: seq<Warning>)
      requires Valid()
      modifies this`ij
      ensures Valid() && ij == []
      ensures warnings == WarningsOf(samples, old(ij))
      ensures lines.Some? <==> SegmentsKey !in kwds
      ensures lines.Some? ==> lines.value.segments == SegmentsOf(samples, zero, old(ij))
      ensures lines.Some? ==> Some(lines.value.keywords) == LineKeywords(kwds)
    {
      var segments: seq<Segment> := [];
      warnings := [];
      while ij != []
        invariant Valid()
        invariant segments + SegmentsOf(samples, zero, ij) == SegmentsOf(samples, zero, old(ij))
        invariant warnings + WarningsOf(samples, ij) == WarningsOf(samples, old(ij))
        decreases |ij|
      {
        var cell := ij[0];
        assert cell in ij;
        var (i, j) := cell;
        var element := samples.rows[i][j];
        assert SegmentsOf(samples, zero, ij) == CellSegments(cell, element, zero) + SegmentsOf(samples, zero, ij[1..]);
        assert WarningsOf(samples, ij) == CellWarnings(cell, element) + WarningsOf(samples, ij[1..]);
        ij := ij[1..];
        var here: seq<Segment> := [];
        var odd: seq<Warning> := [];
        match element {
          case Vectors(vs) =>
            here := CellPrickles(i, j, vs);
          case Scalar =>
            odd := [OddElement(i, j)];
          case Null =>
        }
        assert here == CellSegments(cell, element, zero) && odd == CellWarnings(cell, element);
        AppendAssociates(segments, here, SegmentsOf(samples, zero, ij));
        AppendAssociates(warnings, odd, WarningsOf(samples, ij));
        segments := segments + here;
        warnings := warnings + odd;
      }
      var keywords := LineKeywords(kwds);
      if keywords.Some? {
        lines := Some(LineCollection(segments, keywords.value));
      } else {
        lines := None;
      }
    }

    /**
     * The inner loop of `plot_prickles` for the list-like cell at (i, j): one
     * segment per vector, from the grid position (j, i) to that position
     * displaced by the vector minus zero, in vector order.
     */
    method CellPrickles(i: nat, j: nat, vs: seq<Point>) returns (segments: seq<Segment>)
      ensures segments == Prickles((i, j), vs, zero)
    {
      var x0, y0 := j as real, i as real;
      segments := [];
      var k := 0;
      while k < |vs|
        invariant 0 <= k <= |vs|
        invariant segments + Prickles((i, j), vs[k..], zero) == Prickles((i, j), vs, zero)
      {
        var vector := Point(vs[k].x - zero.x, vs[k].y - zero.y);
        var x1 := x0 + vector.x;
        var y1 := y0 + vector.y;
        assert vs[k..][1..] == vs[k + 1..];
        segments := segments + [Segment(Point(x0, y0), Point(x1, y1))];
        k := k + 1;
      }
    }

    /**
     * `plot`: dots, then prickles, then ticks at every column and row index,
     * equal aspect, and axis limits padded by `pad` on each side.  When the
     * prickles fail, so does `plot`, and no axes are set up; the iterator is
     * drained and the warnings issued all the same.
     */
    method Plot(pad: real := DefaultPad, dotKwds: Kwds := map[], prickleKwds: Kwds := map[])
      returns (ax: Option<Axes>, warnings: seq<Warning>)
      requires Valid()
      modifies this`ij
      ensures Valid() && ij == []
      ensures warnings == WarningsOf(samples, old(ij))
      ensures ax.Some? <==> SegmentsKey !in prickleKwds
      ensures ax.Some? ==> ax.value.dots == PlotDots(samples, dotKwds)
      ensures ax.Some? ==> ax.value.prickles.segments == SegmentsOf(samples, zero, old(ij))
      ensures ax.Some? ==> Some(ax.value.prickles.keywords) == LineKeywords(prickleKwds)
      ensures ax.Some? ==> ax.value.xticks == Ticks(ncols) && ax.value.yticks == Ticks(nrows)
      ensures ax.Some? ==> ax.value.aspect == 1.0
      ensures ax.Some? ==> ax.value.xlim == Limits(ncols, pad) && ax.value.ylim == Limits(nrows, pad)
      ensures ax.Some? && pad == DefaultPad ==>
        ax.value.xlim == Interval(-1.0, ncols as real) && ax.value.ylim == Interval(-1.0, nrows as real)
    {
      var dots := PlotDots(samples, dotKwds);
      var lines;
      lines, warnings := PlotPrickles(prickleKwds);
      if lines.Some? {
        ax := Some(Axes(dots, lines.value, Ticks(ncols), Ticks(nrows), 1.0, Limits(ncols, pad), Limits(nrows, pad)));
      } else {
        ax := None;
      }
    }
  }

  /**
   * The iterator is made once, in the constructor: the first `PlotPrickles`
   * on an object draws every prickle and warns about every odd cell of the
   * table; a second one on the same object draws and warns about nothing.
   * That holds even when the first call's line collection failed.
   */
  method PlotPricklesTwice(samples: Frame, zero: Point, kwds: Kwds)
    returns (first: Option<LineCollection>, firstWarnings: seq<Warning>,
             second: Option<LineCollection>, secondWarnings: seq<Warning>)
    requires samples.WellFormed()
    ensures firstWarnings == Warnings(samples) && secondWarnings == []
    ensures first.Some? <==> SegmentsKey !in kwds
    ensures first.Some? ==> first.value.segments == Segments(samples, zero)
    ensures second.Some? <==> SegmentsKey !in kwds
    ensures second.Some? ==> second.value.segments == []
  {
    var chart := new Prickle(samples, zero);
    first, firstWarnings := chart.PlotPrickles(kwds);
    second, secondWarnings := chart.PlotPrickles(kwds);
  }

  /** A 2 x 2 table: [(1, 1)] | null over [(2, 0), (0, 2)] | 5. */
  function ExampleTable(): (f: Frame)
    ensures f.WellFormed()
  {
    Frame(2, [[Vectors([Point(1.0, 1.0)]), Null],
              [Vectors([Point(2.0, 0.0), Point(0.0, 2.0)]), Scalar]])
  }

  /** The example's cells, in row-major order. */
  lemma ExampleCells()
    ensures Cells(ExampleTable()) == [(0, 0), (0, 1), (1, 0), (1, 1)]
  {
  }

  /**
   * Three dots: at (0, 0), (0, 1) and (1, 1), for cells (0, 0), (1, 0) and
   * (1, 1); the odd element 5 is not null, so it gets a dot as well.
   */
  lemma ExampleDots()
    ensures Dots(ExampleTable()) == [Point(0.0, 0.0), Point(0.0, 1.0), Point(1.0, 1.0)]
  {
  }

  /**
   * Three prickles, for any zero point z: (0,0)->(1,1), (0,1)->(2,1) and
   * (0,1)->(0,3), each end shifted by -z.
   */
  lemma ExampleSegments(z: Point)
    ensures Segments(ExampleTable(), z) == [
      Segment(Point(0.0, 0.0), Point(1.0 - z.x, 1.0 - z.y)),
      Segment(Point(0.0, 1.0), Point(2.0 - z.x, 1.0 - z.y)),
      Segment(Point(0.0, 1.0), Point(0.0 - z.x, 3.0 - z.y))]
  {
    ExampleCells();
    ExampleSegmentsOf(z, Cells(ExampleTable()));
  }

  /**
   * The same three prickles, for the example's cells taken in row-major
   * order.  The cells come in as a parameter, so that the solver takes the
   * recursion one cell at a time rather than unfolding a literal sequence.
   */
  lemma ExampleSegmentsOf(z: Point, ij: seq<Index>)
    requires ij == [(0, 0), (0, 1), (1, 0), (1, 1)]
    ensures SegmentsOf(ExampleTable(), z, ij) == [
      Segment(Point(0.0, 0.0), Point(1.0 - z.x, 1.0 - z.y)),
      Segment(Point(0.0, 1.0), Point(2.0 - z.x, 1.0 - z.y)),
      Segment(Point(0.0, 1.0), Point(0.0 - z.x, 3.0 - z.y))]
  {
    var f := ExampleTable();
    var s0 := Segment(Point(0.0, 0.0), Point(1.0 - z.x, 1.0 - z.y));
    var s1 := Segment(Point(0.0, 1.0), Point(2.0 - z.x, 1.0 - z.y));
    var s2 := Segment(Point(0.0, 1.0), Point(0.0 - z.x, 3.0 - z.y));
    var vs0, vs2 := At(f, (0, 0)).vs, At(f, (1, 0)).vs;
    assert vs0[1..] == [] && Prickles((0, 0), vs0[1..], z) == [];
    assert vs2[1..][1..] == [] && Prickles((1, 0), vs2[1..][1..], z) == [];
    assert Prickles((1, 0), vs2[1..], z) == [s2];
    assert CellSegments((0, 0), At(f, (0, 0)), z) == [s0];
    assert CellSegments((1, 0), At(f, (1, 0)), z) == [s1, s2];
    var r1, r2, r3 := ij[1..], ij[2..], ij[3..];
    assert r1[1..] == r2 && r2[1..] == r3 && r3[1..] == [];
    assert SegmentsOf(f, z, r3) == [];
    assert SegmentsOf(f, z, r2) == [s1, s2];
    assert SegmentsOf(f, z, r1) == [s1, s2];
  }

  /** One warning, for row 1, column 1. */
  lemma ExampleWarnings()
    ensures Warnings(ExampleTable()) == [OddElement(1, 1)]
  {
  }
}
