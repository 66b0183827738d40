/**
 * What a prickle plot draws, as data: the prickle segments and the odd-element
 * warnings that one pass over a sequence of cells produces, and the dots of
 * the non-null cells.  Each is defined over a sequence of cell indices taken in
 * order, and the lemmas relate them to the cells of the table.
 */
module Geometry {
  import opened Grid

  /** A line segment `[[x0, y0], [x1, y1]]`. */
  datatype Segment = Segment(from: Point, to: Point)

  /** The warning for a non-null cell that is not list-like, at positional index (i, j). */
  datatype Warning = OddElement(i: nat, j: nat)

  /**
   * The prickle of vector `v` of the cell at `p`: it starts at the cell's grid
   * position and is displaced by `v - zero`.
   */
  function PrickleSegment(p: Index, v: Point, zero: Point): (s: Segment)
    ensures s.from == Pos(p)
    ensures s.to.x - s.from.x == v.x - zero.x && s.to.y - s.from.y == v.y - zero.y
  {
    var start := Pos(p);
    Segment(start, Point(start.x + (v.x - zero.x), start.y + (v.y - zero.y)))
  }

  /** The prickles of vectors `vs` of the cell at `p`, in vector order. */
  function Prickles(p: Index, vs: seq<Point>, zero: Point): seq<Segment> {
    if vs == [] then [] else [PrickleSegment(p, vs[0], zero)] + Prickles(p, vs[1..], zero)
  }

  /** The prickles of one cell; none unless the cell is list-like. */
  function CellSegments(p: Index, c: Cell, zero: Point): seq<Segment> {
    match c
    case Vectors(vs) => Prickles(p, vs, zero)
    case _ => []
  }

  /** The warnings of one cell: one if it is non-null and not list-like. */
  function CellWarnings(p: Index, c: Cell): seq<Warning> {
    if c.Scalar? then [OddElement(p.0, p.1)] else []
  }

  /** The dots of one cell: its grid position, unless it is null. */
  function CellDots(p: Index, c: Cell): seq<Point> {
    if c.Null? then [] else [Pos(p)]
  }

  /** The segments produced by visiting the cells `ij` in order. */
  function SegmentsOf(f: Frame, zero: Point, ij: seq<Index>): seq<Segment>
    requires f.WellFormed() && AllInGrid(f, ij)
  {
    if ij == [] then [] else CellSegments(ij[0], At(f, ij[0]), zero) + SegmentsOf(f, zero, ij[1..])
  }

  /** The warnings produced by visiting the cells `ij` in order. */
  function WarningsOf(f: Frame, ij: seq<Index>): seq<Warning>
    requires f.WellFormed() && AllInGrid(f, ij)
  {
    if ij == [] then [] else CellWarnings(ij[0], At(f, ij[0])) + WarningsOf(f, ij[1..])
  }

  /** The grid positions of the non-null cells among `ij`, in order. */
  function DotsOf(f: Frame, ij: seq<Index>): seq<Point>
    requires f.WellFormed() && AllInGrid(f, ij)
  {
    if ij == [] then [] else CellDots(ij[0], At(f, ij[0])) + DotsOf(f, ij[1..])
  }

  /** The number of vectors held by the list-like cells among `ij`. */
  function VectorCount(f: Frame, ij: seq<Index>): nat
    requires f.WellFormed() && AllInGrid(f, ij)
  {
    if ij == [] then 0
    else (match At(f, ij[0]) case Vectors(vs) => |vs| case _ => 0) + VectorCount(f, ij[1..])
  }

  /** All cells of the table in row-major order. */
  function Cells(f: Frame): (ij: seq<Index>)
    ensures AllInGrid(f, ij) && RowMajor(ij)
    ensures forall p :: p in ij <==> InGrid(f, p)
  {
    ProductRowMajor(f.NRows(), f.ncols);
    Product(f.NRows(), f.ncols)
  }

  /** The prickles of the whole table. */
  function Segments(f: Frame, zero: Point): seq<Segment>
    requires f.WellFormed()
  {
    SegmentsOf(f, zero, Cells(f))
  }

  /** The warnings of the whole table. */
  function Warnings(f: Frame): seq<Warning>
    requires f.WellFormed()
  {
    WarningsOf(f, Cells(f))
  }

  /** The dots of the whole table, as (column, row) of each non-null cell. */
  function Dots(f: Frame): seq<Point>
    requires f.WellFormed()
  {
    DotsOf(f, Cells(f))
  }

  /** The segments of `q` that start at point `o`, in order. */
  function StartingAt(q: seq<Segment>, o: Point): seq<Segment> {
    if q == [] then []
    else (if q[0].from == o then [q[0]] else []) + StartingAt(q[1..], o)
  }

  /** Concatenation groups either way. */
  lemma AppendAssociates<T>(a: seq<T>, b: seq<T>, c: seq<T>)
    ensures a + b + c == a + (b + c)
  {
  }

  // ---------------------------------------------------------------------------
  // Order: visiting cells one after another concatenates their contributions.

  /** The segments of `a + b` are those of `a` followed by those of `b`. */
  lemma {:induction false} SegmentsOfAppend(f: Frame, zero: Point, a: seq<Index>, b: seq<Index>)
    requires f.WellFormed() && AllInGrid(f, a + b)
    ensures AllInGrid(f, a) && AllInGrid(f, b)
    ensures SegmentsOf(f, zero, a + b) == SegmentsOf(f, zero, a) + SegmentsOf(f, zero, b)
  {
    if a == [] {
      assert a + b == b;
    } else {
      assert (a + b)[0] == a[0] && (a + b)[1..] == a[1..] + b;
      SegmentsOfAppend(f, zero, a[1..], b);
    }
  }

  /**
   * Within the segments of `ij`, those of the cell `ij[n]` form one block in
   * vector order, after the segments of every earlier cell and before those
   * of every later one.
   */
  lemma SegmentsBlock(f: Frame, zero: Point, ij: seq<Index>, n: nat)
    requires f.WellFormed() && AllInGrid(f, ij) && n < |ij|
    ensures InGrid(f, ij[n]) && AllInGrid(f, ij[..n]) && AllInGrid(f, ij[n + 1..])
    ensures SegmentsOf(f, zero, ij) ==
      SegmentsOf(f, zero, ij[..n]) + CellSegments(ij[n], At(f, ij[n]), zero) + SegmentsOf(f, zero, ij[n + 1..])
  {
    var pre, post := ij[..n], ij[n..];
    assert ij[n] in ij;
    assert ij == pre + post;
    SegmentsOfAppend(f, zero, pre, post);
    assert post[0] == ij[n] && post[1..] == ij[n + 1..];
    assert SegmentsOf(f, zero, post) == CellSegments(ij[n], At(f, ij[n]), zero) + SegmentsOf(f, zero, ij[n + 1..]);
    AppendAssociates(SegmentsOf(f, zero, pre), CellSegments(ij[n], At(f, ij[n]), zero), SegmentsOf(f, zero, ij[n + 1..]));
  }

  // ---------------------------------------------------------------------------
  // Counts and per-cell contributions.

  /** One prickle per vector, in vector order. */
  lemma {:induction false} PricklesAt(p: Index, vs: seq<Point>, zero: Point)
    ensures |Prickles(p, vs, zero)| == |vs|
    ensures forall k :: 0 <= k < |vs| ==> Prickles(p, vs, zero)[k] == PrickleSegment(p, vs[k], zero)
  {
    if vs != [] {
      PricklesAt(p, vs[1..], zero);
    }
  }

  /** The number of prickles is the number of vectors held by list-like cells. */
  lemma {:induction false} SegmentCount(f: Frame, zero: Point, ij: seq<Index>)
    requires f.WellFormed() && AllInGrid(f, ij)
    ensures |SegmentsOf(f, zero, ij)| == VectorCount(f, ij)
  {
    if ij != [] {
      assert ij[0] in ij;
      SegmentCount(f, zero, ij[1..]);
      if At(f, ij[0]).Vectors? {
        PricklesAt(ij[0], At(f, ij[0]).vs, zero);
      }
    }
  }

  lemma {:induction false} StartingAtAppend(q1: seq<Segment>, q2: seq<Segment>, o: Point)
    ensures StartingAt(q1 + q2, o) == StartingAt(q1, o) + StartingAt(q2, o)
  {
    if q1 == [] {
      assert q1 + q2 == q2;
    } else {
      assert (q1 + q2)[0] == q1[0] && (q1 + q2)[1..] == q1[1..] + q2;
      StartingAtAppend(q1[1..], q2, o);
    }
  }

  /** Every prickle of a cell starts at that cell's grid position. */
  lemma {:induction false} PricklesStartAt(p: Index, vs: seq<Point>, zero: Point, o: Point)
    ensures StartingAt(Prickles(p, vs, zero), o) == if o == Pos(p) then Prickles(p, vs, zero) else []
  {
    if vs != [] {
      PricklesStartAt(p, vs[1..], zero, o);
    }
  }

  /** Of the prickles of the cell at `q`, those starting at the grid position of `p` are all of them if q is p, and none otherwise. */
  lemma CellSegmentsStartAt(q: Index, c: Cell, zero: Point, p: Index)
    ensures StartingAt(CellSegments(q, c, zero), Pos(p)) == if q == p then CellSegments(q, c, zero) else []
  {
    if q != p {
      PosInjective(q, p);
    }
    if c.Vectors? {
      PricklesStartAt(q, c.vs, zero, Pos(p));
    }
  }

  /** No index occurs twice; stated one element at a time. */
  predicate NoRepeats(ij: seq<Index>) {
    ij == [] || (ij[0] !in ij[1..] && NoRepeats(ij[1..]))
  }

  /** A strictly row-major sequence has no repeats. */
  lemma {:induction false} RowMajorNoRepeats(ij: seq<Index>)
    requires RowMajor(ij)
    ensures NoRepeats(ij)
  {
    if ij != [] {
      var rest := ij[1..];
      assert RowMajor(rest) by {
        forall a, b | 0 <= a < b < |rest| ensures Before(rest[a], rest[b]) {
          assert rest[a] == ij[a + 1] && rest[b] == ij[b + 1];
        }
      }
      RowMajorNoRepeats(rest);
      forall n | 0 <= n < |rest| ensures rest[n] != ij[0] {
        assert Before(ij[0], ij[n + 1]);
      }
    }
  }

  /**
   * Over cells taken without repeats, the segments starting at the grid
   * position of `p` are exactly the prickles of cell `p` in vector order if
   * `p` is visited, and none otherwise.
   */
  lemma {:induction false} SegmentsFromCell(f: Frame, zero: Point, ij: seq<Index>, p: Index)
    requires f.WellFormed() && AllInGrid(f, ij) && NoRepeats(ij) && InGrid(f, p)
    ensures StartingAt(SegmentsOf(f, zero, ij), Pos(p)) ==
      if p in ij then CellSegments(p, At(f, p), zero) else []
  {
    if ij != [] {
      var first, rest := ij[0], ij[1..];
      assert first in ij;
      var here, later := CellSegments(first, At(f, first), zero), SegmentsOf(f, zero, rest);
      SegmentsFromCell(f, zero, rest, p);
      StartingAtAppend(here, later, Pos(p));
      CellSegmentsStartAt(first, At(f, first), zero, p);
      if first == p {
        assert p !in rest;
        assert StartingAt(SegmentsOf(f, zero, ij), Pos(p)) == here + [];
      } else {
        assert p in ij <==> p in rest by {
          assert ij == [first] + rest;
        }
        assert StartingAt(SegmentsOf(f, zero, ij), Pos(p)) == [] + StartingAt(later, Pos(p));
      }
    }
  }

  /** Over cells taken without repeats, an odd visited cell is warned about once, any other cell never. */
  lemma {:induction false} WarningsFromCell(f: Frame, ij: seq<Index>, p: Index)
    requires f.WellFormed() && AllInGrid(f, ij) && NoRepeats(ij) && InGrid(f, p)
    ensures multiset(WarningsOf(f, ij))[OddElement(p.0, p.1)] ==
      if p in ij && At(f, p).Scalar? then 1 else 0
  {
    if ij != [] {
      var first, rest := ij[0], ij[1..];
      assert first in ij;
      WarningsFromCell(f, rest, p);
      assert multiset(WarningsOf(f, ij)) == multiset(CellWarnings(first, At(f, first))) + multiset(WarningsOf(f, rest));
      assert p in ij <==> p == first || p in rest by {
        assert ij == [first] + rest;
      }
    }
  }

  /** Over cells taken without repeats, a non-null visited cell has one dot, any other cell none. */
  lemma {:induction false} DotsFromCell(f: Frame, ij: seq<Index>, p: Index)
    requires f.WellFormed() && AllInGrid(f, ij) && NoRepeats(ij) && InGrid(f, p)
    ensures multiset(DotsOf(f, ij))[Pos(p)] == if p in ij && !At(f, p).Null? then 1 else 0
  {
    if ij != [] {
      var first, rest := ij[0], ij[1..];
      assert first in ij;
      var here, later := CellDots(first, At(f, first)), DotsOf(f, rest);
      DotsFromCell(f, rest, p);
      assert multiset(DotsOf(f, ij))[Pos(p)] == multiset(here)[Pos(p)] + multiset(later)[Pos(p)] by {
        assert DotsOf(f, ij) == here + later;
      }
      assert p in ij <==> p == first || p in rest by {
        assert ij == [first] + rest;
      }
      if first == p {
        assert p !in rest;
      } else {
        PosInjective(first, p);
        assert multiset(here)[Pos(p)] == 0;
      }
    }
  }

  /** Every warning names a visited cell that is non-null and not list-like. */
  lemma {:induction false} WarningsAreOddCells(f: Frame, ij: seq<Index>, w: Warning)
    requires f.WellFormed() && AllInGrid(f, ij)
    ensures w in WarningsOf(f, ij) ==> (w.i, w.j) in ij && At(f, (w.i, w.j)).Scalar?
  {
    if ij != [] {
      assert ij[0] in ij;
      WarningsAreOddCells(f, ij[1..], w);
    }
  }

  /** Every dot is the grid position of a visited non-null cell. */
  lemma {:induction false} DotsAreNonNullCells(f: Frame, ij: seq<Index>, d: Point)
    requires f.WellFormed() && AllInGrid(f, ij)
    ensures d in DotsOf(f, ij) ==> exists p :: p in ij && InGrid(f, p) && !At(f, p).Null? && d == Pos(p)
  {
    if ij != [] {
      assert ij[0] in ij;
      DotsAreNonNullCells(f, ij[1..], d);
      if d in DotsOf(f, ij[1..]) {
        var p :| p in ij[1..] && InGrid(f, p) && !At(f, p).Null? && d == Pos(p);
        assert p in ij;
      }
    }
  }

  /** Row-major order on points: lower row first, then lower column. */
  predicate PointBefore(d: Point, e: Point) {
    d.y < e.y || (d.y == e.y && d.x < e.x)
  }

  /** A cell comes before another in row-major order exactly when its grid position does. */
  lemma PosOrder(p: Index, q: Index)
    ensures Before(p, q) <==> PointBefore(Pos(p), Pos(q))
  {
  }

  /** Cells visited after `q` in row-major order have their dots after `q`'s position. */
  lemma {:induction false} DotsAfter(f: Frame, ij: seq<Index>, q: Index)
    requires f.WellFormed() && AllInGrid(f, ij)
    requires forall n :: 0 <= n < |ij| ==> Before(q, ij[n])
    ensures forall d :: d in DotsOf(f, ij) ==> PointBefore(Pos(q), d)
  {
    if ij != [] {
      assert ij[0] in ij;
      DotsAfter(f, ij[1..], q);
      assert Before(q, ij[0]);
      PosOrder(q, ij[0]);
      forall n | 0 <= n < |ij[1..]| ensures Before(q, ij[1..][n]) {
        assert ij[1..][n] == ij[n + 1];
      }
    }
  }

  /** Dots come out in strictly increasing row-major order when the cells are visited so. */
  lemma {:induction false} DotsRowMajor(f: Frame, ij: seq<Index>)
    requires f.WellFormed() && AllInGrid(f, ij) && RowMajor(ij)
    ensures forall a, b :: 0 <= a < b < |DotsOf(f, ij)| ==> PointBefore(DotsOf(f, ij)[a], DotsOf(f, ij)[b])
  {
    if ij != [] {
      var first, rest := ij[0], ij[1..];
      assert first in ij;
      assert RowMajor(rest) by {
        forall a, b | 0 <= a < b < |rest| ensures Before(rest[a], rest[b]) {
          assert rest[a] == ij[a + 1] && rest[b] == ij[b + 1];
        }
      }
      DotsRowMajor(f, rest);
      forall n | 0 <= n < |rest| ensures Before(first, rest[n]) {
        assert rest[n] == ij[n + 1];
      }
      DotsAfter(f, rest, first);
      var ds, head, tail := DotsOf(f, ij), CellDots(first, At(f, first)), DotsOf(f, rest);
      assert ds == head + tail;
      forall a, b | 0 <= a < b < |ds| ensures PointBefore(ds[a], ds[b]) {
        if a < |head| {
          assert ds[a] == Pos(first) && ds[b] == tail[b - |head|] && tail[b - |head|] in tail;
        } else {
          assert ds[a] == tail[a - |head|] && ds[b] == tail[b - |head|];
        }
      }
    }
  }

  /**
   * The prickles of one cell of the whole table: those starting at its grid
   * position (j, i) are one per vector of a list-like cell, in vector order,
   * each ending at (j + x - zero.x, i + y - zero.y); a null or odd cell has none.
   */
  lemma PricklesOfCell(f: Frame, zero: Point, p: Index)
    requires f.WellFormed() && InGrid(f, p)
    ensures var here := StartingAt(Segments(f, zero), Pos(p));
      match At(f, p)
      case Vectors(vs) =>
        |here| == |vs| &&
        forall k :: 0 <= k < |vs| ==>
          here[k] == Segment(Point(p.1 as real, p.0 as real),
                             Point(p.1 as real + vs[k].x - zero.x, p.0 as real + vs[k].y - zero.y))
      case _ => here == []
  {
    var ij := Cells(f);
    assert p in ij;
    RowMajorNoRepeats(ij);
    SegmentsFromCell(f, zero, ij, p);
    if At(f, p).Vectors? {
      PricklesAt(p, At(f, p).vs, zero);
    }
  }

  /** Exactly one warning of the whole table names an odd cell, and none any other cell. */
  lemma WarningOfCell(f: Frame, p: Index)
    requires f.WellFormed() && InGrid(f, p)
    ensures multiset(Warnings(f))[OddElement(p.0, p.1)] == if At(f, p).Scalar? then 1 else 0
  {
    var ij := Cells(f);
    assert p in ij;
    RowMajorNoRepeats(ij);
    WarningsFromCell(f, ij, p);
  }
}
