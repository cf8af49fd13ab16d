// Marching squares on one slice of a volume, as the CPU iso-line renderer and
// the isopleth widget both run it: the classification of a cell's four
// corners against the iso-value, the case table that picks the cell edges an
// iso-line crosses, the edge identifiers that let neighbouring cells share a
// vertex, and the renderer's per-volume parameters with its vertex and index
// buffers.
//
// A cell is the square between voxels (x, y), (x + 1, y), (x + 1, y + 1) and
// (x, y + 1) of a slice, its corners numbered 0 to 3 counter-clockwise from
// (x, y); edge k of a cell joins corner k to corner (k + 1) % 4, so edge 0 is
// the bottom side, 1 the right side, 2 the top side and 3 the left side.
module MarchingSquare {
  import opened Numerics
  import VoxelIndex

  // ---------------------------------------------------------------------
  // The volume

  /** Scalar data stored slice by slice, rows of x inside (Z-Y-X order). */
  datatype Grid = Grid(dat: seq<real>, dimX: nat, dimY: nat, dimZ: nat)

  /** A non-degenerate grid holding exactly dimX * dimY * dimZ scalars.  The
      loops run to dim - 1 in unsigned arithmetic, so a zero extent in x or y
      would wrap around and read outside the data. */
  predicate WellFormed(g: Grid)
  {
    g.dimX > 0 && g.dimY > 0 && |g.dat| == g.dimZ * (g.dimY * g.dimX)
  }

  /** (x, y) is the lower-left voxel of a cell of slice z. */
  predicate InCell(g: Grid, z: nat, x: nat, y: nat)
  {
    z < g.dimZ && x + 1 < g.dimX && y + 1 < g.dimY
  }

  /** The x and y offsets of corner k from the cell's lower-left voxel. */
  function Dx(k: nat): nat { if k == 1 || k == 2 then 1 else 0 }
  function Dy(k: nat): nat { if k == 2 || k == 3 then 1 else 0 }

  /** The flat index of corner k of cell (x, y) in slice z. */
  function CornerOffset(g: Grid, z: nat, x: nat, y: nat, k: nat): nat
  {
    z * (g.dimY * g.dimX) + (y + Dy(k)) * g.dimX + x + Dx(k)
  }

  /** Every corner of a cell lies inside the data. */
  lemma {:induction false} CornerInBounds(g: Grid, z: nat, x: nat, y: nat, k: nat)
    requires WellFormed(g) && InCell(g, z, x, y) && k < 4
    ensures CornerOffset(g, z, x, y, k) < |g.dat|
  {
    var n := g.dimY * g.dimX;
    VoxelIndex.MulLeft(y + Dy(k), g.dimY - 1, g.dimX);
    assert (g.dimY - 1) * g.dimX == n - g.dimX;
    assert (y + Dy(k)) * g.dimX + x + Dx(k) < n;
    VoxelIndex.MulLeft(z, g.dimZ - 1, n);
    assert (g.dimZ - 1) * n == g.dimZ * n - n;
  }

  /** The scalar at corner k of a cell (CornerInBounds: the guard always
      holds for a cell of a well-formed grid). */
  function Corner(g: Grid, z: nat, x: nat, y: nat, k: nat): real
  {
    if CornerOffset(g, z, x, y, k) < |g.dat| then g.dat[CornerOffset(g, z, x, y, k)] else 0.0
  }

  /** The four corner scalars of a cell, counter-clockwise. */
  function Scalars(g: Grid, z: nat, x: nat, y: nat): (s: seq<real>)
    requires WellFormed(g) && InCell(g, z, x, y)
    ensures |s| == 4
  {
    seq(4, k requires 0 <= k < 4 => Corner(g, z, x, y, k))
  }

  /** Reads the four corner scalars of a cell from the slice. */
  method ReadScalars(g: Grid, z: nat, x: nat, y: nat) returns (s: seq<real>)
    requires WellFormed(g) && InCell(g, z, x, y)
    ensures s == Scalars(g, z, x, y)
  {
    CornerInBounds(g, z, x, y, 0);
    CornerInBounds(g, z, x, y, 1);
    CornerInBounds(g, z, x, y, 2);
    CornerInBounds(g, z, x, y, 3);
    var offset := z * (g.dimY * g.dimX);
    s := [g.dat[offset + y * g.dimX + x], g.dat[offset + y * g.dimX + x + 1],
          g.dat[offset + (y + 1) * g.dimX + x + 1], g.dat[offset + (y + 1) * g.dimX + x]];
  }

  // ---------------------------------------------------------------------
  // The scan order

  /** The outputs of the first n cells of row y, in order. */
  function RowConcat<T>(cell: (nat, nat) -> seq<T>, y: nat, n: nat): seq<T>
  {
    if n == 0 then [] else RowConcat(cell, y, n - 1) + cell(n - 1, y)
  }

  /** The outputs of the first m rows of cells, each w cells wide. */
  function GridConcat<T>(cell: (nat, nat) -> seq<T>, w: nat, m: nat): seq<T>
  {
    if m == 0 then [] else GridConcat(cell, w, m - 1) + RowConcat(cell, m - 1, w)
  }

  /** All cells of a w-by-m block, row by row, x fastest: GridConcat under a
      non-recursive name, so that two statements of a slice's output compare
      without unrolling the scan. */
  function ScanCells<T>(cell: (nat, nat) -> seq<T>, w: nat, m: nat): seq<T>
  {
    GridConcat(cell, w, m)
  }

  // ---------------------------------------------------------------------
  // Corner classification

  /** 1 << i for the four bit positions the code uses. */
  function Pow2(i: nat): (r: nat)
    requires i < 4
    ensures r > 0
  {
    if i == 0 then 1 else if i == 1 then 2 else if i == 2 then 4 else 8
  }

  /** Bit i of n. */
  predicate Bit(n: nat, i: nat)
    requires i < 4
  {
    (n / Pow2(i)) % 2 == 1
  }

  /** The corner state of a cell: bit k is set when corner k is at or above the
      iso-value. */
  function CornerState(s: seq<real>, iso: real): nat
    requires |s| == 4
  {
    StateBelow(s, iso, 4)
  }

  /** The bits of the corners below n. */
  function StateBelow(s: seq<real>, iso: real, n: nat): nat
    requires n <= |s| && n <= 4
  {
    if n == 0 then 0 else StateBelow(s, iso, n - 1) + (if s[n - 1] >= iso then Pow2(n - 1) else 0)
  }

  /** The state is the sum of the bits of the corners at or above the
      iso-value. */
  lemma CornerStateSum(s: seq<real>, iso: real)
    requires |s| == 4
    ensures CornerState(s, iso) == (if s[0] >= iso then 1 else 0) + (if s[1] >= iso then 2 else 0)
                                   + (if s[2] >= iso then 4 else 0) + (if s[3] >= iso then 8 else 0)
  {
    assert StateBelow(s, iso, 1) == (if s[0] >= iso then 1 else 0);
    assert StateBelow(s, iso, 2) == StateBelow(s, iso, 1) + (if s[1] >= iso then 2 else 0);
    assert StateBelow(s, iso, 3) == StateBelow(s, iso, 2) + (if s[2] >= iso then 4 else 0);
  }

  /** A corner state is a 4-bit number whose bit k says whether corner k is at
      or above the iso-value. */
  lemma CornerStateBits(s: seq<real>, iso: real)
    requires |s| == 4
    ensures CornerState(s, iso) < 16
    ensures forall k :: 0 <= k < 4 ==> (Bit(CornerState(s, iso), k) <==> s[k] >= iso)
  {
    CornerStateSum(s, iso);
    var n := CornerState(s, iso);
    assert Bit(n, 0) <==> s[0] >= iso;
    assert Bit(n, 1) <==> s[1] >= iso;
    assert Bit(n, 2) <==> s[2] >= iso;
    assert Bit(n, 3) <==> s[3] >= iso;
  }

  /** The loop that ORs 1 << k into the state for every corner at or above the
      iso-value; the bits are distinct, so OR is addition. */
  method ClassifyCorners(s: seq<real>, iso: real) returns (state: nat)
    requires |s| == 4
    ensures state == CornerState(s, iso)
  {
    state := 0;
    for k := 0 to 4
      invariant state == StateBelow(s, iso, k)
    {
      if s[k] >= iso {
        state := state + Pow2(k);
      }
    }
  }

  // ---------------------------------------------------------------------
  // The case table

  /** The switch on the corner state: the edge masks passed to addLineSeg, one
      per line segment.  A mask has bit k set for every cell edge k the
      segment ends on. */
  function SegmentMasks(state: nat): seq<bv8>
  {
    if state == 1 || state == 14 then [9]
    else if state == 2 || state == 13 then [3]
    else if state == 3 || state == 12 then [10]
    else if state == 4 || state == 11 then [6]
    else if state == 5 then [3, 12]
    else if state == 10 then [6, 9]
    else if state == 6 || state == 9 then [5]
    else if state == 7 || state == 8 then [12]
    else []
  }

  /** Bit i of an 8-bit edge mask, read by shifting the mask right by i. */
  predicate MaskBit(mask: bv8, i: nat)
    requires i < 4
  {
    (mask >> i) & 1 == 1
  }

  /** The cell edges of a mask, in the order addLineSeg visits them. */
  function MaskEdges(mask: bv8): (r: seq<nat>)
  {
    EdgesBelow(mask, 4)
  }

  /** The edges below n whose bit is set in the mask, in increasing order. */
  function EdgesBelow(mask: bv8, n: nat): (r: seq<nat>)
    requires n <= 4
  {
    if n == 0 then [] else EdgesBelow(mask, n - 1) + (if MaskBit(mask, n - 1) then [n - 1] else [])
  }

  /** The edges of the six masks of the table. */
  lemma MaskEdgesOfTable()
    ensures MaskEdges(3) == [0, 1] && MaskEdges(5) == [0, 2] && MaskEdges(6) == [1, 2]
    ensures MaskEdges(9) == [0, 3] && MaskEdges(10) == [1, 3] && MaskEdges(12) == [2, 3]
  {
  }

  /** Every mask of the table names exactly two edges, so every segment has two
      end points, the lower-numbered edge first. */
  lemma SegmentMasksHaveTwoEdges(state: nat, j: nat)
    requires j < |SegmentMasks(state)|
    ensures var e := MaskEdges(SegmentMasks(state)[j]); |e| == 2 && e[0] < e[1] < 4
  {
    var m := SegmentMasks(state)[j];
    assert m == 3 || m == 5 || m == 6 || m == 9 || m == 10 || m == 12;
    MaskEdgesOfTable();
  }

  /** A state and its complement select the same segments, except for the two
      saddles; the empty and the full state select none and each saddle two. */
  lemma SegmentMasksComplement(state: nat)
    requires state < 16
    ensures state != 5 && state != 10 ==> SegmentMasks(15 - state) == SegmentMasks(state)
    ensures SegmentMasks(0) == [] && SegmentMasks(15) == []
    ensures |SegmentMasks(5)| == 2 && |SegmentMasks(10)| == 2
  {
  }

  /** The end edges of a list of segments, segment by segment. */
  function SegmentEnds(masks: seq<bv8>): seq<nat>
  {
    if masks == [] then [] else SegmentEnds(masks[..|masks| - 1]) + MaskEdges(masks[|masks| - 1])
  }

  /** The end edges the table gives to each corner state, indexed by state. */
  const ENDS_TABLE: seq<seq<nat>> :=
    [[], [0, 3], [0, 1], [1, 3], [1, 2], [0, 1, 2, 3], [0, 2], [2, 3],
     [2, 3], [0, 2], [1, 2, 0, 3], [1, 2], [1, 3], [0, 1], [0, 3], []]

  /** The end edges the table gives to each corner state. */
  function EndsOfState(state: nat): seq<nat>
  {
    if state < |ENDS_TABLE| then ENDS_TABLE[state] else []
  }

  lemma EndsOfOneSegment(m: bv8)
    ensures SegmentEnds([m]) == MaskEdges(m)
  {
    assert [m][..0] == [];
  }

  lemma EndsOfTwoSegments(m1: bv8, m2: bv8)
    ensures SegmentEnds([m1, m2]) == MaskEdges(m1) + MaskEdges(m2)
  {
    assert [m1, m2][..1] == [m1];
    EndsOfOneSegment(m1);
  }

  /** The switch and the end table agree on every corner state. */
  lemma SegmentEndsOfState(state: nat)
    ensures SegmentEnds(SegmentMasks(state)) == EndsOfState(state)
  {
    if state == 5 || state == 10 {
      SaddleRows(state);
    } else if state == 1 || state == 14 {
      Rows1And14(state);
    } else if state == 2 || state == 13 {
      Rows2And13(state);
    } else if state == 3 || state == 12 {
      Rows3And12(state);
    } else if state == 4 || state == 11 {
      Rows4And11(state);
    } else if state == 6 || state == 9 {
      Rows6And9(state);
    } else if state == 7 || state == 8 {
      Rows7And8(state);
    } else {
      assert SegmentMasks(state) == [] && EndsOfState(state) == [];
    }
  }

  lemma SaddleRows(state: nat)
    requires state == 5 || state == 10
    ensures SegmentEnds(SegmentMasks(state)) == EndsOfState(state)
  {
    if state == 5 {
      TwoSegmentRow(5, 3, 12);
    } else {
      TwoSegmentRow(10, 6, 9);
    }
  }

  lemma Rows1And14(state: nat)
    requires state == 1 || state == 14
    ensures SegmentEnds(SegmentMasks(state)) == EndsOfState(state)
  {
    if state == 1 {
      OneSegmentRow(1, 9);
    } else {
      OneSegmentRow(14, 9);
    }
  }

  lemma Rows2And13(state: nat)
    requires state == 2 || state == 13
    ensures SegmentEnds(SegmentMasks(state)) == EndsOfState(state)
  {
    if state == 2 {
      OneSegmentRow(2, 3);
    } else {
      OneSegmentRow(13, 3);
    }
  }

  lemma Rows3And12(state: nat)
    requires state == 3 || state == 12
    ensures SegmentEnds(SegmentMasks(state)) == EndsOfState(state)
  {
    if state == 3 {
      OneSegmentRow(3, 10);
    } else {
      OneSegmentRow(12, 10);
    }
  }

  lemma Rows4And11(state: nat)
    requires state == 4 || state == 11
    ensures SegmentEnds(SegmentMasks(state)) == EndsOfState(state)
  {
    if state == 4 {
      OneSegmentRow(4, 6);
    } else {
      OneSegmentRow(11, 6);
    }
  }

  lemma Rows6And9(state: nat)
    requires state == 6 || state == 9
    ensures SegmentEnds(SegmentMasks(state)) == EndsOfState(state)
  {
    if state == 6 {
      OneSegmentRow(6, 5);
    } else {
      OneSegmentRow(9, 5);
    }
  }

  lemma Rows7And8(state: nat)
    requires state == 7 || state == 8
    ensures SegmentEnds(SegmentMasks(state)) == EndsOfState(state)
  {
    if state == 7 {
      OneSegmentRow(7, 12);
    } else {
      OneSegmentRow(8, 12);
    }
  }

  /** A row of the case table with one segment. */
  lemma OneSegmentRow(state: nat, m: bv8)
    requires SegmentMasks(state) == [m] && EndsOfState(state) == MaskEdges(m)
    ensures SegmentEnds(SegmentMasks(state)) == EndsOfState(state)
  {
    EndsOfOneSegment(m);
  }

  /** A row of the case table with two segments. */
  lemma TwoSegmentRow(state: nat, m1: bv8, m2: bv8)
    requires SegmentMasks(state) == [m1, m2] && EndsOfState(state) == MaskEdges(m1) + MaskEdges(m2)
    ensures SegmentEnds(SegmentMasks(state)) == EndsOfState(state)
  {
    EndsOfTwoSegments(m1, m2);
  }

  lemma CrossedEdgesOfState(s: seq<real>, iso: real, k: nat)
    requires |s| == 4 && k < 4
    ensures var ends := EndsOfState(CornerState(s, iso));
      (k in ends <==> ((s[k] >= iso) != (s[(k + 1) % 4] >= iso)))
      && forall i, j :: 0 <= i < j < |ends| ==> ends[i] != ends[j]
  {
    CornerStateSum(s, iso);
  }

  /** The segments of a cell end exactly on the edges whose two corners lie on
      different sides of the iso-value, and no edge carries two ends. */
  lemma {:induction false} SegmentsEndOnCrossedEdges(s: seq<real>, iso: real, k: nat)
    requires |s| == 4 && k < 4
    ensures var ends := SegmentEnds(SegmentMasks(CornerState(s, iso)));
      (k in ends <==> ((s[k] >= iso) != (s[(k + 1) % 4] >= iso)))
      && forall i, j :: 0 <= i < j < |ends| ==> ends[i] != ends[j]
  {
    SegmentEndsOfState(CornerState(s, iso));
    CrossedEdgesOfState(s, iso, k);
  }

  // ---------------------------------------------------------------------
  // Edge identifiers

  /** The identifier of edge k of cell (x, y): twice the flat index of the
      voxel the edge starts from, plus 1 for a vertical edge. */
  function EdgeId(dimX: nat, x: nat, y: nat, k: nat): nat
  {
    ((y + (if k == 2 then 1 else 0)) * dimX + x + (if k == 1 then 1 else 0)) * 2
    + (if k == 1 || k == 3 then 1 else 0)
  }

  /** The grid edge that edge k of cell (x, y) is: its start voxel and whether
      it is vertical. */
  datatype GridEdge = GridEdge(px: nat, py: nat, vertical: bool)

  function EdgeOf(x: nat, y: nat, k: nat): GridEdge
  {
    GridEdge(x + (if k == 1 then 1 else 0), y + (if k == 2 then 1 else 0), k == 1 || k == 3)
  }

  lemma {:induction false} RowMajorUnique(a: nat, b: nat, c: nat, d: nat, n: nat)
    requires b < n && d < n && a * n + b == c * n + d
    ensures a == c && b == d
  {
    if a < c {
      VoxelIndex.MulLeft(a + 1, c, n);
      assert false;
    } else if c < a {
      VoxelIndex.MulLeft(c + 1, a, n);
      assert false;
    }
  }

  /** Two edges of cells of a row of width dimX have the same identifier
      exactly when they are the same grid edge. */
  lemma {:induction false} EdgeIdInjective(dimX: nat, x1: nat, y1: nat, k1: nat, x2: nat, y2: nat, k2: nat)
    requires x1 + 1 < dimX && x2 + 1 < dimX && k1 < 4 && k2 < 4
    ensures EdgeId(dimX, x1, y1, k1) == EdgeId(dimX, x2, y2, k2) <==> EdgeOf(x1, y1, k1) == EdgeOf(x2, y2, k2)
  {
    var e1, e2 := EdgeOf(x1, y1, k1), EdgeOf(x2, y2, k2);
    if EdgeId(dimX, x1, y1, k1) == EdgeId(dimX, x2, y2, k2) {
      RowMajorUnique(e1.py, e1.px, e2.py, e2.px, dimX);
    }
  }

  /** The right edge of a cell is the left edge of its right neighbour, and its
      top edge the bottom edge of the cell above. */
  lemma SharedEdgeIds(dimX: nat, x: nat, y: nat)
    ensures EdgeId(dimX, x, y, 1) == EdgeId(dimX, x + 1, y, 3)
    ensures EdgeId(dimX, x, y, 2) == EdgeId(dimX, x, y + 1, 0)
  {
  }

  // ---------------------------------------------------------------------
  // Segment end points

  /** A point in cell units of the slice, in float coordinates: an end point
      lies at infinity, or is not a number, when the omega of its edge divides
      by a zero sum. */
  datatype Point = Point(x: Float, y: Float)

  /** The two corners whose scalars make the omega of edge k: the omega is
      s[a] / (s[a] + s[b]) for (a, b) == OmegaCorners(k). */
  function OmegaCorners(k: nat): (ab: (nat, nat))
    ensures ab.0 < 4 && ab.1 < 4 && ab.0 != ab.1
    ensures k < 4 ==> {ab.0, ab.1} == {k, (k + 1) % 4}
  {
    if k == 0 then (0, 1) else if k == 1 then (1, 2) else if k == 2 then (3, 2) else (0, 3)
  }

  /** The omegas of the code: the weight that places the end point on edge k,
      from the corner scalars of the cell, as an IEEE quotient. */
  function Omega(s: seq<real>, k: nat): (w: Float)
    requires |s| == 4
    ensures var (a, b) := OmegaCorners(k);
      && (w.Num? <==> s[a] + s[b] != 0.0)
      && (w.NaN? <==> s[a] == 0.0 && s[b] == 0.0)
      && (w.Inf? ==> (w.negative <==> s[a] < 0.0))
  {
    var (a, b) := OmegaCorners(k);
    Div(s[a], s[a] + s[b])
  }

  /** A finite coordinate r plus a float offset: an infinity or NaN absorbs r. */
  function Shift(r: real, f: Float): (c: Float)
    ensures c.Num? <==> f.Num?
    ensures f.Num? ==> c.r - r == f.r
    ensures !f.Num? ==> c == f
  {
    match f
    case Num(v) => Num(r + v)
    case _ => f
  }

  /** The offset along axis 0 (x) or 1 (y) of the end point on edge k: the
      omega along the edge's own axis, and 0 or 1 across it. */
  function EdgeOffset(s: seq<real>, k: nat, axis: nat): Float
    requires |s| == 4
  {
    if axis == 0 then (if k == 0 || k == 2 then Omega(s, k) else Num(if k == 1 then 1.0 else 0.0))
    else (if k == 1 || k == 3 then Omega(s, k) else Num(if k == 2 then 1.0 else 0.0))
  }

  /** The end point a segment has on edge k of cell (x, y): on the bottom (0),
      right (1), top (2) or left (3) side of the cell, at the edge's omega
      along it. */
  function EdgePoint(x: nat, y: nat, s: seq<real>, k: nat): (p: Point)
    requires |s| == 4
    ensures k == 0 ==> p.y == Num(y as real) && p.x == Shift(x as real, Omega(s, 0))
    ensures k == 1 ==> p.x == Num(x as real + 1.0) && p.y == Shift(y as real, Omega(s, 1))
    ensures k == 2 ==> p.y == Num(y as real + 1.0) && p.x == Shift(x as real, Omega(s, 2))
    ensures k == 3 ==> p.x == Num(x as real) && p.y == Shift(y as real, Omega(s, 3))
  {
    Point(Shift(x as real, EdgeOffset(s, k, 0)), Shift(y as real, EdgeOffset(s, k, 1)))
  }

  /** With positive corner scalars every omega is a number in [0, 1], so the
      end point lies on its edge of the unit cell. */
  lemma {:induction false} OmegaInUnit(s: seq<real>, k: nat)
    requires |s| == 4 && k < 4
    requires forall i :: 0 <= i < 4 ==> 0.0 < s[i]
    ensures Omega(s, k).Num? && 0.0 <= Omega(s, k).r <= 1.0
  {
    var (a, b) := OmegaCorners(k);
    DivAtMostOne(s[a], s[a] + s[b]);
  }

  /** Where the two scalars of an edge cancel without both being zero, the
      omega divides a non-zero number by zero and the end point lies at
      infinity along the edge; where both are zero it is not a number. */
  lemma EdgePointOffCell(x: nat, y: nat, s: seq<real>, k: nat)
    requires |s| == 4 && k < 4
    requires s[OmegaCorners(k).0] + s[OmegaCorners(k).1] == 0.0
    ensures var p := EdgePoint(x, y, s, k);
      var along := if k == 0 || k == 2 then p.x else p.y;
      && (s[OmegaCorners(k).0] != 0.0 ==> along == Inf(s[OmegaCorners(k).0] < 0.0))
      && (s[OmegaCorners(k).0] == 0.0 ==> along.NaN?)
  {
  }

  /** The end point on an edge. */
  function CellEdgePoint(g: Grid, z: nat, x: nat, y: nat, k: nat): Point
    requires WellFormed(g) && InCell(g, z, x, y)
  {
    EdgePoint(x, y, Scalars(g, z, x, y), k)
  }

  /** Two cells of a slice that share an edge place its end point at the same
      position, so reusing the vertex of an edge identifier is sound: equal
      identifiers give equal points. */
  lemma {:induction false} EdgeIdDeterminesPoint(g: Grid, z: nat, x1: nat, y1: nat, k1: nat, x2: nat, y2: nat, k2: nat)
    requires WellFormed(g) && InCell(g, z, x1, y1) && InCell(g, z, x2, y2) && k1 < 4 && k2 < 4
    requires EdgeId(g.dimX, x1, y1, k1) == EdgeId(g.dimX, x2, y2, k2)
    ensures CellEdgePoint(g, z, x1, y1, k1) == CellEdgePoint(g, z, x2, y2, k2)
  {
    EdgeIdInjective(g.dimX, x1, y1, k1, x2, y2, k2);
    GridEdgeDeterminesPoint(g, z, x1, y1, k1, x2, y2, k2);
  }

  /** Equal grid edges give equal points. */
  lemma GridEdgeDeterminesPoint(g: Grid, z: nat, x1: nat, y1: nat, k1: nat, x2: nat, y2: nat, k2: nat)
    requires WellFormed(g) && InCell(g, z, x1, y1) && InCell(g, z, x2, y2) && k1 < 4 && k2 < 4
    requires EdgeOf(x1, y1, k1) == EdgeOf(x2, y2, k2)
    ensures CellEdgePoint(g, z, x1, y1, k1) == CellEdgePoint(g, z, x2, y2, k2)
  {
    SameGridEdge(x1, y1, k1, x2, y2, k2);
    if k1 == k2 {
      assert x1 == x2 && y1 == y2;
    } else if k1 == 1 {
      SharedEdgePoints(g, z, x1, y1, 1);
    } else if k1 == 2 {
      SharedEdgePoints(g, z, x1, y1, 2);
    } else if k2 == 1 {
      SharedEdgePoints(g, z, x2, y2, 1);
    } else {
      SharedEdgePoints(g, z, x2, y2, 2);
    }
  }

  /** Two cell edges are the same grid edge when they are the same edge of the
      same cell, or the right (top) edge of a cell and the left (bottom) edge
      of its neighbour. */
  lemma SameGridEdge(x1: nat, y1: nat, k1: nat, x2: nat, y2: nat, k2: nat)
    requires k1 < 4 && k2 < 4 && EdgeOf(x1, y1, k1) == EdgeOf(x2, y2, k2)
    ensures || (k1 == k2 && x1 == x2 && y1 == y2)
            || (k1 == 1 && k2 == 3 && x2 == x1 + 1 && y2 == y1)
            || (k1 == 3 && k2 == 1 && x1 == x2 + 1 && y1 == y2)
            || (k1 == 2 && k2 == 0 && x2 == x1 && y2 == y1 + 1)
            || (k1 == 0 && k2 == 2 && x1 == x2 && y1 == y2 + 1)
  {
  }

  lemma SharedEdgePoints(g: Grid, z: nat, x: nat, y: nat, k: nat)
    requires WellFormed(g) && InCell(g, z, x, y) && (k == 1 || k == 2)
    requires k == 1 ==> InCell(g, z, x + 1, y)
    requires k == 2 ==> InCell(g, z, x, y + 1)
    ensures k == 1 ==> CellEdgePoint(g, z, x, y, 1) == CellEdgePoint(g, z, x + 1, y, 3)
    ensures k == 2 ==> CellEdgePoint(g, z, x, y, 2) == CellEdgePoint(g, z, x, y + 1, 0)
  {
    if k == 1 {
      assert CornerOffset(g, z, x, y, 1) == CornerOffset(g, z, x + 1, y, 0);
      assert CornerOffset(g, z, x, y, 2) == CornerOffset(g, z, x + 1, y, 3);
    } else {
      assert CornerOffset(g, z, x, y, 3) == CornerOffset(g, z, x, y + 1, 0);
      assert CornerOffset(g, z, x, y, 2) == CornerOffset(g, z, x, y + 1, 1);
    }
  }
}

module MarchingSquareRenderer {
  import opened Numerics
  import opened MarchingSquare

  // ---------------------------------------------------------------------
  // What the contour of a volume is

  /** A vertex of the renderer: the grid edge it lies on, by its identifier,
      in the slice at the given height.  The position inside the edge is a
      function of the identifier (EdgeIdDeterminesPoint). */
  datatype EdgeKey = EdgeKey(height: nat, id: nat)

  /** The vertices, one per end, of the given end edges of cell (x, y). */
  function KeysOf(dimX: nat, x: nat, y: nat, z: nat, ends: seq<nat>): (r: seq<EdgeKey>)
    ensures |r| == |ends|
  {
    seq(|ends|, i requires 0 <= i < |ends| => EdgeKey(z, EdgeId(dimX, x, y, ends[i])))
  }

  /** The segment ends of one cell, as the switch on its corner state produces
      them; two consecutive entries form a line. */
  function CellKeys(g: Grid, z: nat, iso: real, x: nat, y: nat): seq<EdgeKey>
    requires WellFormed(g) && InCell(g, z, x, y)
  {
    KeysOf(g.dimX, x, y, z, EndsOfState(CornerState(Scalars(g, z, x, y), iso)))
  }

  /** CellKeys as a function of the cell, empty outside the slice. */
  function CellFn(g: Grid, z: nat, iso: real): (nat, nat) -> seq<EdgeKey>
  {
    (x: nat, y: nat) => CellAt(g, z, iso, x, y)
  }

  /** The value of CellFn at cell (x, y). */
  function CellAt(g: Grid, z: nat, iso: real, x: nat, y: nat): seq<EdgeKey>
  {
    if WellFormed(g) && InCell(g, z, x, y) then CellKeys(g, z, iso, x, y) else []
  }

  /** The segment ends of slice z: its cells row by row, x fastest. */
  function SliceKeys(g: Grid, z: nat, iso: real): seq<EdgeKey>
    requires WellFormed(g)
  {
    ScanCells(CellFn(g, z, iso), g.dimX - 1, g.dimY - 1)
  }

  predicate HeightsInside(g: Grid, heights: seq<nat>)
  {
    forall i :: 0 <= i < |heights| ==> heights[i] < g.dimZ
  }

  /** SliceKeys as a function of the height, empty outside the volume. */
  function SliceFn(g: Grid, iso: real): nat -> seq<EdgeKey>
  {
    (z: nat) => if WellFormed(g) && z < g.dimZ then SliceKeys(g, z, iso) else []
  }

  /** The segment ends of the requested slices, in the order of the heights. */
  function ContourKeys(slice: nat -> seq<EdgeKey>, heights: seq<nat>): seq<EdgeKey>
  {
    if heights == [] then [] else ContourKeys(slice, heights[..|heights| - 1]) + slice(heights[|heights| - 1])
  }

  /** The first occurrence of every key, in order. */
  function Dedup(s: seq<EdgeKey>): seq<EdgeKey>
  {
    if s == [] then []
    else
      var d := Dedup(s[..|s| - 1]);
      if s[|s| - 1] in d then d else d + [s[|s| - 1]]
  }

  /** The vertex buffer: per requested slice, one vertex per distinct grid edge
      the contour crosses, in the order of first use. */
  function ContourVerts(slice: nat -> seq<EdgeKey>, heights: seq<nat>): seq<EdgeKey>
  {
    if heights == [] then [] else ContourVerts(slice, heights[..|heights| - 1]) + Dedup(slice(heights[|heights| - 1]))
  }

  /** Every index is in bounds and names the vertex of the matching end. */
  predicate Resolves(verts: seq<EdgeKey>, idx: seq<nat>, keys: seq<EdgeKey>)
  {
    |idx| == |keys| && forall k :: 0 <= k < |idx| ==> idx[k] < |verts| && verts[idx[k]] == keys[k]
  }

  /** Every vertex is used by some index. */
  predicate AllUsed(verts: seq<EdgeKey>, idx: seq<nat>)
  {
    forall j :: 0 <= j < |verts| ==> j in idx
  }

  predicate NoRepeats<T(==)>(s: seq<T>)
  {
    forall i, j :: 0 <= i < j < |s| ==> s[i] != s[j]
  }

  /** Every key of s lies in slice z. */
  predicate AtHeight(s: seq<EdgeKey>, z: nat)
  {
    forall i :: 0 <= i < |s| ==> s[i].height == z
  }

  /** Every slice has ends that pair up into lines and lie in that slice. */
  ghost predicate SlicesPaired(slice: nat -> seq<EdgeKey>)
  {
    forall z: nat :: |slice(z)| % 2 == 0 && AtHeight(slice(z), z)
  }

  /** Every cell output pairs up into lines in slice z. */
  ghost predicate CellsPaired(cell: (nat, nat) -> seq<EdgeKey>, z: nat)
  {
    forall x: nat, y: nat :: |cell(x, y)| % 2 == 0 && AtHeight(cell(x, y), z)
  }

  // ---------------------------------------------------------------------
  // Properties of the contour

  /** Dedup keeps exactly the keys of its input, each once. */
  lemma {:induction false} DedupProperties(s: seq<EdgeKey>)
    ensures forall key :: key in Dedup(s) <==> key in s
    ensures NoRepeats(Dedup(s))
  {
    if s != [] {
      DedupProperties(s[..|s| - 1]);
      assert s == s[..|s| - 1] + [s[|s| - 1]];
    }
  }

  /** A cell has zero, one or two segments, each with two ends, all in its
      slice. */
  lemma CellKeysFacts(g: Grid, z: nat, iso: real, x: nat, y: nat)
    requires WellFormed(g) && InCell(g, z, x, y)
    ensures |CellKeys(g, z, iso, x, y)| % 2 == 0 && AtHeight(CellKeys(g, z, iso, x, y), z)
  {
  }

  /** Cells whose outputs all have even length and lie in slice z give a
      concatenation of even length in slice z. */
  lemma {:induction false} GridConcatFacts(cell: (nat, nat) -> seq<EdgeKey>, w: nat, m: nat, z: nat)
    requires CellsPaired(cell, z)
    ensures |GridConcat(cell, w, m)| % 2 == 0 && AtHeight(GridConcat(cell, w, m), z)
  {
    if m > 0 {
      GridConcatFacts(cell, w, m - 1, z);
      RowConcatFacts(cell, m - 1, w, z);
    }
  }

  lemma {:induction false} RowConcatFacts(cell: (nat, nat) -> seq<EdgeKey>, y: nat, n: nat, z: nat)
    requires CellsPaired(cell, z)
    ensures |RowConcat(cell, y, n)| % 2 == 0 && AtHeight(RowConcat(cell, y, n), z)
  {
    if n > 0 {
      RowConcatFacts(cell, y, n - 1, z);
    }
  }

  /** The same for every cell position, inside the slice or not. */
  lemma CellFnFacts(g: Grid, z: nat, iso: real, x: nat, y: nat)
    requires WellFormed(g)
    ensures |CellFn(g, z, iso)(x, y)| % 2 == 0 && AtHeight(CellFn(g, z, iso)(x, y), z)
  {
    if InCell(g, z, x, y) {
      CellKeysFacts(g, z, iso, x, y);
      assert CellFn(g, z, iso)(x, y) == CellKeys(g, z, iso, x, y);
    } else {
      assert CellFn(g, z, iso)(x, y) == [];
    }
  }

  /** Every cell of a slice of a grid pairs up into lines in that slice. */
  lemma CellFnPaired(g: Grid, z: nat, iso: real)
    requires WellFormed(g)
    ensures CellsPaired(CellFn(g, z, iso), z)
  {
    forall x: nat, y: nat
      ensures |CellFn(g, z, iso)(x, y)| % 2 == 0 && AtHeight(CellFn(g, z, iso)(x, y), z)
    {
      CellFnFacts(g, z, iso, x, y);
    }
  }

  /** The ends of a slice come in pairs and lie in that slice. */
  lemma SliceKeysFacts(g: Grid, z: nat, iso: real)
    requires WellFormed(g) && z < g.dimZ
    ensures |SliceKeys(g, z, iso)| % 2 == 0 && AtHeight(SliceKeys(g, z, iso), z)
  {
    CellScanFacts(g, z, iso);
    SliceKeysScan(g, z, iso);
  }

  lemma CellScanFacts(g: Grid, z: nat, iso: real)
    requires WellFormed(g)
    ensures var keys := ScanCells(CellFn(g, z, iso), g.dimX - 1, g.dimY - 1);
      |keys| % 2 == 0 && AtHeight(keys, z)
  {
    CellFnPaired(g, z, iso);
    ScanCellsFacts(CellFn(g, z, iso), g.dimX - 1, g.dimY - 1, z);
  }

  lemma ScanCellsFacts(cell: (nat, nat) -> seq<EdgeKey>, w: nat, m: nat, z: nat)
    requires CellsPaired(cell, z)
    ensures |ScanCells(cell, w, m)| % 2 == 0 && AtHeight(ScanCells(cell, w, m), z)
  {
    GridConcatFacts(cell, w, m, z);
  }

  /** The slices of a grid pair up into lines at their own height. */
  lemma SliceFnPaired(g: Grid, iso: real)
    ensures SlicesPaired(SliceFn(g, iso))
  {
    forall z: nat
      ensures |SliceFn(g, iso)(z)| % 2 == 0 && AtHeight(SliceFn(g, iso)(z), z)
    {
      if WellFormed(g) && z < g.dimZ {
        SliceKeysFacts(g, z, iso);
      }
    }
  }

  lemma EvenSum(m: nat, n: nat)
    requires m % 2 == 0 && n % 2 == 0
    ensures (m + n) % 2 == 0
  {
  }

  /** Every segment has two ends, so the index buffer holds whole lines. */
  lemma {:induction false} ContourKeysEven(slice: nat -> seq<EdgeKey>, heights: seq<nat>)
    requires SlicesPaired(slice)
    ensures |ContourKeys(slice, heights)| % 2 == 0
  {
    if heights != [] {
      var init := heights[..|heights| - 1];
      ContourKeysEven(slice, init);
      var a, b := ContourKeys(slice, init), slice(heights[|heights| - 1]);
      assert |ContourKeys(slice, heights)| == |a| + |b|;
      EvenSum(|a|, |b|);
    }
  }

  lemma DedupAtHeight(s: seq<EdgeKey>, z: nat)
    requires AtHeight(s, z)
    ensures AtHeight(Dedup(s), z)
  {
    DedupProperties(s);
    forall i | 0 <= i < |Dedup(s)|
      ensures Dedup(s)[i].height == z
    {
      assert Dedup(s)[i] in s;
    }
  }

  /** Every vertex lies in one of the requested slices. */
  lemma {:induction false} ContourVertsHeights(slice: nat -> seq<EdgeKey>, heights: seq<nat>)
    requires SlicesPaired(slice)
    ensures forall i :: 0 <= i < |ContourVerts(slice, heights)| ==> ContourVerts(slice, heights)[i].height in heights
  {
    if heights != [] {
      var init, last := heights[..|heights| - 1], heights[|heights| - 1];
      var a, b := ContourVerts(slice, init), Dedup(slice(last));
      ContourVertsHeights(slice, init);
      DedupAtHeight(slice(last), last);
      var ab: seq<EdgeKey> := a + b;
      assert ContourVerts(slice, heights) == ab;
      forall i | 0 <= i < |ab|
        ensures ab[i].height in heights
      {
        if i < |a| {
          assert a[i].height in init;
        }
      }
    }
  }

  /** When no height is requested twice, no vertex is stored twice. */
  lemma {:induction false} ContourVertsDistinct(slice: nat -> seq<EdgeKey>, heights: seq<nat>)
    requires SlicesPaired(slice) && NoRepeats(heights)
    ensures NoRepeats(ContourVerts(slice, heights))
  {
    if heights != [] {
      var init, last := heights[..|heights| - 1], heights[|heights| - 1];
      var a, b := ContourVerts(slice, init), Dedup(slice(last));
      assert NoRepeats(init);
      ContourVertsDistinct(slice, init);
      ContourVertsHeights(slice, init);
      DedupAtHeight(slice(last), last);
      DedupProperties(slice(last));
      assert last !in init;
      var ab: seq<EdgeKey> := a + b;
      assert ContourVerts(slice, heights) == ab;
      forall i, j | 0 <= i < j < |ab|
        ensures ab[i] != ab[j]
      {
        if i < |a| <= j {
          assert a[i].height in init;
          assert b[j - |a|].height == last;
        }
      }
    }
  }

  // ---------------------------------------------------------------------
  // The CPU marching squares of PerVolParam::MarchingSquare

  /** The state of one slice pass: the vertices appended since `base` are the
      distinct ends met so far, and edge2vertIDs maps the identifier of every
      edge among them to its position relative to `base`. */
  ghost predicate SliceState(z: nat, edge2vert: map<nat, nat>, base: nat, verts: seq<EdgeKey>, pass: seq<EdgeKey>)
  {
    && base <= |verts| && verts[base..] == Dedup(pass)
    && (forall id :: id in edge2vert <==> EdgeKey(z, id) in Dedup(pass))
    && (forall id :: id in edge2vert ==> base + edge2vert[id] < |verts| && verts[base + edge2vert[id]] == EdgeKey(z, id))
  }

  /** Visiting edge i adds its end exactly when its bit is set in the mask. */
  lemma KeysBelowStep(dimX: nat, x: nat, y: nat, z: nat, mask: bv8, i: nat)
    requires i < 4
    ensures KeysOf(dimX, x, y, z, EdgesBelow(mask, i + 1))
         == KeysOf(dimX, x, y, z, EdgesBelow(mask, i)) + (if MaskBit(mask, i) then [EdgeKey(z, EdgeId(dimX, x, y, i))] else [])
  {
    var e := EdgesBelow(mask, i);
    if MaskBit(mask, i) {
      assert EdgesBelow(mask, i + 1) == e + [i];
    } else {
      assert EdgesBelow(mask, i + 1) == e;
    }
  }

  /** The ends of two lists of edges, one after the other. */
  lemma KeysOfAppend(dimX: nat, x: nat, y: nat, z: nat, a: seq<nat>, b: seq<nat>)
    ensures KeysOf(dimX, x, y, z, a + b) == KeysOf(dimX, x, y, z, a) + KeysOf(dimX, x, y, z, b)
  {
  }

  lemma ConcatAssociates(a: seq<EdgeKey>, b: seq<EdgeKey>, c: seq<EdgeKey>)
    ensures (a + b) + c == a + (b + c)
  {
  }

  lemma DedupSnoc(s: seq<EdgeKey>, key: EdgeKey)
    ensures Dedup(s + [key]) == if key in Dedup(s) then Dedup(s) else Dedup(s) + [key]
  {
    assert (s + [key])[..|s|] == s;
  }

  /** An index naming an existing vertex resolves one more end. */
  lemma ResolvesReuse(verts: seq<EdgeKey>, idx: seq<nat>, done: seq<EdgeKey>, i: nat)
    requires Resolves(verts, idx, done) && AllUsed(verts, idx) && i < |verts|
    ensures Resolves(verts, idx + [i], done + [verts[i]]) && AllUsed(verts, idx + [i])
  {
    forall j | 0 <= j < |verts|
      ensures j in idx + [i]
    {
      assert j in idx;
    }
  }

  /** A vertex appended together with its index resolves one more end. */
  lemma ResolvesAppend(verts: seq<EdgeKey>, idx: seq<nat>, done: seq<EdgeKey>, key: EdgeKey)
    requires Resolves(verts, idx, done) && AllUsed(verts, idx)
    ensures Resolves(verts + [key], idx + [|verts|], done + [key]) && AllUsed(verts + [key], idx + [|verts|])
  {
    var v, n := verts + [key], idx + [|verts|];
    forall j | 0 <= j < |v|
      ensures j in n
    {
      if j < |verts| {
        assert j in idx;
      } else {
        assert n[|idx|] == j;
      }
    }
  }

  /** Appending the vertex of a new edge keeps the slice state. */
  lemma SliceStateAppend(z: nat, edge2vert: map<nat, nat>, base: nat, verts: seq<EdgeKey>, pass: seq<EdgeKey>, id: nat)
    requires SliceState(z, edge2vert, base, verts, pass) && id !in edge2vert
    ensures SliceState(z, edge2vert[id := |verts| - base], base, verts + [EdgeKey(z, id)], pass + [EdgeKey(z, id)])
  {
    var key := EdgeKey(z, id);
    DedupSnoc(pass, key);
    assert (verts + [key])[base..] == verts[base..] + [key];
  }

  /** Meeting an edge that already has a vertex keeps the slice state. */
  lemma SliceStateReuse(z: nat, edge2vert: map<nat, nat>, base: nat, verts: seq<EdgeKey>, pass: seq<EdgeKey>, id: nat)
    requires SliceState(z, edge2vert, base, verts, pass) && id in edge2vert
    ensures SliceState(z, edge2vert, base, verts, pass + [EdgeKey(z, id)])
  {
    DedupSnoc(pass, EdgeKey(z, id));
  }

  /** One end of a segment: reuse the vertex of its edge when this slice has
      one, append a new vertex otherwise, and record its index. */
  method UseVertex(z: nat, id: nat, edge2vert0: map<nat, nat>, base: nat, verts0: seq<EdgeKey>, idx0: seq<nat>,
                   ghost done: seq<EdgeKey>, ghost pass: seq<EdgeKey>)
    returns (edge2vert: map<nat, nat>, verts: seq<EdgeKey>, idx: seq<nat>)
    requires SliceState(z, edge2vert0, base, verts0, pass)
    requires Resolves(verts0, idx0, done) && AllUsed(verts0, idx0)
    ensures SliceState(z, edge2vert, base, verts, pass + [EdgeKey(z, id)])
    ensures verts[..base] == verts0[..base]
    ensures Resolves(verts, idx, done + [EdgeKey(z, id)]) && AllUsed(verts, idx)
  {
    if id in edge2vert0 {
      edge2vert, verts := edge2vert0, verts0;
      idx := idx0 + [edge2vert0[id] + base];
      SliceStateReuse(z, edge2vert0, base, verts0, pass, id);
      ResolvesReuse(verts0, idx0, done, edge2vert0[id] + base);
    } else {
      idx := idx0 + [|verts0|];
      verts := verts0 + [EdgeKey(z, id)];
      edge2vert := edge2vert0[id := |verts0| - base];
      SliceStateAppend(z, edge2vert0, base, verts0, pass, id);
      ResolvesAppend(verts0, idx0, done, EdgeKey(z, id));
      assert verts[..base] == verts0[..base];
    }
  }

  /** addLineSeg: the ends of one segment, on the cell edges whose bit is set
      in the mask, visited in increasing order. */
  method AddLineSeg(dimX: nat, x: nat, y: nat, z: nat, mask: bv8, edge2vert0: map<nat, nat>, base: nat,
                    verts0: seq<EdgeKey>, idx0: seq<nat>, ghost done: seq<EdgeKey>, ghost pass: seq<EdgeKey>)
    returns (edge2vert: map<nat, nat>, verts: seq<EdgeKey>, idx: seq<nat>)
    requires SliceState(z, edge2vert0, base, verts0, pass)
    requires Resolves(verts0, idx0, done) && AllUsed(verts0, idx0)
    ensures SliceState(z, edge2vert, base, verts, pass + KeysOf(dimX, x, y, z, MaskEdges(mask)))
    ensures verts[..base] == verts0[..base]
    ensures Resolves(verts, idx, done + KeysOf(dimX, x, y, z, MaskEdges(mask))) && AllUsed(verts, idx)
  {
    edge2vert, verts, idx := edge2vert0, verts0, idx0;
    ghost var added: seq<EdgeKey> := [];
    assert pass + added == pass && done + added == done;
    for i := 0 to 4
      invariant added == KeysOf(dimX, x, y, z, EdgesBelow(mask, i))
      invariant SliceState(z, edge2vert, base, verts, pass + added) && verts[..base] == verts0[..base]
      invariant Resolves(verts, idx, done + added) && AllUsed(verts, idx)
    {
      KeysBelowStep(dimX, x, y, z, mask, i);
      if MaskBit(mask, i) {
        var edgeId := EdgeId(dimX, x, y, i);
        edge2vert, verts, idx := UseVertex(z, edgeId, edge2vert, base, verts, idx, done + added, pass + added);
        ConcatAssociates(pass, added, [EdgeKey(z, edgeId)]);
        ConcatAssociates(done, added, [EdgeKey(z, edgeId)]);
        added := added + [EdgeKey(z, edgeId)];
      }
    }
  }

  /** One cell of the scan: classify its corners, then add the segments the
      switch on the corner state selects. */
  method CellContour(g: Grid, z: nat, iso: real, x: nat, y: nat, edge2vert0: map<nat, nat>, base: nat,
                     verts0: seq<EdgeKey>, idx0: seq<nat>, ghost done: seq<EdgeKey>, ghost pass: seq<EdgeKey>)
    returns (edge2vert: map<nat, nat>, verts: seq<EdgeKey>, idx: seq<nat>)
    requires WellFormed(g) && InCell(g, z, x, y)
    requires SliceState(z, edge2vert0, base, verts0, pass)
    requires Resolves(verts0, idx0, done) && AllUsed(verts0, idx0)
    ensures SliceState(z, edge2vert, base, verts, pass + CellKeys(g, z, iso, x, y))
    ensures verts[..base] == verts0[..base]
    ensures Resolves(verts, idx, done + CellKeys(g, z, iso, x, y)) && AllUsed(verts, idx)
  {
    var scalars := ReadScalars(g, z, x, y);
    var cornerState := ClassifyCorners(scalars, iso);
    var masks := SegmentMasks(cornerState);
    edge2vert, verts, idx := edge2vert0, verts0, idx0;
    ghost var added: seq<EdgeKey> := [];
    assert pass + added == pass && done + added == done;
    for j := 0 to |masks|
      invariant added == KeysOf(g.dimX, x, y, z, SegmentEnds(masks[..j]))
      invariant SliceState(z, edge2vert, base, verts, pass + added) && verts[..base] == verts0[..base]
      invariant Resolves(verts, idx, done + added) && AllUsed(verts, idx)
    {
      edge2vert, verts, idx, added := SegmentStep(g.dimX, x, y, z, masks, j, edge2vert, base, verts, idx, done, pass, added);
    }
    assert masks[..|masks|] == masks;
    MaskKeysAreCellKeys(g, z, iso, x, y, scalars, cornerState);
  }

  /** One turn of the segment loop of CellContour: the segment of masks[j]
      joins the keys already added. */
  method SegmentStep(dimX: nat, x: nat, y: nat, z: nat, masks: seq<bv8>, j: nat, edge2vert0: map<nat, nat>, base: nat,
                     verts0: seq<EdgeKey>, idx0: seq<nat>, ghost done: seq<EdgeKey>, ghost pass: seq<EdgeKey>,
                     ghost added: seq<EdgeKey>)
    returns (edge2vert: map<nat, nat>, verts: seq<EdgeKey>, idx: seq<nat>, ghost added': seq<EdgeKey>)
    requires j < |masks| && added == KeysOf(dimX, x, y, z, SegmentEnds(masks[..j]))
    requires SliceState(z, edge2vert0, base, verts0, pass + added)
    requires Resolves(verts0, idx0, done + added) && AllUsed(verts0, idx0)
    ensures added' == KeysOf(dimX, x, y, z, SegmentEnds(masks[..j + 1]))
    ensures SliceState(z, edge2vert, base, verts, pass + added') && verts[..base] == verts0[..base]
    ensures Resolves(verts, idx, done + added') && AllUsed(verts, idx)
  {
    ghost var segment := KeysOf(dimX, x, y, z, MaskEdges(masks[j]));
    edge2vert, verts, idx := AddLineSeg(dimX, x, y, z, masks[j], edge2vert0, base, verts0, idx0, done + added, pass + added);
    ConcatAssociates(pass, added, segment);
    ConcatAssociates(done, added, segment);
    assert masks[..j + 1][..j] == masks[..j];
    KeysOfAppend(dimX, x, y, z, SegmentEnds(masks[..j]), MaskEdges(masks[j]));
    added' := added + segment;
  }

  /** The keys of the masks the switch selects are the cell's keys. */
  lemma MaskKeysAreCellKeys(g: Grid, z: nat, iso: real, x: nat, y: nat, s: seq<real>, state: nat)
    requires WellFormed(g) && InCell(g, z, x, y)
    requires s == Scalars(g, z, x, y) && state == CornerState(s, iso)
    ensures KeysOf(g.dimX, x, y, z, SegmentEnds(SegmentMasks(state))) == CellKeys(g, z, iso, x, y)
  {
    SegmentEndsOfState(state);
  }

  /** The end of a slice pass: its vertices follow those of the earlier
      heights. */
  lemma SliceDone(verts0: seq<EdgeKey>, verts: seq<EdgeKey>, idx: seq<nat>, done: seq<EdgeKey>, pass: seq<EdgeKey>, keys: seq<EdgeKey>)
    requires |verts0| <= |verts| && verts[..|verts0|] == verts0 && verts[|verts0|..] == Dedup(pass)
    requires Resolves(verts, idx, done + pass) && pass == keys
    ensures verts == verts0 + Dedup(keys) && Resolves(verts, idx, done + keys)
  {
    assert verts == verts[..|verts0|] + verts[|verts0|..];
  }

  /** cell gives the segment ends of every cell of slice z (instantiated only
      where the ends of a particular cell are named). */
  ghost predicate CellsOf(g: Grid, z: nat, iso: real, cell: (nat, nat) -> seq<EdgeKey>)
  {
    forall x: nat, y: nat {:trigger CellKeys(g, z, iso, x, y)} ::
      WellFormed(g) && InCell(g, z, x, y) ==> cell(x, y) == CellKeys(g, z, iso, x, y)
  }

  lemma CellFnIsCells(g: Grid, z: nat, iso: real)
    ensures CellsOf(g, z, iso, CellFn(g, z, iso))
  {
  }

  /** Row y of the scan, x from 0 to dimX - 2. */
  method RowContour(g: Grid, z: nat, iso: real, y: nat, ghost cell: (nat, nat) -> seq<EdgeKey>, edge2vert0: map<nat, nat>, base: nat,
                    verts0: seq<EdgeKey>, idx0: seq<nat>, ghost done: seq<EdgeKey>, ghost pass: seq<EdgeKey>)
    returns (edge2vert: map<nat, nat>, verts: seq<EdgeKey>, idx: seq<nat>)
    requires WellFormed(g) && z < g.dimZ && y + 1 < g.dimY && CellsOf(g, z, iso, cell)
    requires SliceState(z, edge2vert0, base, verts0, pass)
    requires Resolves(verts0, idx0, done + pass) && AllUsed(verts0, idx0)
    ensures SliceState(z, edge2vert, base, verts, pass + RowConcat(cell, y, g.dimX - 1))
    ensures verts[..base] == verts0[..base]
    ensures Resolves(verts, idx, done + (pass + RowConcat(cell, y, g.dimX - 1))) && AllUsed(verts, idx)
  {
    edge2vert, verts, idx := edge2vert0, verts0, idx0;
    ghost var row: seq<EdgeKey> := [];
    assert pass + row == pass;
    var x := 0;
    while x < g.dimX - 1
      invariant x <= g.dimX - 1
      invariant row == RowConcat(cell, y, x)
      invariant SliceState(z, edge2vert, base, verts, pass + row) && verts[..base] == verts0[..base]
      invariant Resolves(verts, idx, done + (pass + row)) && AllUsed(verts, idx)
    {
      ghost var keys := CellKeys(g, z, iso, x, y);
      edge2vert, verts, idx := CellContour(g, z, iso, x, y, edge2vert, base, verts, idx, done + (pass + row), pass + row);
      ConcatAssociates(done, pass + row, keys);
      ConcatAssociates(pass, row, keys);
      row := row + keys;
      x := x + 1;
    }
  }

  /** One requested height: clear edge2vertIDs, then scan the cells row by
      row, x fastest, appending the slice's vertices after those of the
      earlier heights. */
  method ContourSlice(g: Grid, iso: real, z: nat, ghost cell: (nat, nat) -> seq<EdgeKey>, ghost keys: seq<EdgeKey>,
                      verts0: seq<EdgeKey>, idx0: seq<nat>, ghost done: seq<EdgeKey>)
    returns (verts: seq<EdgeKey>, idx: seq<nat>)
    requires WellFormed(g) && z < g.dimZ && CellsOf(g, z, iso, cell)
    requires keys == ScanCells(cell, g.dimX - 1, g.dimY - 1)
    requires Resolves(verts0, idx0, done) && AllUsed(verts0, idx0)
    ensures verts == verts0 + Dedup(keys)
    ensures Resolves(verts, idx, done + keys) && AllUsed(verts, idx)
  {
    var edge2vert: map<nat, nat> := map[];
    var base := |verts0|;
    verts, idx := verts0, idx0;
    ghost var pass: seq<EdgeKey> := [];
    assert done + pass == done;
    var y := 0;
    while y < g.dimY - 1
      invariant y <= g.dimY - 1
      invariant pass == GridConcat(cell, g.dimX - 1, y)
      invariant SliceState(z, edge2vert, base, verts, pass) && verts[..base] == verts0
      invariant Resolves(verts, idx, done + pass) && AllUsed(verts, idx)
    {
      edge2vert, verts, idx, pass := RowStep(g, z, iso, y, cell, edge2vert, base, verts0, verts, idx, done, pass);
      y := y + 1;
    }
    SliceDone(verts0, verts, idx, done, pass, pass);
  }

  /** One turn of the row loop of ContourSlice: row y is scanned and joins
      the rows already passed. */
  method RowStep(g: Grid, z: nat, iso: real, y: nat, ghost cell: (nat, nat) -> seq<EdgeKey>, edge2vert0: map<nat, nat>, base: nat,
                 verts0: seq<EdgeKey>, verts1: seq<EdgeKey>, idx1: seq<nat>, ghost done: seq<EdgeKey>, ghost pass: seq<EdgeKey>)
    returns (edge2vert: map<nat, nat>, verts: seq<EdgeKey>, idx: seq<nat>, ghost pass': seq<EdgeKey>)
    requires WellFormed(g) && z < g.dimZ && y + 1 < g.dimY && CellsOf(g, z, iso, cell)
    requires pass == GridConcat(cell, g.dimX - 1, y)
    requires SliceState(z, edge2vert0, base, verts1, pass) && verts1[..base] == verts0
    requires Resolves(verts1, idx1, done + pass) && AllUsed(verts1, idx1)
    ensures pass' == GridConcat(cell, g.dimX - 1, y + 1)
    ensures SliceState(z, edge2vert, base, verts, pass') && verts[..base] == verts0
    ensures Resolves(verts, idx, done + pass') && AllUsed(verts, idx)
  {
    edge2vert, verts, idx := RowContour(g, z, iso, y, cell, edge2vert0, base, verts1, idx1, done, pass);
    pass' := pass + RowConcat(cell, y, g.dimX - 1);
  }

  /** One requested height, stated through the slice function. */
  method ContourHeight(g: Grid, iso: real, z: nat, verts0: seq<EdgeKey>, idx0: seq<nat>, ghost done: seq<EdgeKey>)
    returns (verts: seq<EdgeKey>, idx: seq<nat>)
    requires WellFormed(g) && z < g.dimZ
    requires Resolves(verts0, idx0, done) && AllUsed(verts0, idx0)
    ensures verts == verts0 + Dedup(SliceFn(g, iso)(z))
    ensures Resolves(verts, idx, done + SliceFn(g, iso)(z)) && AllUsed(verts, idx)
  {
    CellFnIsCells(g, z, iso);
    SliceFnAt(g, iso, z);
    verts, idx := ContourSlice(g, iso, z, CellFn(g, z, iso), SliceFn(g, iso)(z), verts0, idx0, done);
  }

  lemma {:induction false} SliceFnAt(g: Grid, iso: real, z: nat)
    requires WellFormed(g) && z < g.dimZ
    ensures SliceFn(g, iso)(z) == ScanCells(CellFn(g, z, iso), g.dimX - 1, g.dimY - 1)
  {
    assert SliceFn(g, iso)(z) == SliceKeys(g, z, iso);
    SliceKeysScan(g, z, iso);
  }

  /** SliceKeys is the scan of the slice's cells. */
  lemma SliceKeysScan(g: Grid, z: nat, iso: real)
    requires WellFormed(g)
    ensures SliceKeys(g, z, iso) == ScanCells(CellFn(g, z, iso), g.dimX - 1, g.dimY - 1)
  {
    assert SliceKeys(g, z, iso) == ScanCells(CellFn(g, z, iso), g.dimX - 1, g.dimY - 1);
  }

  /** The contour of the first h + 1 heights extends that of the first h. */
  lemma ContourStep(slice: nat -> seq<EdgeKey>, heights: seq<nat>, h: nat)
    requires h < |heights|
    ensures ContourVerts(slice, heights[..h + 1]) == ContourVerts(slice, heights[..h]) + Dedup(slice(heights[h]))
    ensures ContourKeys(slice, heights[..h + 1]) == ContourKeys(slice, heights[..h]) + slice(heights[h])
  {
    assert heights[..h + 1][..h] == heights[..h];
  }

  /** PerVolParam::MarchingSquare without the geometry: the vertex buffer
      holds, height after height, one vertex per distinct crossed grid edge
      of that slice, and the index buffer names, segment end by segment end,
      the vertex of the edge the end lies on. */
  method Contours(g: Grid, iso: real, heights: seq<nat>) returns (verts: seq<EdgeKey>, idx: seq<nat>)
    requires WellFormed(g) && HeightsInside(g, heights)
    ensures verts == ContourVerts(SliceFn(g, iso), heights)
    ensures Resolves(verts, idx, ContourKeys(SliceFn(g, iso), heights)) && AllUsed(verts, idx)
  {
    verts, idx := [], [];
    for h := 0 to |heights|
      invariant verts == ContourVerts(SliceFn(g, iso), heights[..h])
      invariant Resolves(verts, idx, ContourKeys(SliceFn(g, iso), heights[..h])) && AllUsed(verts, idx)
    {
      verts, idx := ContourHeight(g, iso, heights[h], verts, idx, ContourKeys(SliceFn(g, iso), heights[..h]));
      ContourStep(SliceFn(g, iso), heights, h);
    }
    assert heights[..|heights|] == heights;
  }

  /** The facts the index buffer of Contours owes its users: it holds whole
      lines, every vertex lies in a requested slice, and when no height is
      requested twice no vertex is stored twice. */
  lemma ContourFacts(g: Grid, iso: real, heights: seq<nat>)
    ensures |ContourKeys(SliceFn(g, iso), heights)| % 2 == 0
    ensures forall i :: 0 <= i < |ContourVerts(SliceFn(g, iso), heights)| ==>
      ContourVerts(SliceFn(g, iso), heights)[i].height in heights
    ensures NoRepeats(heights) ==> NoRepeats(ContourVerts(SliceFn(g, iso), heights))
  {
    SliceFnPaired(g, iso);
    ContourKeysEven(SliceFn(g, iso), heights);
    ContourVertsHeights(SliceFn(g, iso), heights);
    if NoRepeats(heights) {
      ContourVertsDistinct(SliceFn(g, iso), heights);
    }
  }

  // ---------------------------------------------------------------------
  // Placement of a volume on the globe

  /** Longitude and latitude ranges in radians and the height range measured
      from the centre of the earth. */
  datatype Bounds = Bounds(minLon: real, maxLon: real, minLat: real, maxLat: real, minHeight: real, maxHeight: real)

  /** The bounds a volume is placed by twice over: in the fields the CPU path
      reads and in the shader uniforms the GPU path reads. */
  datatype Placement = Placement(fields: Bounds, uniforms: Bounds)

  /** The shader sees the same bounds as the CPU path. */
  predicate InSync(p: Placement)
  {
    p.fields == p.uniforms
  }

  /** The bounds the constructor gives the fields: longitude within 10 and
      latitude within 20 degrees of zero, heights 1.1 and 1.3 earth radii. */
  function DefaultFields(): Bounds
  {
    Bounds(Deg2Rad(-10.0), Deg2Rad(10.0), Deg2Rad(-20.0), Deg2Rad(20.0),
           WGS_84_RADIUS_EQUATOR * 1.1, WGS_84_RADIUS_EQUATOR * 1.3)
  }

  /** The constructor as written: the uniforms get latitude within 10 and
      longitude within 20 degrees, the two ranges of the fields swapped. */
  function DefaultPlacementAsWritten(): Placement
  {
    Placement(DefaultFields(),
              Bounds(Deg2Rad(-20.0), Deg2Rad(20.0), Deg2Rad(-10.0), Deg2Rad(10.0),
                     WGS_84_RADIUS_EQUATOR * 1.1, WGS_84_RADIUS_EQUATOR * 1.3))
  }

  /** The defaults as written leave the shader with other ranges than the
      fields. */
  lemma DefaultAsWrittenOutOfSync()
    ensures !InSync(DefaultPlacementAsWritten())
    ensures DefaultPlacementAsWritten().uniforms.minLon != DefaultPlacementAsWritten().fields.minLon
  {
    Deg2RadInjective(-20.0, -10.0);
  }

  /** The defaults with the uniforms taking the values of the fields. */
  function DefaultPlacement(): (p: Placement)
  {
    Placement(DefaultFields(), DefaultFields())
  }

  /** The corrected defaults are in sync and ordered. */
  lemma DefaultInSync()
    ensures InSync(DefaultPlacement())
    ensures ValidBounds(DefaultPlacement().fields)
  {
    Deg2RadMonotone(-10.0, 10.0);
    Deg2RadMonotone(-20.0, 20.0);
    Deg2RadMonotone(-180.0, -20.0);
    Deg2RadMonotone(20.0, 180.0);
  }

  lemma Deg2RadMonotone(a: real, b: real)
    requires a < b
    ensures Deg2Rad(a) < Deg2Rad(b)
  {
  }

  lemma Deg2RadInjective(a: real, b: real)
    requires a != b
    ensures Deg2Rad(a) != Deg2Rad(b)
  {
  }

  /** Bounds every successful setter call leaves: longitude within [-pi, pi],
      latitude within [-pi/2, pi/2], a non-negative height, each range
      non-empty. */
  predicate ValidBounds(b: Bounds)
  {
    && -PI <= b.minLon < b.maxLon <= PI
    && -PI / 2.0 <= b.minLat < b.maxLat <= PI / 2.0
    && 0.0 <= b.minHeight < b.maxHeight
  }

  /** SetLongtituteRange as written: the ranges are checked and the fields
      set, but the longitude uniforms receive the latitude fields. */
  function SetLongitudeAsWritten(p: Placement, minDeg: real, maxDeg: real): (r: (bool, Placement))
  {
    if minDeg < -180.0 || maxDeg > 180.0 || minDeg >= maxDeg then (false, p)
    else (true, Placement(p.fields.(minLon := Deg2Rad(minDeg), maxLon := Deg2Rad(maxDeg)),
                          p.uniforms.(minLon := p.fields.minLat, maxLon := p.fields.maxLat)))
  }

  /** After a successful call as written the longitude uniforms hold the
      latitude range, whatever longitudes were asked for. */
  lemma SetLongitudeAsWrittenTakesLatitude(p: Placement, minDeg: real, maxDeg: real)
    requires SetLongitudeAsWritten(p, minDeg, maxDeg).0
    ensures SetLongitudeAsWritten(p, minDeg, maxDeg).1.uniforms.minLon == p.fields.minLat
    ensures SetLongitudeAsWritten(p, minDeg, maxDeg).1.uniforms.maxLon == p.fields.maxLat
  {
  }

  /** From the in-sync defaults, asking for longitudes within 30 degrees
      leaves the shader with the latitude range -20 to 20 degrees. */
  lemma SetLongitudeAsWrittenBreaksSync()
    ensures InSync(DefaultPlacement())
    ensures var r := SetLongitudeAsWritten(DefaultPlacement(), -30.0, 30.0);
      r.0 && !InSync(r.1) && r.1.uniforms.minLon == Deg2Rad(-20.0) && r.1.fields.minLon == Deg2Rad(-30.0)
  {
    Deg2RadInjective(-20.0, -30.0);
  }

  /** SetLongtituteRange with the uniforms taking the new longitudes. */
  function SetLongitude(p: Placement, minDeg: real, maxDeg: real): (r: (bool, Placement))
    ensures r.0 <==> -180.0 <= minDeg && maxDeg <= 180.0 && minDeg < maxDeg
    ensures !r.0 ==> r.1 == p
    ensures r.0 ==> -PI <= r.1.fields.minLon < r.1.fields.maxLon <= PI
    ensures r.0 ==> r.1.fields.(minLon := p.fields.minLon, maxLon := p.fields.maxLon) == p.fields
  {
    if minDeg < -180.0 || maxDeg > 180.0 || minDeg >= maxDeg then (false, p)
    else
      Deg2RadMonotone(minDeg, maxDeg);
      var f := p.fields.(minLon := Deg2Rad(minDeg), maxLon := Deg2Rad(maxDeg));
      (true, Placement(f, p.uniforms.(minLon := f.minLon, maxLon := f.maxLon)))
  }

  /** SetLatituteRange: degrees in [-90, 90], the minimum below the maximum. */
  function SetLatitude(p: Placement, minDeg: real, maxDeg: real): (r: (bool, Placement))
    ensures r.0 <==> -90.0 <= minDeg && maxDeg <= 90.0 && minDeg < maxDeg
    ensures !r.0 ==> r.1 == p
    ensures r.0 ==> -PI / 2.0 <= r.1.fields.minLat < r.1.fields.maxLat <= PI / 2.0
    ensures r.0 ==> r.1.fields.(minLat := p.fields.minLat, maxLat := p.fields.maxLat) == p.fields
  {
    if minDeg < -90.0 || maxDeg > 90.0 || minDeg >= maxDeg then (false, p)
    else
      Deg2RadMonotone(minDeg, maxDeg);
      var f := p.fields.(minLat := Deg2Rad(minDeg), maxLat := Deg2Rad(maxDeg));
      (true, Placement(f, p.uniforms.(minLat := f.minLat, maxLat := f.maxLat)))
  }

  /** SetHeightFromCenterRange: a non-negative minimum below the maximum. */
  function SetHeight(p: Placement, minH: real, maxH: real): (r: (bool, Placement))
    ensures r.0 <==> 0.0 <= minH < maxH
    ensures !r.0 ==> r.1 == p
    ensures r.0 ==> r.1.fields == p.fields.(minHeight := minH, maxHeight := maxH)
  {
    if minH < 0.0 || minH >= maxH then (false, p)
    else
      var f := p.fields.(minHeight := minH, maxHeight := maxH);
      (true, Placement(f, p.uniforms.(minHeight := minH, maxHeight := maxH)))
  }

  /** The corrected setters keep the shader in sync with the fields, and keep
      valid bounds valid. */
  lemma SettersKeepSync(p: Placement, a: real, b: real)
    requires InSync(p)
    ensures InSync(SetLongitude(p, a, b).1) && InSync(SetLatitude(p, a, b).1) && InSync(SetHeight(p, a, b).1)
    ensures ValidBounds(p.fields) ==>
      ValidBounds(SetLongitude(p, a, b).1.fields) && ValidBounds(SetLatitude(p, a, b).1.fields)
      && ValidBounds(SetHeight(p, a, b).1.fields)
  {
  }

  /** Successful setters commute when they set different ranges. */
  lemma SettersCommute(p: Placement, lon0: real, lon1: real, lat0: real, lat1: real)
    ensures SetLatitude(SetLongitude(p, lon0, lon1).1, lat0, lat1).1
         == SetLongitude(SetLatitude(p, lat0, lat1).1, lon0, lon1).1
  {
  }

  // ---------------------------------------------------------------------
  // The per-volume state

  /** MarchingSquareCPURenderer::PerVolParam without its scene-graph nodes:
      vertices are recorded by the grid edge they lie on. */
  class PerVolParam {
    const volDat: seq<real>
    const volDatSmoothed: seq<real>
    const dimX: nat
    const dimY: nat
    const dimZ: nat
    var isoVal: real
    var minLongitude: real
    var maxLongitude: real
    var minLatitude: real
    var maxLatitude: real
    var minHeight: real
    var maxHeight: real
    var volStartFromLonZero: bool
    var minLongitudeUni: real
    var maxLongitudeUni: real
    var minLatitudeUni: real
    var maxLatitudeUni: real
    var minHeightUni: real
    var maxHeightUni: real
    var volStartFromLonZeroUni: int
    var verts: seq<EdgeKey>
    var vertIndices: seq<nat>

    function PlacementOf(): Placement
      reads this
    {
      Placement(Bounds(minLongitude, maxLongitude, minLatitude, maxLatitude, minHeight, maxHeight),
                Bounds(minLongitudeUni, maxLongitudeUni, minLatitudeUni, maxLatitudeUni, minHeightUni, maxHeightUni))
    }

    /** The volume the contours are taken from. */
    function Volume(useSmoothedVol: bool): Grid
    {
      Grid(if useSmoothedVol then volDatSmoothed else volDat, dimX, dimY, dimZ)
    }

    function GetHeightFromCenterRange(): (real, real)
      reads this
    {
      (minHeight, maxHeight)
    }

    /** The shared data, the dimensions and the default placement, the
        uniforms in sync with the fields; no contour yet. */
    constructor(volDat: seq<real>, volDatSmoothed: seq<real>, dimX: nat, dimY: nat, dimZ: nat)
      ensures this.volDat == volDat && this.volDatSmoothed == volDatSmoothed
      ensures this.dimX == dimX && this.dimY == dimY && this.dimZ == dimZ
      ensures PlacementOf() == DefaultPlacement() && InSync(PlacementOf())
      ensures !volStartFromLonZero && volStartFromLonZeroUni == 0
      ensures verts == [] && vertIndices == []
    {
      this.volDat := volDat;
      this.volDatSmoothed := volDatSmoothed;
      this.dimX, this.dimY, this.dimZ := dimX, dimY, dimZ;
      var minH, maxH := WGS_84_RADIUS_EQUATOR * 1.1, WGS_84_RADIUS_EQUATOR * 1.3;
      minLongitude, maxLongitude := Deg2Rad(-10.0), Deg2Rad(10.0);
      minLatitude, maxLatitude := Deg2Rad(-20.0), Deg2Rad(20.0);
      minHeight, maxHeight := minH, maxH;
      volStartFromLonZero := false;
      verts, vertIndices := [], [];
      minLatitudeUni, maxLatitudeUni := minLatitude, maxLatitude;
      minLongitudeUni, maxLongitudeUni := minLongitude, maxLongitude;
      minHeightUni, maxHeightUni := minH, maxH;
      volStartFromLonZeroUni := 0;
      DefaultInSync();
    }

    /** Degrees in [-180, 180], the minimum below the maximum; otherwise false
        and nothing changes. */
    method SetLongitudeRange(minLonDeg: real, maxLonDeg: real) returns (ok: bool)
      modifies this
      ensures (ok, PlacementOf()) == SetLongitude(old(PlacementOf()), minLonDeg, maxLonDeg)
      ensures isoVal == old(isoVal) && volStartFromLonZero == old(volStartFromLonZero)
      ensures volStartFromLonZeroUni == old(volStartFromLonZeroUni)
      ensures verts == old(verts) && vertIndices == old(vertIndices)
    {
      if minLonDeg < -180.0 {
        return false;
      }
      if maxLonDeg > 180.0 {
        return false;
      }
      if minLonDeg >= maxLonDeg {
        return false;
      }
      minLongitude := Deg2Rad(minLonDeg);
      maxLongitude := Deg2Rad(maxLonDeg);
      minLongitudeUni := minLongitude;
      maxLongitudeUni := maxLongitude;
      return true;
    }

    /** Degrees in [-90, 90], the minimum below the maximum; otherwise false
        and nothing changes. */
    method SetLatitudeRange(minLatDeg: real, maxLatDeg: real) returns (ok: bool)
      modifies this
      ensures (ok, PlacementOf()) == SetLatitude(old(PlacementOf()), minLatDeg, maxLatDeg)
      ensures isoVal == old(isoVal) && volStartFromLonZero == old(volStartFromLonZero)
      ensures volStartFromLonZeroUni == old(volStartFromLonZeroUni)
      ensures verts == old(verts) && vertIndices == old(vertIndices)
    {
      if minLatDeg < -90.0 {
        return false;
      }
      if maxLatDeg > 90.0 {
        return false;
      }
      if minLatDeg >= maxLatDeg {
        return false;
      }
      minLatitude := Deg2Rad(minLatDeg);
      maxLatitude := Deg2Rad(maxLatDeg);
      minLatitudeUni := minLatitude;
      maxLatitudeUni := maxLatitude;
      return true;
    }

    /** A non-negative minimum below the maximum; otherwise false and nothing
        changes.  The getter returns what was set. */
    method SetHeightFromCenterRange(minH: real, maxH: real) returns (ok: bool)
      modifies this
      ensures (ok, PlacementOf()) == SetHeight(old(PlacementOf()), minH, maxH)
      ensures ok ==> GetHeightFromCenterRange() == (minH, maxH)
      ensures isoVal == old(isoVal) && volStartFromLonZero == old(volStartFromLonZero)
      ensures volStartFromLonZeroUni == old(volStartFromLonZeroUni)
      ensures verts == old(verts) && vertIndices == old(vertIndices)
    {
      if minH < 0.0 {
        return false;
      }
      if minH >= maxH {
        return false;
      }
      minHeight := minH;
      maxHeight := maxH;
      minHeightUni := minHeight;
      maxHeightUni := maxHeight;
      return true;
    }

    /** The flag and its uniform, 1 for on and 0 for off. */
    method SetVolumeStartFromLongitudeZero(flag: bool)
      modifies this
      ensures volStartFromLonZero == flag && volStartFromLonZeroUni == (if flag then 1 else 0)
      ensures PlacementOf() == old(PlacementOf()) && isoVal == old(isoVal)
      ensures verts == old(verts) && vertIndices == old(vertIndices)
    {
      volStartFromLonZero := flag;
      if flag {
        volStartFromLonZeroUni := 1;
      } else {
        volStartFromLonZeroUni := 0;
      }
    }

    /** Records the iso-value and replaces the contour by that of the chosen
        volume at the given heights (each below dimZ): the buffers depend on
        the arguments only, hold whole lines, and every index names a vertex. */
    method MarchingSquare(iso: real, heights: seq<nat>, useSmoothedVol: bool)
      requires WellFormed(Volume(useSmoothedVol)) && HeightsInside(Volume(useSmoothedVol), heights)
      modifies this
      ensures isoVal == iso
      ensures verts == ContourVerts(SliceFn(Volume(useSmoothedVol), iso), heights)
      ensures Resolves(verts, vertIndices, ContourKeys(SliceFn(Volume(useSmoothedVol), iso), heights))
      ensures AllUsed(verts, vertIndices) && |vertIndices| % 2 == 0
      ensures forall i :: 0 <= i < |vertIndices| ==> vertIndices[i] < |verts|
      ensures PlacementOf() == old(PlacementOf()) && volStartFromLonZero == old(volStartFromLonZero)
      ensures volStartFromLonZeroUni == old(volStartFromLonZeroUni)
    {
      isoVal := iso;
      var g := Volume(useSmoothedVol);
      verts, vertIndices := Contours(g, iso, heights);
      ContourFacts(g, iso, heights);
    }

    function GetIsoplethValue(): real
      reads this
    {
      isoVal
    }
  }

  // ---------------------------------------------------------------------
  // The renderer's registry of volumes

  /** MarchingSquareCPURenderer: the volumes by name. */
  class MarchingSquareCPURenderer {
    var vols: map<string, PerVolParam>

    constructor()
      ensures vols == map[]
    {
      vols := map[];
    }

    /** A volume added under a name in use replaces the old one; every other
        entry stays. */
    method AddVolume(name: string, volDat: seq<real>, volDatSmoothed: seq<real>, dimX: nat, dimY: nat, dimZ: nat)
      modifies this
      ensures vols.Keys == old(vols.Keys) + {name}
      ensures forall n :: n in old(vols) && n != name ==> vols[n] == old(vols)[n]
      ensures fresh(vols[name])
      ensures vols[name].volDat == volDat && vols[name].volDatSmoothed == volDatSmoothed
      ensures vols[name].dimX == dimX && vols[name].dimY == dimY && vols[name].dimZ == dimZ
      ensures vols[name].PlacementOf() == DefaultPlacement()
      ensures vols[name].verts == [] && vols[name].vertIndices == []
    {
      if name in vols {
        vols := vols - {name};
      }
      var p := new PerVolParam(volDat, volDatSmoothed, dimX, dimY, dimZ);
      vols := vols[name := p];
    }

    /** The volume of that name, or null when there is none. */
    method GetVolume(name: string) returns (p: PerVolParam?)
      ensures name in vols ==> p == vols[name]
      ensures name !in vols ==> p == null
    {
      if name !in vols {
        return null;
      }
      return vols[name];
    }

    method GetVolumeNum() returns (n: nat)
      ensures n == |vols.Keys|
    {
      return |vols|;
    }
  }
}
