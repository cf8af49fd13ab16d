// The isopleth view of one volume slice: IsoplethWidget in
// include/common_gui/isopleth_widget.h.  Its marchingSquare pass uses the same
// corner classification, switch and omegas as the marching-square renderer
// (module MarchingSquare), but draws each segment as a line between the two
// end points instead of collecting vertex indices.  The QGraphicsScene is the
// sequence of lines added to it.
module IsoplethWidget {
  import opened Numerics
  import opened MarchingSquare

  /** A line of the scene, from p0 to p1. */
  datatype Line = Line(p0: Point, p1: Point)

  // ---------------------------------------------------------------------
  // The lines of one cell

  /** The line addLineSeg adds for a mask with two bits: from the end point on
      its lower-numbered edge to the one on its higher-numbered edge. */
  function MaskLine(x: nat, y: nat, s: seq<real>, mask: bv8): Line
    requires |s| == 4 && |MaskEdges(mask)| == 2
  {
    var e := MaskEdges(mask);
    Line(EdgePoint(x, y, s, e[0]), EdgePoint(x, y, s, e[1]))
  }

  /** The lines through consecutive pairs of end edges: the first line joins
      the end points on edges ends[0] and ends[1], the second those on ends[2]
      and ends[3]. */
  function PairLines(x: nat, y: nat, s: seq<real>, ends: seq<nat>): seq<Line>
    requires |s| == 4
    decreases |ends|
  {
    if |ends| < 2 then []
    else PairLines(x, y, s, ends[..|ends| - 2])
         + [Line(EdgePoint(x, y, s, ends[|ends| - 2]), EdgePoint(x, y, s, ends[|ends| - 1]))]
  }

  /** The lines the switch draws for a corner state: one per segment of the
      case table. */
  function StateLines(x: nat, y: nat, s: seq<real>, state: nat): seq<Line>
    requires |s| == 4
  {
    PairLines(x, y, s, EndsOfState(state))
  }

  /** The lines of cell (x, y) of slice z. */
  function CellLines(g: Grid, z: nat, iso: real, x: nat, y: nat): seq<Line>
    requires WellFormed(g) && InCell(g, z, x, y)
  {
    var s := Scalars(g, z, x, y);
    StateLines(x, y, s, CornerState(s, iso))
  }

  /** CellLines as a function of the cell, empty outside the slice. */
  function CellLineFn(g: Grid, z: nat, iso: real): (nat, nat) -> seq<Line>
  {
    (x: nat, y: nat) => if WellFormed(g) && InCell(g, z, x, y) then CellLines(g, z, iso, x, y) else []
  }

  /** The scene after marchingSquare: the lines of every cell of slice z, row
      by row, x fastest. */
  function Scene(g: Grid, z: nat, iso: real): seq<Line>
    requires WellFormed(g)
  {
    ScanCells(CellLineFn(g, z, iso), g.dimX - 1, g.dimY - 1)
  }

  // ---------------------------------------------------------------------
  // Properties of the lines

  /** Appending the two ends of one more segment appends its line. */
  lemma PairLinesAppend(x: nat, y: nat, s: seq<real>, ends: seq<nat>, mask: bv8)
    requires |s| == 4 && |MaskEdges(mask)| == 2
    ensures PairLines(x, y, s, ends + MaskEdges(mask)) == PairLines(x, y, s, ends) + [MaskLine(x, y, s, mask)]
  {
    var e := ends + MaskEdges(mask);
    assert e[..|e| - 2] == ends;
  }

  /** One line per pair of ends. */
  lemma {:induction false} PairLinesCount(x: nat, y: nat, s: seq<real>, ends: seq<nat>)
    requires |s| == 4
    ensures |PairLines(x, y, s, ends)| == |ends| / 2
    decreases |ends|
  {
    if |ends| >= 2 {
      PairLinesCount(x, y, s, ends[..|ends| - 2]);
    }
  }

  /** A state and its 4-bit complement draw the same lines, except for the two
      saddles. */
  lemma StateLinesComplement(x: nat, y: nat, s: seq<real>, state: nat)
    requires |s| == 4 && state < 16 && state != 5 && state != 10
    ensures StateLines(x, y, s, 15 - state) == StateLines(x, y, s, state)
  {
    EndsOfStateComplement(state);
  }

  /** A non-saddle state and its complement end their segments on the same
      edges. */
  lemma EndsOfStateComplement(state: nat)
    requires state < 16 && state != 5 && state != 10
    ensures EndsOfState(15 - state) == EndsOfState(state)
  {
    SegmentMasksComplement(state);
    SegmentEndsOfState(state);
    SegmentEndsOfState(15 - state);
  }

  /** The empty and the full state draw no line, each saddle two. */
  lemma StateLinesCounts(x: nat, y: nat, s: seq<real>)
    requires |s| == 4
    ensures StateLines(x, y, s, 0) == [] && StateLines(x, y, s, 15) == []
    ensures |StateLines(x, y, s, 5)| == 2 && |StateLines(x, y, s, 10)| == 2
  {
    PairLinesCount(x, y, s, EndsOfState(5));
    PairLinesCount(x, y, s, EndsOfState(10));
  }

  /** With positive corner scalars, the end point on edge k lies on that edge
      of the unit cell: edge 0 at the bottom, 1 on the right, 2 at the top and
      3 on the left. */
  lemma EdgePointOnEdge(x: nat, y: nat, s: seq<real>, k: nat)
    requires |s| == 4 && k < 4
    requires forall i :: 0 <= i < 4 ==> 0.0 < s[i]
    ensures var p := EdgePoint(x, y, s, k);
      && p.x.Num? && p.y.Num?
      && x as real <= p.x.r <= x as real + 1.0 && y as real <= p.y.r <= y as real + 1.0
      && (k == 0 ==> p.y.r == y as real) && (k == 1 ==> p.x.r == x as real + 1.0)
      && (k == 2 ==> p.y.r == y as real + 1.0) && (k == 3 ==> p.x.r == x as real)
  {
    OmegaInUnit(s, k);
  }

  /** There are no more edges below i than below n. */
  lemma {:induction false} EdgesBelowGrow(mask: bv8, i: nat, n: nat)
    requires i <= n <= 4
    ensures |EdgesBelow(mask, i)| <= |EdgesBelow(mask, n)|
  {
    if i < n {
      EdgesBelowGrow(mask, i, n - 1);
    }
  }

  /** Edge i joins the edges below it when its bit is set. */
  lemma EdgesBelowStep(mask: bv8, i: nat)
    requires i < 4
    ensures var b, b' := EdgesBelow(mask, i), EdgesBelow(mask, i + 1);
      && |b'| == |b| + (if MaskBit(mask, i) then 1 else 0)
      && (forall k :: 0 <= k < |b| ==> b'[k] == b[k])
      && (MaskBit(mask, i) ==> b'[|b|] == i)
  {
  }

  /** The slot addLineSeg fills for edge i holds the end point on that edge. */
  lemma SlotPoint(x: nat, y: nat, s: seq<real>, omegas: seq<Float>, i: nat)
    requires |s| == 4 && |omegas| == 4 && i < 4 && omegas[i] == Omega(s, i)
    ensures Point(Shift(x as real, if i == 0 || i == 2 then omegas[i] else Num(if i == 1 then 1.0 else 0.0)),
                  Shift(y as real, if i == 1 || i == 3 then omegas[i] else Num(if i == 2 then 1.0 else 0.0)))
         == EdgePoint(x, y, s, i)
  {
  }

  // ---------------------------------------------------------------------
  // marchingSquare

  /** The addLineSeg lambda: visits the four edges in order and writes the end
      point of each edge whose bit is set into the next of two slots; the line
      joins the two slots.  A mask with two bits fills both slots exactly. */
  method AddLineSeg(x: nat, y: nat, scalars: seq<real>, omegas: seq<Float>, mask: bv8) returns (line: Line)
    requires |scalars| == 4 && |omegas| == 4 && |MaskEdges(mask)| == 2
    requires forall k :: 0 <= k < 4 ==> omegas[k] == Omega(scalars, k)
    ensures line == MaskLine(x, y, scalars, mask)
  {
    var pnts := new Point[2](_ => Point(Num(0.0), Num(0.0)));
    var pntCnt: nat := 0;
    for i := 0 to 4
      invariant pntCnt == |EdgesBelow(mask, i)| <= 2
      invariant forall k :: 0 <= k < pntCnt ==> pnts[k] == EdgePoint(x, y, scalars, EdgesBelow(mask, i)[k])
    {
      EdgesBelowGrow(mask, i + 1, 4);
      EdgesBelowStep(mask, i);
      if MaskBit(mask, i) {
        SlotPoint(x, y, scalars, omegas, i);
        pnts[pntCnt] := Point(Shift(x as real, if i == 0 || i == 2 then omegas[i] else Num(if i == 1 then 1.0 else 0.0)),
                              Shift(y as real, if i == 1 || i == 3 then omegas[i] else Num(if i == 2 then 1.0 else 0.0)));
        pntCnt := pntCnt + 1;
      }
    }
    line := Line(pnts[0], pnts[1]);
  }

  /** cell gives the lines of every cell of slice z. */
  ghost predicate LinesOf(g: Grid, z: nat, iso: real, cell: (nat, nat) -> seq<Line>)
  {
    forall x: nat, y: nat {:trigger CellLines(g, z, iso, x, y)} ::
      WellFormed(g) && InCell(g, z, x, y) ==> cell(x, y) == CellLines(g, z, iso, x, y)
  }

  lemma CellLineFnIsLines(g: Grid, z: nat, iso: real)
    ensures LinesOf(g, z, iso, CellLineFn(g, z, iso))
  {
  }

  /** The loop body for cell (x, y): read the corners, classify them, compute
      the omegas and add one line per mask the switch selects. */
  method CellLineSegs(g: Grid, z: nat, iso: real, x: nat, y: nat, ghost cell: (nat, nat) -> seq<Line>) returns (lines: seq<Line>)
    requires WellFormed(g) && InCell(g, z, x, y) && LinesOf(g, z, iso, cell)
    ensures lines == cell(x, y)
  {
    var scalars := ReadScalars(g, z, x, y);
    var cornerState := ClassifyCorners(scalars, iso);
    var omegas := [Div(scalars[0], scalars[1] + scalars[0]), Div(scalars[1], scalars[2] + scalars[1]),
                   Div(scalars[3], scalars[3] + scalars[2]), Div(scalars[0], scalars[0] + scalars[3])];
    OmegasMatch(scalars, omegas);
    var masks := SegmentMasks(cornerState);
    lines := [];
    for j := 0 to |masks|
      invariant lines == PairLines(x, y, scalars, SegmentEnds(masks[..j]))
    {
      SegmentMasksHaveTwoEdges(cornerState, j);
      var line := AddLineSeg(x, y, scalars, omegas, masks[j]);
      assert masks[..j + 1][..j] == masks[..j];
      PairLinesAppend(x, y, scalars, SegmentEnds(masks[..j]), masks[j]);
      lines := lines + [line];
    }
    assert masks[..|masks|] == masks;
    MaskLinesAreCellLines(g, z, iso, x, y, scalars, cornerState);
  }

  /** The four omegas the loop body computes are Omega(s, 0) to Omega(s, 3). */
  lemma OmegasMatch(s: seq<real>, omegas: seq<Float>)
    requires |s| == 4
    requires omegas == [Div(s[0], s[1] + s[0]), Div(s[1], s[2] + s[1]),
                        Div(s[3], s[3] + s[2]), Div(s[0], s[0] + s[3])]
    ensures forall k :: 0 <= k < 4 ==> omegas[k] == Omega(s, k)
  {
  }

  /** The lines of the masks the switch selects are the cell's lines. */
  lemma MaskLinesAreCellLines(g: Grid, z: nat, iso: real, x: nat, y: nat, s: seq<real>, state: nat)
    requires WellFormed(g) && InCell(g, z, x, y)
    requires s == Scalars(g, z, x, y) && state == CornerState(s, iso)
    ensures PairLines(x, y, s, SegmentEnds(SegmentMasks(state))) == CellLines(g, z, iso, x, y)
  {
    SegmentEndsOfState(state);
  }

  /** The two nested loops of marchingSquare over slice z. */
  method SliceLines(g: Grid, z: nat, iso: real, ghost cell: (nat, nat) -> seq<Line>) returns (lines: seq<Line>)
    requires WellFormed(g) && z < g.dimZ && LinesOf(g, z, iso, cell)
    ensures lines == ScanCells(cell, g.dimX - 1, g.dimY - 1)
  {
    lines := [];
    var y := 0;
    while y < g.dimY - 1
      invariant y <= g.dimY - 1
      invariant lines == GridConcat(cell, g.dimX - 1, y)
    {
      ghost var rowStart := lines;
      var x := 0;
      while x < g.dimX - 1
        invariant x <= g.dimX - 1
        invariant lines == rowStart + RowConcat(cell, y, x)
      {
        var cellLines := CellLineSegs(g, z, iso, x, y, cell);
        lines := lines + cellLines;
        x := x + 1;
      }
      y := y + 1;
    }
  }

  // ---------------------------------------------------------------------
  // The widget

  class Widget {
    var currUseSmoothedVol: bool
    var dimX: nat
    var dimY: nat
    var dimZ: nat
    var currZ: nat
    var currIsoVal: real
    var volDat: seq<real>
    var volDatSmoothed: seq<real>
    /** The lines of isoplethScn. */
    var scene: seq<Line>

    /** The volume marchingSquare reads: the smoothed one when asked for. */
    function Volume(useSmoothedVol: bool): Grid
      reads this
    {
      Grid(if useSmoothedVol then volDatSmoothed else volDat, dimX, dimY, dimZ)
    }

    /** The arguments of Update differ from the cached ones. */
    predicate Differs(isoVal: real, volZ: nat, useSmoothedVol: bool)
      reads this
    {
      currUseSmoothedVol != useSmoothedVol || currIsoVal != isoVal || currZ != volZ
    }

    /** No smoothing, iso-value -1, an empty volume and an empty scene; the
        cached height is left unset. */
    constructor()
      ensures !currUseSmoothedVol && currIsoVal == -1.0
      ensures dimX == 0 && dimY == 0 && dimZ == 0 && scene == []
    {
      currUseSmoothedVol := false;
      currIsoVal := -1.0;
      dimX, dimY, dimZ := 0, 0, 0;
      volDat, volDatSmoothed := [], [];
      scene := [];
    }

    function GetDimension(): (d: (nat, nat, nat))
      reads this
      ensures d.0 == dimX && d.1 == dimY && d.2 == dimZ
    {
      (dimX, dimY, dimZ)
    }

    /** Takes a new volume and sets the cached height to dim[2], one past the
        last slice, so that the next Update at any slice redraws. */
    method SetVolume(dat: seq<real>, datSmoothed: seq<real>, dim: (nat, nat, nat))
      modifies this
      ensures volDat == dat && volDatSmoothed == datSmoothed && GetDimension() == dim
      ensures currZ == dim.2
      ensures currIsoVal == old(currIsoVal) && currUseSmoothedVol == old(currUseSmoothedVol) && scene == old(scene)
      ensures forall iso: real, z: nat, s: bool :: z < dimZ ==> Differs(iso, z, s)
    {
      volDat := dat;
      volDatSmoothed := datSmoothed;
      dimX, dimY, dimZ := dim.0, dim.1, dim.2;
      currZ := dim.2;
    }

    /** marchingSquare: clears the scene, then adds the lines of every cell of
        the cached slice. */
    method MarchingSquare()
      requires WellFormed(Volume(currUseSmoothedVol)) && currZ < dimZ
      modifies this
      ensures currUseSmoothedVol == old(currUseSmoothedVol) && currIsoVal == old(currIsoVal) && currZ == old(currZ)
      ensures volDat == old(volDat) && volDatSmoothed == old(volDatSmoothed) && GetDimension() == old(GetDimension())
      ensures scene == Scene(Volume(currUseSmoothedVol), currZ, currIsoVal)
    {
      scene := [];
      var g := Volume(currUseSmoothedVol);
      ghost var cell := CellLineFn(g, currZ, currIsoVal);
      CellLineFnIsLines(g, currZ, currIsoVal);
      var lines := SliceLines(g, currZ, currIsoVal, cell);
      assert scene + lines == lines;
      scene := scene + lines;
      assert Volume(currUseSmoothedVol) == g;
      assert Scene(g, currZ, currIsoVal) == ScanCells(CellLineFn(g, currZ, currIsoVal), g.dimX - 1, g.dimY - 1);
    }

    /** Redraws only when the iso-value, the slice or the smoothing flag
        differs from the cached one, and then caches the new values.  Redrawing
        needs the chosen volume to hold the whole grid and the slice to exist. */
    method Update(isoVal: real, volZ: nat, useSmoothedVol: bool)
      requires Differs(isoVal, volZ, useSmoothedVol) ==> WellFormed(Volume(useSmoothedVol)) && volZ < dimZ
      modifies this
      ensures volDat == old(volDat) && volDatSmoothed == old(volDatSmoothed) && GetDimension() == old(GetDimension())
      ensures currUseSmoothedVol == useSmoothedVol && currIsoVal == isoVal && currZ == volZ
      ensures old(Differs(isoVal, volZ, useSmoothedVol)) ==> scene == Scene(Volume(useSmoothedVol), volZ, isoVal)
      ensures !old(Differs(isoVal, volZ, useSmoothedVol)) ==> scene == old(scene)
    {
      if currUseSmoothedVol != useSmoothedVol || currIsoVal != isoVal || currZ != volZ {
        currUseSmoothedVol := useSmoothedVol;
        currIsoVal := isoVal;
        currZ := volZ;
        MarchingSquare();
      }
    }
  }
}
