// The transfer-function editor widget: 256 sparse key points (a point whose
// alpha is negative is empty), the dense 256-entry table interpolated from
// them, and the dirty range that says which part of the dense table is stale.
// The Qt scene items that display the points are not modelled; the handler
// that moves a point is a method of the widget taking the dragged position.
module TfWidget {
  import opened Numerics
  import TfOsgIO

  type Scalar = TfOsgIO.Scalar

  /** AX_HEIGHT: the height of the alpha axis in scene units. */
  const AX_HEIGHT: real := 255.0 / 3.0

  /** The colour that marks an empty point. */
  const NULL_RGBA: Rgba := Rgba(-1.0, -1.0, -1.0, -1.0)

  /** A point holds a key unless its alpha is negative. */
  predicate IsKey(c: Rgba) { c.a >= 0.0 }

  /** A key table whose two ends are keys, as the dense update needs. */
  predicate Ends(p: seq<Rgba>)
  {
    |p| == 256 && IsKey(p[0]) && IsKey(p[255])
  }

  /** A dirty range: clean (-1, -1), or an interval of scalars. */
  predicate DirtyRange(lo: int, hi: int)
  {
    (lo == -1 && hi == -1) || (0 <= lo <= hi <= 255)
  }

  /** The dirty range after a change at scalar s. */
  function Widen(lo: int, hi: int, s: Scalar): (r: (int, int))
    ensures lo == -1 && hi == -1 ==> r == (s, s)
    ensures DirtyRange(lo, hi) ==> DirtyRange(r.0, r.1) && r.0 <= s <= r.1
    ensures 0 <= lo && lo <= hi ==> r.0 <= lo && hi <= r.1
    ensures DirtyRange(lo, hi) ==> (r.0 == s || r.0 == lo) && (r.1 == s || r.1 == hi)
  {
    (if lo == -1 || lo > s then s else lo, if hi == -1 || hi < s then s else hi)
  }

  /** The nearest key at or below s (0 when there is none). */
  function PrevKey(p: seq<Rgba>, s: nat): (k: nat)
    requires s < |p|
    ensures k <= s && (IsKey(p[k]) || k == 0)
    ensures forall j :: k < j <= s ==> !IsKey(p[j])
    decreases s
  {
    if s == 0 || IsKey(p[s]) then s else PrevKey(p, s - 1)
  }

  /** The nearest key at or above s (the last scalar when there is none). */
  function NextKey(p: seq<Rgba>, s: nat): (k: nat)
    requires s < |p|
    ensures s <= k < |p| && (IsKey(p[k]) || k == |p| - 1)
    ensures forall j :: s <= j < k ==> !IsKey(p[j])
    decreases |p| - s
  {
    if s == |p| - 1 || IsKey(p[s]) then s else NextKey(p, s + 1)
  }

  /** Entry s of the dense table the keys describe: the key's colour at a
      key, and otherwise the linear interpolation between the keys around s. */
  function Dense(p: seq<Rgba>, s: nat): Rgba
    requires |p| == 256 && s < 256
  {
    if IsKey(p[s]) then p[s]
    else
      var a := PrevKey(p, s);
      var b := NextKey(p, s);
      Mix(p[a], p[b], (s - a) as real / (b - a) as real)
  }

  /** No key strictly between a and b. */
  ghost predicate Adjacent(p: seq<Rgba>, a: nat, b: nat)
    requires a < b < |p|
  {
    IsKey(p[a]) && IsKey(p[b]) && forall j :: a < j < b ==> !IsKey(p[j])
  }

  /** Between two adjacent keys the dense table is the linear interpolation
      of their colours, ending at each key's own colour. */
  lemma DenseBetween(p: seq<Rgba>, a: nat, b: nat, s: nat)
    requires |p| == 256 && a < b < 256 && Adjacent(p, a, b) && a <= s <= b
    ensures Dense(p, s) == Mix(p[a], p[b], (s - a) as real / (b - a) as real)
  {
    var t := (s - a) as real / (b - a) as real;
    if s == a {
      assert t == 0.0;
    } else if s == b {
      DivAtMostOne((s - a) as real, (b - a) as real);
      DivAtLeastOne((s - a) as real, (b - a) as real);
    } else {
      KeysAround(p, a, b, s);
    }
  }

  /** Strictly between two adjacent keys, they are the keys around s. */
  lemma KeysAround(p: seq<Rgba>, a: nat, b: nat, s: nat)
    requires |p| == 256 && a < s < b < 256 && Adjacent(p, a, b)
    ensures PrevKey(p, s) == a && NextKey(p, s) == b
  {
  }

  /** The two tables agree everywhere outside [lo, hi]. */
  ghost predicate AgreeOutside(p: seq<Rgba>, q: seq<Rgba>, lo: int, hi: int)
    requires |p| == 256 && |q| == 256
  {
    forall j :: 0 <= j < 256 && !(lo <= j <= hi) ==> p[j] == q[j]
  }

  /** Below a key that two tables share, together with everything under it,
      their dense tables agree. */
  lemma {:induction false} DenseLocalBelow(p: seq<Rgba>, q: seq<Rgba>, a: nat, s: nat)
    requires |p| == 256 && |q| == 256 && s <= a < 256 && IsKey(p[a])
    requires forall j :: 0 <= j <= a ==> p[j] == q[j]
    ensures Dense(p, s) == Dense(q, s)
  {
    if !IsKey(p[s]) {
      var b := NextKey(p, s);
      var b' := NextKey(q, s);
      assert b <= a;
      assert b' == b;
      var c, c' := PrevKey(p, s), PrevKey(q, s);
      assert c' == c;
    }
  }

  /** Above a key that two tables share, together with everything over it,
      their dense tables agree. */
  lemma {:induction false} DenseLocalAbove(p: seq<Rgba>, q: seq<Rgba>, b: nat, s: nat)
    requires |p| == 256 && |q| == 256 && b <= s < 256 && IsKey(p[b])
    requires forall j :: b <= j < 256 ==> p[j] == q[j]
    ensures Dense(p, s) == Dense(q, s)
  {
    if !IsKey(p[s]) {
      var a := PrevKey(p, s);
      var a' := PrevKey(q, s);
      assert b <= a;
      assert a' == a;
      var c, c' := NextKey(p, s), NextKey(q, s);
      assert c' == c;
    }
  }

  /** The first scalar the update recomputes: the key below the dirty range. */
  function SpanStart(p: seq<Rgba>, lo: int): (a: nat)
    requires Ends(p) && 0 <= lo <= 255
    ensures a <= lo && IsKey(p[a]) && (lo > 0 ==> a < lo)
  {
    if lo > 0 then PrevKey(p, lo - 1) else 0
  }

  /** The last scalar the update recomputes: the key above the dirty range. */
  function SpanEnd(p: seq<Rgba>, hi: int): (b: nat)
    requires Ends(p) && 0 <= hi <= 255
    ensures hi <= b < 256 && IsKey(p[b]) && (hi < 255 ==> hi < b)
  {
    if hi < 255 then NextKey(p, hi + 1) else 255
  }

  /** The update's span is enough: when the keys changed only inside the dirty
      range, the dense table outside the recomputed span is what it was. */
  lemma SpanKeepsDense(p: seq<Rgba>, q: seq<Rgba>, lo: int, hi: int, s: nat)
    requires Ends(p) && |q| == 256 && 0 <= lo <= hi <= 255 && AgreeOutside(p, q, lo, hi)
    requires s < 256 && !(SpanStart(p, lo) <= s <= SpanEnd(p, hi))
    ensures Dense(p, s) == Dense(q, s)
  {
    if s < SpanStart(p, lo) {
      DenseLocalBelow(p, q, SpanStart(p, lo), s);
    } else {
      DenseLocalAbove(p, q, SpanEnd(p, hi), s);
    }
  }

  /** The key table after the listed points are written over base in order. */
  function Overlay(base: seq<Rgba>, pnts: seq<(Scalar, Rgba)>): (r: seq<Rgba>)
    requires |base| == 256
    ensures |r| == 256
    decreases |pnts|
  {
    if pnts == [] then base
    else
      var last := pnts[|pnts| - 1];
      Overlay(base, pnts[..|pnts| - 1])[last.0 := last.1]
  }

  /** A listed scalar takes the colour of its last listing; an unlisted one
      keeps the base colour. */
  lemma {:induction false} OverlayAt(base: seq<Rgba>, pnts: seq<(Scalar, Rgba)>, s: Scalar)
    requires |base| == 256
    ensures (forall i :: 0 <= i < |pnts| ==> pnts[i].0 != s) ==> Overlay(base, pnts)[s] == base[s]
    ensures forall i :: 0 <= i < |pnts| && pnts[i].0 == s && (forall j :: i < j < |pnts| ==> pnts[j].0 != s)
              ==> Overlay(base, pnts)[s] == pnts[i].1
    decreases |pnts|
  {
    if pnts != [] {
      var init := pnts[..|pnts| - 1];
      OverlayAt(base, init, s);
      assert forall i :: 0 <= i < |init| ==> init[i] == pnts[i];
    }
  }

  /** The key table after dragging the point at scalar to scene position
      (x, y), and the scalar it lands on: the position is clamped to the axes,
      the end points keep their scalar, and the height sets the alpha. */
  function Moved(p: seq<Rgba>, scalar: Scalar, x: real, y: real): (r: (seq<Rgba>, Scalar))
    requires |p| == 256
  {
    var x1 := if x < 0.0 then 0.0 else if x > 255.0 then 255.0 else x;
    var y1 := if y < 0.0 then 0.0 else if y > AX_HEIGHT then AX_HEIGHT else y;
    var x2 := if scalar == 0 then 0.0 else if scalar == 255 then 255.0 else x1;
    var curr := x2.Floor;
    var alpha := 1.0 - y1 / AX_HEIGHT;
    if curr == scalar as int then (p[scalar := p[scalar].(a := alpha)], scalar)
    else (p[curr := p[scalar].(a := alpha)][scalar := p[scalar].(a := -1.0)], curr)
  }

  /** A move changes the moved point and its landing point only: the landing
      point takes the colour with the new alpha in [0, 1], the point it left is
      empty, the end points stay where they are and stay keys. */
  lemma MovedEffects(p: seq<Rgba>, scalar: Scalar, x: real, y: real)
    requires |p| == 256
    ensures var (q, curr) := Moved(p, scalar, x, y);
      && |q| == 256
      && (scalar == 0 || scalar == 255 ==> curr == scalar)
      && 0.0 <= q[curr].a <= 1.0
      && q[curr] == p[scalar].(a := q[curr].a)
      && (curr != scalar ==> q[scalar].a == -1.0)
      && (forall j :: 0 <= j < 256 && j != scalar as int && j != curr as int ==> q[j] == p[j])
      && (Ends(p) ==> Ends(q))
  {
    var y1 := if y < 0.0 then 0.0 else if y > AX_HEIGHT then AX_HEIGHT else y;
    assert 0.0 <= y1 / AX_HEIGHT <= 1.0;
  }

  /** The move handler as written marks only the landing scalar dirty, so the
      entries around the scalar the point left are not recomputed.  With keys
      exactly at 0, a, b and 255, where a has alpha 1 and b the colour of 0
      (alpha 0), dragging the key at a to a scalar c above b + 1 leaves the
      dirty range [c, c], whose span starts at key b; an entry s below a
      keeps its old value, of alpha s / a, although the keys now give it the
      colour of 0. */
  lemma MoveAsWrittenLeavesStale(p: seq<Rgba>, a: Scalar, b: Scalar, c: Scalar, s: Scalar)
    requires 0 < s < a < b && b + 1 < c < 255 && |p| == 256
    requires forall j :: 0 <= j < 256 ==> (IsKey(p[j]) <==> j == 0 || j == a as int || j == b as int || j == 255)
    requires p[0].a == 0.0 && p[a].a == 1.0 && p[b] == p[0]
    ensures var (q, curr) := Moved(p, a, c as real, 0.0);
      && curr == c && Widen(-1, -1, curr) == (c as int, c as int)
      && Ends(q) && SpanStart(q, c as int) == b as int
      && Dense(p, s).a == s as real / a as real && Dense(q, s) == p[0]
  {
    var q := p[c := p[a].(a := 1.0)][a := p[a].(a := -1.0)];
    DragAcross(p, a, c);
    assert Adjacent(p, 0, a);
    assert Adjacent(q, 0, b);
    assert Adjacent(q, b, c);
    KeysAround(q, b, c, c - 1);
    DenseBetween(p, 0, a, s);
    DenseBetween(q, 0, b, s);
    assert q[0] == p[0] && q[b] == p[b];
  }

  /** Dragging the key at a, not an end point, to the axis position of c
      at full height moves it there with alpha 1 and empties a. */
  lemma DragAcross(p: seq<Rgba>, a: Scalar, c: Scalar)
    requires |p| == 256 && 0 < a < 255 && a != c
    ensures Moved(p, a, c as real, 0.0) == (p[c := p[a].(a := 1.0)][a := p[a].(a := -1.0)], c)
  {
    assert (c as real).Floor == c as int;
  }

  /** The widget's data: the sparse keys, the dense table and the dirty
      range.  `synced` is the key table the dense table was last computed
      from. */
  class TransferFunctionWidget {
    var dirtyLo: int
    var dirtyHi: int
    var tfDat: array<Rgba>
    var tfPntsDat: array<Rgba>
    ghost var synced: seq<Rgba>

    ghost predicate Valid()
      reads this
    {
      tfDat.Length == 256 && tfPntsDat.Length == 256 && tfDat != tfPntsDat
      && |synced| == 256 && DirtyRange(dirtyLo, dirtyHi)
    }

    /** The dense table is stale at most where the dirty range reaches:
        either everything is dirty, or the dense table is that of `synced`
        and the keys differ from `synced` only inside the dirty range. */
    ghost predicate Consistent()
      reads this, tfDat, tfPntsDat
      requires Valid()
    {
      (dirtyLo == 0 && dirtyHi == 255)
      || (&& (forall s :: 0 <= s < 256 ==> tfDat[s] == Dense(synced, s))
          && AgreeOutside(tfPntsDat[..], synced, dirtyLo, dirtyHi))
    }

    /** The constructor: the range is clean, the tables are uninitialised. */
    constructor ()
      ensures Valid() && dirtyLo == -1 && dirtyHi == -1
    {
      dirtyLo, dirtyHi := -1, -1;
      tfDat := new Rgba[256];
      tfPntsDat := new Rgba[256];
      synced := seq(256, _ => NULL_RGBA);
    }

    /** The handler of TransferFunctionChanged: the dirty range grows to
        take in the changed scalar. */
    method MarkChanged(scalar: Scalar)
      modifies this`dirtyLo, this`dirtyHi
      ensures (dirtyLo, dirtyHi) == Widen(old(dirtyLo), old(dirtyHi), scalar)
    {
      if dirtyLo == -1 {
        dirtyLo := scalar;
      } else if dirtyLo > scalar {
        dirtyLo := scalar;
      }
      if dirtyHi == -1 {
        dirtyHi := scalar;
      } else if dirtyHi < scalar {
        dirtyHi := scalar;
      }
    }

    /** Replaces every key: unlisted scalars become empty, a listed scalar
        takes its last listed colour, and the whole dense table is dirty. */
    method SetTransferFunctionPointsData(pnts: seq<(Scalar, Rgba)>)
      requires Valid()
      modifies tfPntsDat, this`dirtyLo, this`dirtyHi
      ensures Valid() && Consistent()
      ensures tfPntsDat[..] == Overlay(seq(256, _ => NULL_RGBA), pnts)
      ensures dirtyLo == 0 && dirtyHi == 255
    {
      ghost var nulls := seq(256, _ => NULL_RGBA);
      for s := 0 to 256
        invariant forall j :: 0 <= j < s ==> tfPntsDat[j] == NULL_RGBA
      {
        tfPntsDat[s] := NULL_RGBA;
      }
      assert tfPntsDat[..] == nulls;
      for i := 0 to |pnts|
        invariant tfPntsDat[..] == Overlay(nulls, pnts[..i])
      {
        assert pnts[..i + 1][..i] == pnts[..i];
        tfPntsDat[pnts[i].0] := pnts[i].1;
      }
      assert pnts[..|pnts|] == pnts;
      dirtyLo, dirtyHi := 0, 255;
    }

    /** Sets one key and marks its scalar dirty. */
    method SetTransferFunctionPointColor(scalar: Scalar, color: Rgba)
      requires Valid()
      modifies tfPntsDat, this`dirtyLo, this`dirtyHi
      ensures Valid()
      ensures tfPntsDat[..] == old(tfPntsDat[..])[scalar := color]
      ensures (dirtyLo, dirtyHi) == Widen(old(dirtyLo), old(dirtyHi), scalar)
      ensures old(Consistent()) ==> Consistent()
    {
      tfPntsDat[scalar] := color;
      MarkChanged(scalar);
    }

    function GetTransferFunctionPointColor(scalar: Scalar): Rgba
      reads this, tfPntsDat
      requires Valid()
    {
      tfPntsDat[scalar]
    }

    /** Brings the dense table up to date and returns one entry of it: with
        consistent data, the interpolation of the current keys at scalar. */
    method GetTransferFunctionColor(scalar: Scalar) returns (c: Rgba)
      requires Valid() && Consistent() && Ends(tfPntsDat[..])
      modifies tfDat, this`dirtyLo, this`dirtyHi, this`synced
      ensures Valid() && Consistent() && dirtyLo == -1
      ensures c == Dense(tfPntsDat[..], scalar)
    {
      UpdateTransferFunctionData();
      c := tfDat[scalar];
    }

    /** Recomputes the dense table from the key below the dirty range to the
        key above it, segment by segment, and leaves the range clean; with
        consistent data the whole dense table is then that of the keys. */
    method UpdateTransferFunctionData()
      requires Valid() && Ends(tfPntsDat[..])
      modifies tfDat, this`dirtyLo, this`dirtyHi, this`synced
      ensures Valid() && dirtyLo == -1 && dirtyHi == -1
      ensures old(dirtyLo) == -1 ==> tfDat[..] == old(tfDat[..])
      ensures old(dirtyLo) != -1 ==> forall s :: 0 <= s < 256 ==>
        tfDat[s] == if SpanStart(tfPntsDat[..], old(dirtyLo)) <= s <= SpanEnd(tfPntsDat[..], old(dirtyHi))
                    then Dense(tfPntsDat[..], s) else old(tfDat[s])
      ensures old(Consistent()) ==> Consistent() && forall s :: 0 <= s < 256 ==> tfDat[s] == Dense(tfPntsDat[..], s)
    {
      ghost var wasConsistent := Consistent();
      ghost var t0 := tfDat[..];
      if dirtyLo == -1 {
        if Consistent() {
          assert tfPntsDat[..] == synced;
        }
        return;
      }
      ghost var p := tfPntsDat[..];
      var lft, rhtEnd := Span(dirtyLo, dirtyHi);
      Interpolate(lft, rhtEnd);
      if wasConsistent {
        assert tfPntsDat[..] == p;
        Restored(p, synced, t0, tfDat[..], dirtyLo, dirtyHi);
      }
      dirtyLo, dirtyHi := -1, -1;
      synced := p;
    }

    /** The interpolation loop of the update: from key lft to key rhtEnd, each
        segment between adjacent keys is filled with the linear interpolation
        of its end colours. */
    method Interpolate(a0: nat, rhtEnd: nat)
      requires Valid() && a0 < rhtEnd < 256 && IsKey(tfPntsDat[a0]) && IsKey(tfPntsDat[rhtEnd])
      modifies tfDat
      ensures forall s :: 0 <= s < 256 ==>
        tfDat[s] == if a0 <= s <= rhtEnd then Dense(tfPntsDat[..], s) else old(tfDat[s])
    {
      ghost var p := tfPntsDat[..];
      ghost var t0 := tfDat[..];
      var lft := a0;
      var rht := lft + 1;
      ghost var w := lft;
      while true
        invariant a0 <= lft < rhtEnd && rht == lft + 1
        invariant IsKey(p[lft]) && lft <= w <= lft + 1
        invariant forall s :: 0 <= s < 256 ==>
          tfDat[s] == if a0 <= s < w then Dense(p, s) else t0[s]
        decreases rhtEnd - lft
      {
        while rht < rhtEnd && tfPntsDat[rht].a < 0.0
          invariant lft < rht <= rhtEnd
          invariant forall j :: lft < j < rht ==> !IsKey(p[j])
        {
          rht := rht + 1;
        }
        w := FillSegment(a0, lft, rht, t0, w);
        lft := rht;
        if lft == rhtEnd {
          break;
        }
        rht := rht + 1;
      }
    }

    /** One segment of the interpolation loop: entries lft to rht, both
        included, become the interpolation between the adjacent keys lft and
        rht; the entries from a0 up to w were already done. */
    method FillSegment(ghost a0: nat, lft: nat, rht: nat, ghost t0: seq<Rgba>, ghost w: nat)
      returns (ghost w': nat)
      requires Valid() && |t0| == 256 && a0 <= lft < rht < 256
      requires Adjacent(tfPntsDat[..], lft, rht) && lft <= w <= lft + 1
      requires forall s :: 0 <= s < 256 ==>
        tfDat[s] == if a0 <= s < w then Dense(tfPntsDat[..], s) else t0[s]
      modifies tfDat
      ensures w' == rht + 1
      ensures forall s :: 0 <= s < 256 ==>
        tfDat[s] == if a0 <= s < w' then Dense(tfPntsDat[..], s) else t0[s]
    {
      ghost var p := tfPntsDat[..];
      w' := w;
      var curr := lft;
      var div := (rht - lft) as real;
      while curr <= rht
        invariant lft <= curr <= rht + 1 && curr <= w' <= curr + 1 && w' <= rht + 1
        invariant forall s :: 0 <= s < 256 ==>
          tfDat[s] == if a0 <= s < w' then Dense(p, s) else t0[s]
      {
        DenseBetween(p, lft, rht, curr);
        tfDat[curr] := Mix(tfPntsDat[lft], tfPntsDat[rht], (curr - lft) as real / div);
        w' := curr + 1;
        curr := curr + 1;
      }
    }

    /** The recomputed span: the two key scans at either side of the dirty
        range. */
    method Span(lo: int, hi: int) returns (lft: nat, rhtEnd: nat)
      requires Valid() && Ends(tfPntsDat[..]) && 0 <= lo <= hi <= 255
      ensures lft == SpanStart(tfPntsDat[..], lo) && rhtEnd == SpanEnd(tfPntsDat[..], hi)
      ensures lft < rhtEnd
    {
      lft := if lo > 0 then lo - 1 else 0;
      while tfPntsDat[lft].a < 0.0
        invariant lft < 256 && SpanStart(tfPntsDat[..], lo) == PrevKey(tfPntsDat[..], lft)
        decreases lft
      {
        lft := lft - 1;
      }
      rhtEnd := if hi < 255 then hi + 1 else 255;
      while tfPntsDat[rhtEnd].a < 0.0
        invariant rhtEnd < 256 && SpanEnd(tfPntsDat[..], hi) == NextKey(tfPntsDat[..], rhtEnd)
        decreases 255 - rhtEnd
      {
        rhtEnd := rhtEnd + 1;
      }
    }

    /** The move handler as written: the key table changes as `Moved` says,
        but only the landing scalar is marked dirty. */
    method MovePointAsWritten(scalar: Scalar, x: real, y: real) returns (curr: Scalar)
      requires Valid()
      modifies tfPntsDat, this`dirtyLo, this`dirtyHi
      ensures Valid()
      ensures (tfPntsDat[..], curr) == Moved(old(tfPntsDat[..]), scalar, x, y)
      ensures (dirtyLo, dirtyHi) == Widen(old(dirtyLo), old(dirtyHi), curr)
    {
      curr := MovePointData(scalar, x, y);
      MarkChanged(curr);
    }

    /** The move handler with the scalar it left marked dirty as well, which
        keeps the dense table consistent with the keys. */
    method MovePoint(scalar: Scalar, x: real, y: real) returns (curr: Scalar)
      requires Valid()
      modifies tfPntsDat, this`dirtyLo, this`dirtyHi
      ensures Valid()
      ensures (tfPntsDat[..], curr) == Moved(old(tfPntsDat[..]), scalar, x, y)
      ensures var r := Widen(old(dirtyLo), old(dirtyHi), scalar);
        (dirtyLo, dirtyHi) == Widen(r.0, r.1, curr)
      ensures old(Consistent()) ==> Consistent()
    {
      ghost var before := tfPntsDat[..];
      MovedEffects(before, scalar, x, y);
      curr := MovePointData(scalar, x, y);
      MarkChanged(scalar);
      MarkChanged(curr);
      if old(Consistent()) && !(dirtyLo == 0 && dirtyHi == 255) {
        forall j | 0 <= j < 256 && !(dirtyLo <= j <= dirtyHi)
          ensures tfPntsDat[j] == synced[j]
        {
          assert j != scalar as int && j != curr as int;
          assert tfPntsDat[j] == before[j];
        }
      }
    }

    /** The key update of the move handler: clamp the position, keep the end
        points' scalar, then move or re-height the point. */
    method MovePointData(scalar: Scalar, x: real, y: real) returns (curr: Scalar)
      requires Valid()
      modifies tfPntsDat
      ensures (tfPntsDat[..], curr) == Moved(old(tfPntsDat[..]), scalar, x, y)
    {
      var px, py := x, y;
      if px < 0.0 { px := 0.0; }
      if px > 255.0 { px := 255.0; }
      if py < 0.0 { py := 0.0; }
      if py > AX_HEIGHT { py := AX_HEIGHT; }
      if scalar == 0 {
        px := 0.0;
      } else if scalar == 255 {
        px := 255.0;
      }
      curr := px.Floor;
      ghost var p := tfPntsDat[..];
      var alpha := 1.0 - py / AX_HEIGHT;
      if curr == scalar {
        tfPntsDat[scalar] := tfPntsDat[scalar].(a := alpha);
        assert tfPntsDat[..] == p[scalar := p[scalar].(a := alpha)];
      } else {
        tfPntsDat[curr] := tfPntsDat[scalar];
        tfPntsDat[scalar] := tfPntsDat[scalar].(a := -1.0);
        tfPntsDat[curr] := tfPntsDat[curr].(a := alpha);
        assert tfPntsDat[..] == p[curr := p[scalar].(a := alpha)][scalar := p[scalar].(a := -1.0)];
      }
    }
  }

  /** The update restores consistency: a table that was the dense table of
      q, where q differs from the keys p only inside the dirty range (or
      where the whole range is dirty), is p's dense table once the span the
      update computes is recomputed. */
  lemma Restored(p: seq<Rgba>, q: seq<Rgba>, t0: seq<Rgba>, t: seq<Rgba>, lo: int, hi: int)
    requires Ends(p) && |q| == 256 && |t0| == 256 && |t| == 256 && 0 <= lo <= hi <= 255
    requires (lo == 0 && hi == 255)
      || ((forall s :: 0 <= s < 256 ==> t0[s] == Dense(q, s)) && AgreeOutside(p, q, lo, hi))
    requires forall s :: 0 <= s < 256 ==>
      t[s] == if SpanStart(p, lo) <= s <= SpanEnd(p, hi) then Dense(p, s) else t0[s]
    ensures forall s :: 0 <= s < 256 ==> t[s] == Dense(p, s)
  {
    forall s | 0 <= s < 256 && !(SpanStart(p, lo) <= s <= SpanEnd(p, hi))
      ensures t[s] == Dense(p, s)
    {
      SpanKeepsDense(p, q, lo, hi, s);
    }
  }
}
