// The geometry of force-directed edge bundling (Holten and van Wijk):
// two-dimensional vectors, graph nodes and edges, subdivision of an edge
// into a polyline, the per-point forces, the point update, Gaussian
// smoothing and the four pairwise edge compatibility measures.
//
// An edge is a value (the layout keeps a std::vector<Edge> of them), so the
// operations that change an edge in place take an edge and return the
// changed one; the caller's force buffer likewise goes in and comes out.
module GraphIO {
  import opened Numerics

  /** A point or displacement in the plane. */
  datatype Vec2D = Vec2D(x: real, y: real)
  {
    function Plus(o: Vec2D): Vec2D { Vec2D(x + o.x, y + o.y) }
    function Minus(o: Vec2D): Vec2D { Vec2D(x - o.x, y - o.y) }
    /** The scalar product (operator* of two vectors). */
    function Dot(o: Vec2D): real { Mul(x, o.x) + Mul(y, o.y) }
    function Times(k: real): Vec2D { Vec2D(Mul(x, k), Mul(y, k)) }
    /** Division by a scalar; the callers never divide by zero. */
    function Over(k: real): Vec2D requires k != 0.0 { Vec2D(x / k, y / k) }
  }

  const Zero: Vec2D := Vec2D(0.0, 0.0)

  function Abs(a: real): real { if a < 0.0 then -a else a }

  /** x * x + y * y, the squared length. */
  function Norm2(v: Vec2D): real
  {
    Sq(v.x) + Sq(v.y)
  }

  lemma Norm2Sign(v: Vec2D)
    ensures 0.0 <= Norm2(v)
    ensures v != Zero ==> 0.0 < Norm2(v)
  {
    SquareSign(v.x);
    SquareSign(v.y);
  }

  /** Vec2D::length: the Euclidean norm sqrt(x * x + y * y).  It is zero
      exactly for the zero vector. */
  function Length(m: Libm, v: Vec2D): (l: real)
    ensures Lawful(m) ==> 0.0 <= l
    ensures Lawful(m) ==> (l == 0.0 <==> v == Zero)
  {
    Norm2Sign(v);
    m.sqrt(Norm2(v))
  }

  /** The length squares back to x * x + y * y. */
  lemma LengthSquared(m: Libm, v: Vec2D)
    requires Lawful(m)
    ensures Sq(Length(m, v)) == Norm2(v)
  {
    Norm2Sign(v);
    assert SquaresBack(m, Norm2(v));
  }

  /** a - b is the zero vector exactly when a and b are the same point. */
  lemma MinusZero(a: Vec2D, b: Vec2D)
    ensures a.Minus(b) == Zero <==> a == b
  {
    if a.Minus(b) == Zero {
      assert a.x == b.x && a.y == b.y;
    }
  }

  /** The distance from a to b is the distance from b to a. */
  lemma LengthSymmetric(m: Libm, a: Vec2D, b: Vec2D)
    ensures Length(m, a.Minus(b)) == Length(m, b.Minus(a))
  {
    SquareOfNegation(a.x - b.x);
    SquareOfNegation(a.y - b.y);
    assert b.Minus(a) == Vec2D(-(a.x - b.x), -(a.y - b.y));
  }

  /** Vec2D::normalize, which sets the length to 1 along atan2(y, x), i.e.
      divides by the length.  For the zero vector atan2(0, 0) is 0, so the
      result is the unit x vector. */
  function Normalize(m: Libm, v: Vec2D): (u: Vec2D)
    ensures Lawful(m) ==> Norm2(u) == 1.0
    ensures v == Zero ==> u == Vec2D(1.0, 0.0)
  {
    var l := Length(m, v);
    if v == Zero || l == 0.0 then Vec2D(1.0, 0.0)
    else
      UnitLength(m, v);
      v.Over(l)
  }

  /** A normalised non-zero vector points along the original: scaled by the
      original's length it gives the original back. */
  lemma NormalizeDirection(m: Libm, v: Vec2D)
    requires Lawful(m) && v != Zero
    ensures Normalize(m, v).Times(Length(m, v)) == v
  {
    UnitLength(m, v);
  }

  /** A non-zero vector divided by its length is a unit vector along it. */
  lemma UnitLength(m: Libm, v: Vec2D)
    requires v != Zero && Length(m, v) != 0.0
    ensures Lawful(m) ==> Norm2(v.Over(Length(m, v))) == 1.0
    ensures v.Over(Length(m, v)).Times(Length(m, v)) == v
  {
    var l := Length(m, v);
    assert (v.x / l) * l == v.x && (v.y / l) * l == v.y;
    if Lawful(m) {
      LengthSquared(m, v);
      UnitScalar(v.x, v.y, l);
    }
  }

  /** The Cauchy-Schwarz inequality for unit vectors, over coordinates. */
  lemma UnitDotScalar(a: real, b: real, c: real, d: real)
    requires Sq(a) + Sq(b) == 1.0 && Sq(c) + Sq(d) == 1.0
    ensures -1.0 <= Mul(a, c) + Mul(b, d) <= 1.0
  {
    SquareSign(a - c);
    SquareSign(b - d);
    SquareSign(a + c);
    SquareSign(b + d);
    SquareOfSum(a, c);
    SquareOfSum(b, d);
  }

  /** The scalar product of two unit vectors lies in [-1, 1]. */
  lemma UnitDotBounded(u: Vec2D, w: Vec2D)
    requires Norm2(u) == 1.0 && Norm2(w) == 1.0
    ensures Abs(u.Dot(w)) <= 1.0
  {
    UnitDotScalar(u.x, u.y, w.x, w.y);
  }

  /** A node of the graph: only its position and degree take part in bundling. */
  datatype Node = Node(pos: Vec2D, degree: int)

  /** A node as operator[] of std::map creates it: at the origin, degree 0. */
  const DefaultNode: Node := Node(Zero, 0)

  /** gauss_weight: the normal density with deviation sigma at distance d,
      INV_SQRT_2PI * exp(-0.5 * (d / sigma)^2) / sigma; pow(q, 2.0) is q * q. */
  function GaussWeight(m: Libm, d: int, sigma: real): (w: real)
    requires sigma != 0.0
    ensures Lawful(m) && 0.0 < sigma ==> 0.0 < w
    ensures Lawful(m) && sigma < 0.0 ==> w < 0.0
  {
    var e := m.exp(-0.5 * Sq(d as real / sigma));
    assert Lawful(m) ==> 0.0 < INV_SQRT_2PI * e;
    INV_SQRT_2PI * e / sigma
  }

  /** The Gaussian weight depends only on the distance, not on its sign. */
  lemma GaussWeightEven(m: Libm, d: int, sigma: real)
    requires sigma != 0.0
    ensures GaussWeight(m, -d, sigma) == GaussWeight(m, d, sigma)
  {
    assert (-d) as real / sigma == -(d as real / sigma);
    SquareOfNegation(d as real / sigma);
  }

  /** An edge of the graph: its endpoints, the interior subdivision points, its
      width and the indices of the edges it is compatible with. */
  datatype Edge = Edge(sourceLabel: string, targetLabel: string,
                       start: Vec2D, end: Vec2D, subdivs: seq<Vec2D>,
                       width: real, compatibleEdges: seq<int>)
  {
    /** Edge::vector: from the start to the end. */
    function Vector(): Vec2D { end.Minus(start) }
  }

  /** The same edge traversed the other way, labels included. */
  function Reverse(e: Edge): Edge
  {
    e.(start := e.end, end := e.start, sourceLabel := e.targetLabel, targetLabel := e.sourceLabel)
  }

  /** Edge::ArrangeDirection: an edge that is more horizontal than vertical
      points rightward, one that is more vertical than horizontal points upward;
      the labels travel with their endpoints. */
  function ArrangeDirection(e: Edge): (r: Edge)
    ensures r == e || r == Reverse(e)
    ensures Abs(e.Vector().x) > Abs(e.Vector().y) ==> r.start.x <= r.end.x
    ensures Abs(e.Vector().y) > Abs(e.Vector().x) ==> r.start.y <= r.end.y
  {
    var v := e.Vector();
    if (Abs(v.x) > Abs(v.y) && e.end.x < e.start.x) || (Abs(v.x) < Abs(v.y) && e.end.y < e.start.y)
    then Reverse(e)
    else e
  }

  /** Arranging an edge twice is arranging it once. */
  lemma ArrangeDirectionIdempotent(e: Edge)
    ensures ArrangeDirection(ArrangeDirection(e)) == ArrangeDirection(e)
  {
  }

  /** An edge and its reverse are arranged into the same edge exactly when the
      direction is decidable (|dx| != |dy|) or reversing changes nothing. */
  lemma {:induction false} ArrangeDirectionCanonical(e: Edge)
    ensures ArrangeDirection(e) == ArrangeDirection(Reverse(e))
        <==> (Abs(e.Vector().x) != Abs(e.Vector().y) || e == Reverse(e))
  {
    var v := e.Vector();
    var rv := Reverse(e).Vector();
    assert rv == Vec2D(-v.x, -v.y);
    if Abs(v.x) == Abs(v.y) {
      assert ArrangeDirection(e) == e;
      assert ArrangeDirection(Reverse(e)) == Reverse(e);
    } else if Abs(v.x) > Abs(v.y) {
      assert e.end.x != e.start.x;
      assert Reverse(Reverse(e)) == e;
    } else {
      assert e.end.y != e.start.y;
      assert Reverse(Reverse(e)) == e;
    }
  }

  /** Edge::center: the midpoint. */
  function Center(p1: Vec2D, p2: Vec2D): (c: Vec2D)
    ensures c.Minus(p1) == p2.Minus(c)
  {
    p1.Plus(p2).Over(2.0)
  }

  /** v1 + (v2 - v1) * r. */
  function Lerp(v1: Vec2D, v2: Vec2D, r: real): Vec2D
  {
    v1.Plus(v2.Minus(v1).Times(r))
  }

  /** The polyline of an edge: start, the subdivision points, end. */
  function Polyline(e: Edge): (p: seq<Vec2D>)
    ensures |p| == |e.subdivs| + 2 && p[0] == e.start && p[|p| - 1] == e.end
    ensures forall i :: 0 <= i < |e.subdivs| ==> p[i + 1] == e.subdivs[i]
  {
    [e.start] + e.subdivs + [e.end]
  }

  // ---------------------------------------------------------------------
  // Subdivision

  /** The parameter step of the doubled subdivision, in units of old segments:
      2n + 1 new steps cover the n + 1 old segments. */
  function SegLen(n: nat): (s: real)
    requires 0 < n
    ensures 0.0 < s < 1.0
  {
    (n + 1) as real / (2 * n + 1) as real
  }

  /** Where, in units of old polyline segments, the k-th of the 2n new points lies. */
  function SplitParam(n: nat, k: int): real
    requires 0 < n
  {
    (k + 1) as real * SegLen(n)
  }

  /** The old segment j with j < t <= j + 1. */
  function SegmentOf(t: real): int
  {
    if t.Floor as real == t then t.Floor - 1 else t.Floor
  }

  lemma SegmentOfBounds(t: real, j: int)
    requires j as real < t <= j as real + 1.0
    ensures SegmentOf(t) == j
  {
  }

  /** Every new point lies strictly inside the old parameter range (0, n + 1),
      and consecutive points are one step apart. */
  lemma {:induction false} SplitParamBounds(n: nat, k: int)
    requires 0 < n && 0 <= k < 2 * n
    ensures 0.0 < SplitParam(n, k) < (n + 1) as real
    ensures SplitParam(n, k + 1) == SplitParam(n, k) + SegLen(n)
    ensures k + 1 < 2 * n ==> SplitParam(n, k + 1) < (n + 1) as real
    ensures 0 <= SegmentOf(SplitParam(n, k)) <= n
  {
    var seg := SegLen(n);
    var last := (2 * n) as real * seg;
    assert last == (2 * n) as real * (n + 1) as real / (2 * n + 1) as real;
    assert (2 * n) as real * (n + 1) as real < (2 * n + 1) as real * (n + 1) as real;
    assert last < (n + 1) as real;
    MulMonotone((k + 1) as real, (2 * n) as real, seg);
    if k + 1 < 2 * n {
      MulMonotone((k + 2) as real, (2 * n) as real, seg);
    }
    assert (k + 2) as real * seg == (k + 1) as real * seg + seg;
    assert 0.0 < (k + 1) as real * seg;
  }

  /** The k-th point of the doubled subdivision, on old segment j at offset t - j. */
  function DoubledPoint(e: Edge, k: int): Vec2D
    requires 0 <= k < 2 * |e.subdivs|
  {
    var n := |e.subdivs|;
    SplitParamBounds(n, k);
    var t := SplitParam(n, k);
    var j := SegmentOf(t);
    Lerp(Polyline(e)[j], Polyline(e)[j + 1], t - j as real)
  }

  /** The 2n points that Edge::AddSubdivisions places along an n-point polyline. */
  function Doubled(e: Edge): (s: seq<Vec2D>)
    ensures |s| == 2 * |e.subdivs|
  {
    seq(2 * |e.subdivs|, k requires 0 <= k < 2 * |e.subdivs| => DoubledPoint(e, k))
  }

  /** One pass of the subdivision loop: the point written at offset r on old
      segment j is the k-th doubled point, and the walk never runs past the
      last old segment while points remain. */
  lemma {:induction false} SubdivisionStep(e: Edge, k: int, j: int, r: real)
    requires 0 < |e.subdivs| && 0 <= k < 2 * |e.subdivs| && 0 <= j <= |e.subdivs|
    requires r == SplitParam(|e.subdivs|, k) - j as real && 0.0 < r <= 1.0
    ensures DoubledPoint(e, k) == Lerp(Polyline(e)[j], Polyline(e)[j + 1], r)
    ensures SplitParam(|e.subdivs|, k + 1) == r + SegLen(|e.subdivs|) + j as real
    ensures k + 1 < 2 * |e.subdivs| && r + SegLen(|e.subdivs|) > 1.0 ==> j + 1 <= |e.subdivs|
  {
    var n := |e.subdivs|;
    SplitParamBounds(n, k);
    SegmentOfBounds(SplitParam(n, k), j);
    DoubledPointOn(e, k, j);
    AdvanceParam(n, k, j, r);
  }

  /** The k-th new point, once its old segment j is known. */
  lemma DoubledPointOn(e: Edge, k: int, j: int)
    requires 0 <= k < 2 * |e.subdivs| && 0 <= j <= |e.subdivs|
    requires SegmentOf(SplitParam(|e.subdivs|, k)) == j
    ensures DoubledPoint(e, k) == Lerp(Polyline(e)[j], Polyline(e)[j + 1], SplitParam(|e.subdivs|, k) - j as real)
  {
  }

  /** The parameter of the next point, and the segment it can move on to. */
  lemma {:induction false} AdvanceParam(n: nat, k: int, j: int, r: real)
    requires 0 < n && 0 <= k < 2 * n && 0 <= j <= n
    requires r == SplitParam(n, k) - j as real && 0.0 < r <= 1.0
    ensures SplitParam(n, k + 1) == r + SegLen(n) + j as real
    ensures k + 1 < 2 * n && r + SegLen(n) > 1.0 ==> j + 1 <= n
  {
    SplitParamBounds(n, k);
  }

  /** Edge::AddSubdivisions: a fresh edge gets its midpoint; otherwise the
      polyline is resampled at twice as many equally spaced parameters. */
  method AddSubdivisions(e: Edge) returns (r: Edge)
    ensures r == e.(subdivs := r.subdivs)
    ensures |e.subdivs| == 0 ==> r.subdivs == [Center(e.start, e.end)]
    ensures |e.subdivs| > 0 ==> r.subdivs == Doubled(e)
  {
    var n := |e.subdivs|;
    if n == 0 {
      return e.(subdivs := [Center(e.start, e.end)]);
    }
    var newNum := 2 * n;
    var subdivIndex, v1Index, v2Index := 0, -1, 0;
    var segmentLength := (n + 1) as real / (newNum + 1) as real;
    assert segmentLength == SegLen(n);
    var subdivisions := new Vec2D[newNum](_ => Zero);
    var v1, v2 := e.start, e.subdivs[0];
    var r' := segmentLength;
    ghost var P := Polyline(e);
    while subdivIndex < newNum
      invariant 0 <= subdivIndex <= newNum
      invariant v1Index == v2Index - 1 && 0 <= v2Index <= n
      invariant v1 == P[v2Index] && v2 == P[v2Index + 1]
      invariant subdivIndex < newNum ==> r' == SplitParam(n, subdivIndex) - v2Index as real
      invariant subdivIndex < newNum ==> 0.0 < r' <= 1.0
      invariant forall k :: 0 <= k < subdivIndex ==> subdivisions[k] == DoubledPoint(e, k)
    {
      SubdivisionStep(e, subdivIndex, v2Index, r');
      subdivisions[subdivIndex] := v1.Plus(v2.Minus(v1).Times(r'));
      subdivIndex := subdivIndex + 1;
      if r' + segmentLength > 1.0 {
        r' := segmentLength - (1.0 - r');
        v1Index := v1Index + 1;
        v2Index := v2Index + 1;
        if v1Index >= n || v2Index > n {
          assert subdivIndex == newNum;
          break;
        }
        if v1Index >= 0 {
          v1 := e.subdivs[v1Index];
        }
        if v2Index < n {
          v2 := e.subdivs[v2Index];
        } else {
          v2 := e.end;
        }
      } else {
        r' := r' + segmentLength;
      }
    }
    assert subdivIndex == newNum;
    forall k | 0 <= k < newNum
      ensures subdivisions[..][k] == Doubled(e)[k]
    {
    }
    assert subdivisions[..] == Doubled(e);
    r := e.(subdivs := subdivisions[..]);
  }

  // ---------------------------------------------------------------------
  // Point update

  /** One subdivision point after Edge::Update: moved by S along its force
      when the force is longer than EPSILON, left in place otherwise. */
  function UpdatePoint(m: Libm, p: Vec2D, f: Vec2D, s: real): Vec2D
  {
    var flen := Length(m, f);
    if flen > EPSILON then p.Plus(f.Times(s).Over(flen)) else p
  }

  /** A moved point travels exactly |S|, whatever the magnitude of its force. */
  lemma {:induction false} UpdateStepLength(m: Libm, p: Vec2D, f: Vec2D, s: real)
    requires Lawful(m) && Length(m, f) > EPSILON
    ensures Length(m, UpdatePoint(m, p, f, s).Minus(p)) == Abs(s)
  {
    var l := Length(m, f);
    var d := f.Times(s).Over(l);
    assert UpdatePoint(m, p, f, s).Minus(p) == d;
    LengthSquared(m, f);
    ScaledUnitScalar(f.x, f.y, l, s);
    assert Norm2(d) == Sq(s);
    SquareSign(s);
    assert SquaresBack(m, Norm2(d));
    SquareOfNegation(s);
    assert Sq(Abs(s)) == Sq(s);
    SquareRootUnique(Length(m, d), Abs(s));
  }

  /** The edge after Edge::Update: point i is updated with force i. */
  function UpdatedEdge(m: Libm, e: Edge, forces: seq<Vec2D>, s: real): (r: Edge)
    requires |e.subdivs| <= |forces|
    ensures r == e.(subdivs := r.subdivs) && |r.subdivs| == |e.subdivs|
  {
    e.(subdivs := seq(|e.subdivs|, i requires 0 <= i < |e.subdivs| => UpdatePoint(m, e.subdivs[i], forces[i], s)))
  }

  /** Edge::Update: every point i of the edge is updated with force i; the
      force buffer may be longer than the edge. */
  method Update(m: Libm, e: Edge, forces: seq<Vec2D>, s: real) returns (r: Edge)
    requires |e.subdivs| <= |forces|
    ensures r == UpdatedEdge(m, e, forces, s)
  {
    var len := |e.subdivs|;
    var subdivs := e.subdivs;
    var flen := 0.0;
    for i := 0 to len
      invariant |subdivs| == len
      invariant forall k :: 0 <= k < i ==> subdivs[k] == UpdatePoint(m, e.subdivs[k], forces[k], s)
      invariant forall k :: i <= k < len ==> subdivs[k] == e.subdivs[k]
    {
      flen := Length(m, forces[i]);
      if flen > EPSILON {
        subdivs := subdivs[i := subdivs[i].Plus(forces[i].Times(s).Over(flen))];
      }
    }
    r := e.(subdivs := subdivs);
  }

  // ---------------------------------------------------------------------
  // Gaussian smoothing

  /** The weighted sum that Edge::Smooth accumulates for point i: the start
      point weighted by gauss_weight(i + 1), then the first j subdivision
      points, point k weighted by gauss_weight(i - k). */
  function SmoothSum(m: Libm, e: Edge, sigma: real, i: int, j: nat): Vec2D
    requires sigma != 0.0 && j <= |e.subdivs|
  {
    if j == 0 then Zero.Plus(e.start.Times(GaussWeight(m, i + 1, sigma)))
    else SmoothSum(m, e, sigma, i, j - 1).Plus(e.subdivs[j - 1].Times(GaussWeight(m, i - (j - 1), sigma)))
  }

  /** The sum of the weights used by SmoothSum. */
  function SmoothTotal(m: Libm, e: Edge, sigma: real, i: int, j: nat): real
    requires sigma != 0.0 && j <= |e.subdivs|
  {
    if j == 0 then 0.0 + GaussWeight(m, i + 1, sigma)
    else SmoothTotal(m, e, sigma, i, j - 1) + GaussWeight(m, i - (j - 1), sigma)
  }

  /** The weight of the end point in the smoothing of point i. */
  function EndWeight(m: Libm, e: Edge, sigma: real, i: int): real
    requires sigma != 0.0
  {
    GaussWeight(m, |e.subdivs| - i + 1, sigma)
  }

  /** Every partial total has the sign of sigma, so the final division is defined. */
  lemma {:induction false} SmoothTotalSign(m: Libm, e: Edge, sigma: real, i: int, j: nat)
    requires Lawful(m) && sigma != 0.0 && j <= |e.subdivs|
    ensures 0.0 < sigma ==> 0.0 < SmoothTotal(m, e, sigma, i, j)
    ensures sigma < 0.0 ==> SmoothTotal(m, e, sigma, i, j) < 0.0
  {
    if j > 0 {
      SmoothTotalSign(m, e, sigma, i, j - 1);
    }
  }

  /** The total weight of point i, end point included; it has the sign of sigma. */
  function FullTotal(m: Libm, e: Edge, sigma: real, i: int): (t: real)
    requires Lawful(m) && sigma != 0.0
    ensures 0.0 < sigma ==> 0.0 < t
    ensures sigma < 0.0 ==> t < 0.0
  {
    SmoothTotalSign(m, e, sigma, i, |e.subdivs|);
    SmoothTotal(m, e, sigma, i, |e.subdivs|) + EndWeight(m, e, sigma, i)
  }

  /** Point i after Edge::Smooth: the Gaussian-weighted mean of the polyline. */
  function SmoothedPoint(m: Libm, e: Edge, sigma: real, i: int): Vec2D
    requires Lawful(m) && sigma != 0.0
  {
    SmoothSum(m, e, sigma, i, |e.subdivs|)
      .Plus(e.end.Times(EndWeight(m, e, sigma, i)))
      .Over(FullTotal(m, e, sigma, i))
  }

  /** An edge all of whose points coincide at p. */
  predicate Collapsed(e: Edge, p: Vec2D)
  {
    e.start == p && e.end == p && forall k :: 0 <= k < |e.subdivs| ==> e.subdivs[k] == p
  }

  /** On a collapsed edge the weighted sum is p times the total weight. */
  lemma {:induction false} SmoothSumCollapsed(m: Libm, e: Edge, p: Vec2D, sigma: real, i: int, j: nat)
    requires sigma != 0.0 && j <= |e.subdivs| && Collapsed(e, p)
    ensures SmoothSum(m, e, sigma, i, j) == p.Times(SmoothTotal(m, e, sigma, i, j))
  {
    if j > 0 {
      SmoothSumCollapsed(m, e, p, sigma, i, j - 1);
      var t := SmoothTotal(m, e, sigma, i, j - 1);
      var w := GaussWeight(m, i - (j - 1), sigma);
      MulCommutes(p.x, t + w);
      MulCommutes(p.y, t + w);
      MulDistributes(t, w, p.x);
      MulDistributes(t, w, p.y);
      MulCommutes(p.x, t);
      MulCommutes(p.y, t);
      MulCommutes(p.x, w);
      MulCommutes(p.y, w);
    }
  }

  /** (a * t + a * w) / (t + w) == a. */
  lemma MeanOfCopiesScalar(a: real, t: real, w: real)
    requires t + w != 0.0
    ensures (Mul(a, t) + Mul(a, w)) / (t + w) == a
  {
    assert a * t + a * w == a * (t + w);
  }

  /** A weighted mean of copies of one point is that point: smoothing leaves a
      collapsed edge where it is. */
  lemma {:induction false} SmoothCollapsedFixed(m: Libm, e: Edge, p: Vec2D, sigma: real, i: int)
    requires Lawful(m) && sigma != 0.0 && Collapsed(e, p)
    ensures SmoothedPoint(m, e, sigma, i) == p
  {
    var t := SmoothTotal(m, e, sigma, i, |e.subdivs|);
    var w := EndWeight(m, e, sigma, i);
    SmoothSumCollapsed(m, e, p, sigma, i, |e.subdivs|);
    assert FullTotal(m, e, sigma, i) == t + w;
    MeanOfCopiesScalar(p.x, t, w);
    MeanOfCopiesScalar(p.y, t, w);
  }

  /** The edge after Edge::Smooth: every subdivision point replaced by its
      smoothed value, computed from the old points; the endpoints stay. */
  function SmoothedEdge(m: Libm, e: Edge, sigma: real): Edge
    requires Lawful(m) && sigma != 0.0
  {
    e.(subdivs := seq(|e.subdivs|, i => SmoothedPoint(m, e, sigma, i)))
  }

  /** Edge::Smooth. */
  method Smooth(m: Libm, e: Edge, sigma: real) returns (r: Edge)
    requires Lawful(m) && sigma != 0.0
    ensures r == SmoothedEdge(m, e, sigma)
  {
    var len := |e.subdivs|;
    var subdivisions := seq(len, _ => Zero);
    var weight, totalWeight;
    for i := 0 to len
      invariant |subdivisions| == len
      invariant forall k :: 0 <= k < i ==> subdivisions[k] == SmoothedPoint(m, e, sigma, k)
      invariant forall k :: i <= k < len ==> subdivisions[k] == Zero
    {
      totalWeight := 0.0;
      weight := GaussWeight(m, i + 1, sigma);
      subdivisions := subdivisions[i := subdivisions[i].Plus(e.start.Times(weight))];
      totalWeight := totalWeight + weight;
      for j := 0 to len
        invariant |subdivisions| == len
        invariant subdivisions[i] == SmoothSum(m, e, sigma, i, j)
        invariant totalWeight == SmoothTotal(m, e, sigma, i, j)
        invariant forall k :: 0 <= k < i ==> subdivisions[k] == SmoothedPoint(m, e, sigma, k)
        invariant forall k :: i < k < len ==> subdivisions[k] == Zero
      {
        weight := GaussWeight(m, i - j, sigma);
        subdivisions := subdivisions[i := subdivisions[i].Plus(e.subdivs[j].Times(weight))];
        totalWeight := totalWeight + weight;
      }
      weight := GaussWeight(m, len - i + 1, sigma);
      subdivisions := subdivisions[i := subdivisions[i].Plus(e.end.Times(weight))];
      totalWeight := totalWeight + weight;
      assert totalWeight == FullTotal(m, e, sigma, i);
      subdivisions := subdivisions[i := subdivisions[i].Over(totalWeight)];
    }
    r := e.(subdivs := subdivisions);
  }

  // ---------------------------------------------------------------------
  // Forces

  /** The spring constant of an edge with len subdivision points:
      K / (|end - start| * (len + 1)). */
  function SpringConstant(m: Libm, e: Edge, k: real): real
    requires Length(m, e.Vector()) != 0.0
  {
    k / (Length(m, e.Vector()) * (|e.subdivs| + 1) as real)
  }

  /** The spring force on subdivision point i: its two polyline neighbours
      minus twice itself, times the spring constant. */
  function SpringForce(m: Libm, e: Edge, k: real, i: int): Vec2D
    requires Length(m, e.Vector()) != 0.0 && 0 <= i < |e.subdivs|
  {
    var p := Polyline(e);
    p[i].Plus(p[i + 2]).Minus(p[i + 1].Times(2.0)).Times(SpringConstant(m, e, k))
  }

  /** A point halfway between its neighbours feels no spring force: the springs
      hold an evenly spaced polyline in equilibrium. */
  lemma SpringForceBalanced(m: Libm, e: Edge, k: real, i: int)
    requires Length(m, e.Vector()) != 0.0 && 0 <= i < |e.subdivs|
    requires Polyline(e)[i + 1].Minus(Polyline(e)[i]) == Polyline(e)[i + 2].Minus(Polyline(e)[i + 1])
    ensures SpringForce(m, e, k, i) == Zero
  {
  }

  /** The force buffer after Edge::AddSpringForces: the spring force of point
      i added to entry i for every point of the edge, later entries unchanged. */
  function SpringApplied(m: Libm, e: Edge, forces: seq<Vec2D>, k: real): (r: seq<Vec2D>)
    requires |e.subdivs| <= |forces| && Length(m, e.Vector()) != 0.0
    ensures |r| == |forces|
  {
    seq(|forces|, i requires 0 <= i < |forces| =>
      if i < |e.subdivs| then forces[i].Plus(SpringForce(m, e, k, i)) else forces[i])
  }

  /** Edge::AddSpringForces.  The code indexes point 0 and its right
      neighbour, so the edge has at least one point, and the buffer is at
      least as long as the edge. */
  method AddSpringForces(m: Libm, e: Edge, forces: seq<Vec2D>, k: real) returns (r: seq<Vec2D>)
    requires 1 <= |e.subdivs| <= |forces|
    requires Length(m, e.Vector()) != 0.0
    ensures r == SpringApplied(m, e, forces, k)
  {
    var len := |e.subdivs|;
    var kP := k / (Length(m, e.end.Minus(e.start)) * (len + 1) as real);
    r := forces;
    if len == 1 {
      r := r[0 := r[0].Plus(e.start.Plus(e.end).Minus(e.subdivs[0].Times(2.0)).Times(kP))];
    } else {
      r := r[0 := r[0].Plus(e.start.Plus(e.subdivs[1]).Minus(e.subdivs[0].Times(2.0)).Times(kP))];
      for i := 1 to len - 1
        invariant |r| == |forces|
        invariant forall j :: 0 <= j < i ==> r[j] == forces[j].Plus(SpringForce(m, e, k, j))
        invariant forall j :: i <= j < |forces| ==> r[j] == forces[j]
      {
        r := r[i := r[i].Plus(e.subdivs[i - 1].Plus(e.subdivs[i + 1]).Minus(e.subdivs[i].Times(2.0)).Times(kP))];
      }
      r := r[len - 1 := r[len - 1].Plus(e.subdivs[len - 2].Plus(e.end).Minus(e.subdivs[len - 1].Times(2.0)).Times(kP))];
    }
  }

  /** The electrostatic pull of q on p: a unit vector from p towards q when the
      two are more than eps apart, nothing otherwise. */
  function ElectrostaticForce(m: Libm, p: Vec2D, q: Vec2D, eps: real): Vec2D
  {
    var dist := q.Minus(p);
    var dlen := Length(m, dist);
    if dlen > eps && dlen != 0.0 then dist.Over(dlen) else Zero
  }

  /** The force on p after Edge::AddElectrostaticForces: changed only when the
      points are more than eps apart. */
  function ElectrostaticStep(m: Libm, f: Vec2D, p: Vec2D, q: Vec2D, eps: real): Vec2D
  {
    var dlen := Length(m, q.Minus(p));
    if dlen > eps && dlen != 0.0 then f.Plus(ElectrostaticForce(m, p, q, eps)) else f
  }

  /** The pull has unit length when it acts and is zero otherwise. */
  lemma ElectrostaticUnit(m: Libm, p: Vec2D, q: Vec2D, eps: real)
    requires Lawful(m) && 0.0 <= eps
    ensures Length(m, q.Minus(p)) > eps ==> Norm2(ElectrostaticForce(m, p, q, eps)) == 1.0
    ensures Length(m, q.Minus(p)) <= eps ==> ElectrostaticForce(m, p, q, eps) == Zero
  {
    if Length(m, q.Minus(p)) > eps {
      UnitLength(m, q.Minus(p));
    }
  }

  /** The pull between two points is equal and opposite. */
  lemma ElectrostaticAntisymmetric(m: Libm, p: Vec2D, q: Vec2D, eps: real)
    ensures ElectrostaticForce(m, q, p, eps) == Zero.Minus(ElectrostaticForce(m, p, q, eps))
  {
    LengthSymmetric(m, q, p);
    var l := Length(m, q.Minus(p));
    if l != 0.0 {
      assert (p.x - q.x) / l == -((q.x - p.x) / l);
      assert (p.y - q.y) / l == -((q.y - p.y) / l);
    }
  }

  /** The force buffer after Edge::AddElectrostaticForces: entry i for every
      point i of this edge is pulled towards point i of the other edge. */
  function ElectrostaticApplied(m: Libm, e: Edge, forces: seq<Vec2D>, other: Edge, eps: real): (r: seq<Vec2D>)
    requires |e.subdivs| <= |forces| && |e.subdivs| <= |other.subdivs|
    ensures |r| == |forces|
  {
    seq(|forces|, i requires 0 <= i < |forces| =>
      if i < |e.subdivs| then ElectrostaticStep(m, forces[i], e.subdivs[i], other.subdivs[i], eps)
      else forces[i])
  }

  /** Edge::AddElectrostaticForces; the other edge must have at least as many
      points as this one. */
  method AddElectrostaticForces(m: Libm, e: Edge, forces: seq<Vec2D>, other: Edge, eps: real)
    returns (r: seq<Vec2D>)
    requires |e.subdivs| <= |forces| && |e.subdivs| <= |other.subdivs|
    ensures r == ElectrostaticApplied(m, e, forces, other, eps)
  {
    var len := |e.subdivs|;
    var dist, dlen;
    r := forces;
    for i := 0 to len
      invariant |r| == |forces|
      invariant forall j :: 0 <= j < i ==> r[j] == ElectrostaticStep(m, forces[j], e.subdivs[j], other.subdivs[j], eps)
      invariant forall j :: i <= j < |forces| ==> r[j] == forces[j]
    {
      dist := other.subdivs[i].Minus(e.subdivs[i]);
      dlen := Length(m, dist);
      if dlen > eps && dlen != 0.0 {
        r := r[i := r[i].Plus(dist.Over(dlen))];
      }
    }
  }

  /** The strength of the pull towards the gravitation centre c on point p:
      0.1 * (|c - p| + 1)^exponent. */
  function GravityFactor(m: Libm, p: Vec2D, c: Vec2D, exponent: real): (g: real)
    ensures Lawful(m) ==> 0.0 < g
  {
    var dlen := Length(m, c.Minus(p));
    assert Lawful(m) ==> 0.0 < dlen + 1.0;
    0.1 * m.pow(dlen + 1.0, exponent)
  }

  /** The gravitational force on p: (c - p) * 0.1 * pow(|c - p| + 1, exponent). */
  function GravityForce(m: Libm, p: Vec2D, c: Vec2D, exponent: real): Vec2D
  {
    c.Minus(p).Times(0.1).Times(m.pow(Length(m, c.Minus(p)) + 1.0, exponent))
  }

  /** Gravity pulls every point straight towards the centre with a positive
      strength, and does not act on a point at the centre. */
  lemma GravityTowardsCentre(m: Libm, p: Vec2D, c: Vec2D, exponent: real)
    ensures GravityForce(m, p, c, exponent) == c.Minus(p).Times(GravityFactor(m, p, c, exponent))
    ensures Lawful(m) ==> 0.0 < GravityFactor(m, p, c, exponent)
    ensures p == c ==> GravityForce(m, p, c, exponent) == Zero
  {
    var w := m.pow(Length(m, c.Minus(p)) + 1.0, exponent);
    MulAssociates(c.x - p.x, 0.1, w);
    MulAssociates(c.y - p.y, 0.1, w);
  }

  /** The force buffer after Edge::AddGravitationalForces: every point of the
      edge pulled towards the centre. */
  function GravityApplied(m: Libm, e: Edge, forces: seq<Vec2D>, c: Vec2D, exponent: real): (r: seq<Vec2D>)
    requires |e.subdivs| <= |forces|
    ensures |r| == |forces|
  {
    seq(|forces|, i requires 0 <= i < |forces| =>
      if i < |e.subdivs| then forces[i].Plus(GravityForce(m, e.subdivs[i], c, exponent)) else forces[i])
  }

  /** Edge::AddGravitationalForces. */
  method AddGravitationalForces(m: Libm, e: Edge, forces: seq<Vec2D>, c: Vec2D, exponent: real)
    returns (r: seq<Vec2D>)
    requires |e.subdivs| <= |forces|
    ensures r == GravityApplied(m, e, forces, c, exponent)
  {
    var len := |e.subdivs|;
    var dist, dlen;
    r := forces;
    for i := 0 to len
      invariant |r| == |forces|
      invariant forall j :: 0 <= j < i ==> r[j] == forces[j].Plus(GravityForce(m, e.subdivs[j], c, exponent))
      invariant forall j :: i <= j < |forces| ==> r[j] == forces[j]
    {
      dist := c.Minus(e.subdivs[i]);
      dlen := Length(m, dist);
      r := r[i := r[i].Plus(dist.Times(0.1).Times(m.pow(dlen + 1.0, exponent)))];
    }
  }

  // ---------------------------------------------------------------------
  // Projection and compatibility

  /** Edge::project: the foot of the perpendicular from p onto the line
      through s and e.  The code divides by the squared length of s - e. */
  function Project(m: Libm, p: Vec2D, s: Vec2D, e: Vec2D): Vec2D
    requires Length(m, s.Minus(e)) != 0.0
  {
    var l := Length(m, s.Minus(e));
    SquareSign(l);
    var r := (Mul(s.y - p.y, s.y - e.y) - Mul(s.x - p.x, e.x - s.x)) / Sq(l);
    s.Plus(e.Minus(s).Times(r))
  }

  /** Over coordinates: (d * r - w) . d == r * |d|^2 - w . d. */
  lemma ResidualDotScalar(dx: real, dy: real, wx: real, wy: real, r: real)
    ensures Mul(Mul(dx, r) - wx, dx) + Mul(Mul(dy, r) - wy, dy)
         == Mul(r, Sq(dx) + Sq(dy)) - (Mul(wx, dx) + Mul(wy, dy))
  {
    assert (dx * r - wx) * dx == r * (dx * dx) - wx * dx;
    assert (dy * r - wy) * dy == r * (dy * dy) - wy * dy;
  }

  /** |s - e|^2 == |e - s|^2, and it is positive for distinct points. */
  lemma LengthSquaredReversed(m: Libm, s: Vec2D, e: Vec2D)
    requires Lawful(m) && s != e
    ensures Sq(Length(m, s.Minus(e))) == Norm2(e.Minus(s))
    ensures 0.0 < Norm2(e.Minus(s))
  {
    LengthSymmetric(m, s, e);
    LengthSquared(m, e.Minus(s));
    MinusZero(e, s);
    Norm2Sign(e.Minus(s));
  }

  /** The numerator of Edge::project, over coordinates. */
  lemma ProjectNumeratorScalar(px: real, py: real, sx: real, sy: real, ex: real, ey: real)
    ensures Mul(sy - py, sy - ey) - Mul(sx - px, ex - sx) == Mul(px - sx, ex - sx) + Mul(py - sy, ey - sy)
  {
    assert (sy - py) * (sy - ey) == (py - sy) * (ey - sy);
  }

  /** The numerator of Edge::project is (p - s) . (e - s), and the divisor is
      |e - s|^2. */
  lemma {:induction false} ProjectParameter(m: Libm, p: Vec2D, s: Vec2D, e: Vec2D)
    requires Lawful(m) && s != e
    ensures Length(m, s.Minus(e)) != 0.0 && Norm2(e.Minus(s)) != 0.0
    ensures Project(m, p, s, e)
         == s.Plus(e.Minus(s).Times(p.Minus(s).Dot(e.Minus(s)) / Norm2(e.Minus(s))))
  {
    LengthSquaredReversed(m, s, e);
    ProjectNumeratorScalar(p.x, p.y, s.x, s.y, e.x, e.y);
  }

  /** The projected point is the foot of the perpendicular: the offset from p
      to it is orthogonal to the line. */
  lemma {:induction false} ProjectOrthogonal(m: Libm, p: Vec2D, s: Vec2D, e: Vec2D)
    requires Lawful(m) && s != e
    ensures Project(m, p, s, e).Minus(p).Dot(e.Minus(s)) == 0.0
  {
    ProjectParameter(m, p, s, e);
    var d := e.Minus(s);
    var w := p.Minus(s);
    Norm2Sign(d);
    var r := w.Dot(d) / Norm2(d);
    assert Project(m, p, s, e).Minus(p) == d.Times(r).Minus(w);
    ResidualDotScalar(d.x, d.y, w.x, w.y, r);
    MulCommutes(r, Norm2(d));
    DivCancels(w.Dot(d), Norm2(d));
  }

  /** Points of the line project onto themselves; in particular its two ends. */
  lemma ProjectEndpoints(m: Libm, s: Vec2D, e: Vec2D)
    requires Lawful(m) && s != e
    ensures Project(m, s, s, e) == s
    ensures Project(m, e, s, e) == e
  {
    ProjectParameter(m, s, s, e);
    ProjectParameter(m, e, s, e);
    var d := e.Minus(s);
    Norm2Sign(d);
    assert s.Minus(s).Dot(d) == 0.0;
    assert d.Dot(d) == Norm2(d);
    assert d.Dot(d) / Norm2(d) == 1.0;
  }

  /** std::max(a, b): (a < b) ? b : a. */
  function Max(a: real, b: real): real { if a < b then b else a }

  /** std::min(a, b): (b < a) ? b : a. */
  function Min(a: real, b: real): real { if b < a then b else a }

  /** Edge::AngleCompatilibity: |cos| of the angle between the two edges. */
  function AngleCompatibility(m: Libm, e1: Edge, e2: Edge): real
  {
    Abs(Normalize(m, e1.Vector()).Dot(Normalize(m, e2.Vector())))
  }

  lemma DotSymmetric(u: Vec2D, w: Vec2D)
    ensures u.Dot(w) == w.Dot(u)
  {
    MulCommutes(u.x, w.x);
    MulCommutes(u.y, w.y);
  }

  /** Angle compatibility is symmetric. */
  lemma AngleCompatibilitySymmetric(m: Libm, e1: Edge, e2: Edge)
    ensures AngleCompatibility(m, e1, e2) == AngleCompatibility(m, e2, e1)
  {
    DotSymmetric(Normalize(m, e1.Vector()), Normalize(m, e2.Vector()));
  }

  /** Angle compatibility lies in [0, 1]. */
  lemma AngleCompatibilityBounds(m: Libm, e1: Edge, e2: Edge)
    requires Lawful(m)
    ensures 0.0 <= AngleCompatibility(m, e1, e2) <= 1.0
  {
    UnitDotBounded(Normalize(m, e1.Vector()), Normalize(m, e2.Vector()));
  }

  /** Edge::ScaleCompatibility: 2 / (lavg / lmin + lmax / lavg) for edges whose
      average length exceeds EPSILON, 0 otherwise.  When one edge has length
      zero the quotient lavg / lmin is +infinity and the result is 0 (lengths
      are never negative, so the guard below is that case). */
  function ScaleCompatibility(m: Libm, e1: Edge, e2: Edge): real
  {
    var l1 := Length(m, e1.Vector());
    var l2 := Length(m, e2.Vector());
    var lavg := (l1 + l2) / 2.0;
    if lavg > EPSILON then
      if Min(l1, l2) <= 0.0 then 0.0
      else
        ScaleQuotients(l1, l2);
        2.0 / (lavg / Min(l1, l2) + Max(l1, l2) / lavg)
    else 0.0
  }

  /** Both quotients of the scale measure are at least 1 for positive lengths. */
  lemma ScaleQuotients(l1: real, l2: real)
    requires 0.0 < l1 && 0.0 < l2
    ensures 1.0 <= ((l1 + l2) / 2.0) / Min(l1, l2)
    ensures 1.0 <= Max(l1, l2) / ((l1 + l2) / 2.0)
  {
    DivAtLeastOne((l1 + l2) / 2.0, Min(l1, l2));
    DivAtLeastOne(Max(l1, l2), (l1 + l2) / 2.0);
  }

  /** Scale compatibility is symmetric, zero for short edges, in (0, 1] for
      longer ones, and 1 for two edges of the same length. */
  lemma {:induction false} ScaleCompatibilityProperties(m: Libm, e1: Edge, e2: Edge)
    requires Lawful(m)
    ensures ScaleCompatibility(m, e1, e2) == ScaleCompatibility(m, e2, e1)
    ensures (Length(m, e1.Vector()) + Length(m, e2.Vector())) / 2.0 <= EPSILON
        ==> ScaleCompatibility(m, e1, e2) == 0.0
    ensures 0.0 <= ScaleCompatibility(m, e1, e2) <= 1.0
    ensures (Length(m, e1.Vector()) + Length(m, e2.Vector())) / 2.0 > EPSILON
        && e1.Vector() != Zero && e2.Vector() != Zero
        ==> 0.0 < ScaleCompatibility(m, e1, e2)
    ensures Length(m, e1.Vector()) == Length(m, e2.Vector())
        && Length(m, e1.Vector()) > EPSILON
        ==> ScaleCompatibility(m, e1, e2) == 1.0
  {
    var l1 := Length(m, e1.Vector());
    var l2 := Length(m, e2.Vector());
    var lavg := (l1 + l2) / 2.0;
    var lo, hi := Min(l1, l2), Max(l1, l2);
    if lavg > EPSILON && lo != 0.0 {
      ScaleQuotients(l1, l2);
      DivAtMostOne(2.0, lavg / lo + hi / lavg);
    }
  }

  /** Edge::PositionCompatibility: lavg / (lavg + distance of the midpoints)
      for edges whose average length exceeds EPSILON, 0 otherwise.  A length
      is never negative, so the denominator is then positive; the guard on it
      only spares the definition that fact. */
  function PositionCompatibility(m: Libm, e1: Edge, e2: Edge): real
  {
    var lavg := (Length(m, e1.Vector()) + Length(m, e2.Vector())) / 2.0;
    if lavg > EPSILON then
      var mid1 := Center(e1.start, e1.end);
      var mid2 := Center(e2.start, e2.end);
      var den := lavg + Length(m, mid1.Minus(mid2));
      if den <= 0.0 then 0.0 else lavg / den
    else 0.0
  }

  /** Position compatibility is symmetric and zero for short edges. */
  lemma PositionCompatibilitySymmetric(m: Libm, e1: Edge, e2: Edge)
    requires Lawful(m)
    ensures PositionCompatibility(m, e1, e2) == PositionCompatibility(m, e2, e1)
    ensures (Length(m, e1.Vector()) + Length(m, e2.Vector())) / 2.0 <= EPSILON
        ==> PositionCompatibility(m, e1, e2) == 0.0
  {
    LengthSymmetric(m, Center(e1.start, e1.end), Center(e2.start, e2.end));
  }

  /** lavg / (lavg + d) lies in (0, 1], and is 1 exactly when d is 0. */
  lemma PositionRatio(lavg: real, d: real)
    requires 0.0 < lavg && 0.0 <= d
    ensures 0.0 < lavg / (lavg + d) <= 1.0
    ensures lavg / (lavg + d) == 1.0 <==> d == 0.0
  {
    DivAtMostOne(lavg, lavg + d);
    if lavg / (lavg + d) == 1.0 {
      assert lavg == lavg / (lavg + d) * (lavg + d);
    }
  }

  /** For edges longer than EPSILON on average, position compatibility lies in
      (0, 1] and is 1 exactly when the midpoints coincide. */
  lemma {:induction false} PositionCompatibilityBounds(m: Libm, e1: Edge, e2: Edge)
    requires Lawful(m)
    requires (Length(m, e1.Vector()) + Length(m, e2.Vector())) / 2.0 > EPSILON
    ensures 0.0 < PositionCompatibility(m, e1, e2) <= 1.0
    ensures PositionCompatibility(m, e1, e2) == 1.0
        <==> Center(e1.start, e1.end) == Center(e2.start, e2.end)
  {
    var mid1 := Center(e1.start, e1.end);
    var mid2 := Center(e2.start, e2.end);
    var lavg := (Length(m, e1.Vector()) + Length(m, e2.Vector())) / 2.0;
    PositionRatio(lavg, Length(m, mid1.Minus(mid2)));
    MinusZero(mid1, mid2);
  }

  /** Edge::EdgeVisibility: how much of edge2's middle is covered by the
      projection of edge1 onto edge2's line, clipped below at 0.  When edge2 or
      the projection has length zero the code divides by zero, and std::max
      then returns 0. */
  function EdgeVisibility(m: Libm, e1: Edge, e2: Edge): (v: real)
  {
    if Length(m, e2.start.Minus(e2.end)) == 0.0 then 0.0
    else
      var i0 := Project(m, e1.start, e2.start, e2.end);
      var i1 := Project(m, e1.end, e2.start, e2.end);
      var midI := Center(i0, i1);
      var midP := Center(e2.start, e2.end);
      var span := Length(m, i0.Minus(i1));
      if span == 0.0 then 0.0
      else Max(0.0, 1.0 - 2.0 * Length(m, midP.Minus(midI)) / span)
  }

  lemma EdgeVisibilityBounds(m: Libm, e1: Edge, e2: Edge)
    requires Lawful(m)
    ensures 0.0 <= EdgeVisibility(m, e1, e2) <= 1.0
  {
    if Length(m, e2.start.Minus(e2.end)) != 0.0 {
      var i0 := Project(m, e1.start, e2.start, e2.end);
      var i1 := Project(m, e1.end, e2.start, e2.end);
      var span := Length(m, i0.Minus(i1));
      var gap := Length(m, Center(e2.start, e2.end).Minus(Center(i0, i1)));
      if span != 0.0 {
        DivNonNegative(2.0 * gap, span);
      }
    }
  }

  /** Edge::VisibilityCompability: the smaller visibility of either edge on the other. */
  function VisibilityCompatibility(m: Libm, e1: Edge, e2: Edge): real
  {
    Min(EdgeVisibility(m, e1, e2), EdgeVisibility(m, e2, e1))
  }

  lemma VisibilityCompatibilityProperties(m: Libm, e1: Edge, e2: Edge)
    requires Lawful(m)
    ensures VisibilityCompatibility(m, e1, e2) == VisibilityCompatibility(m, e2, e1)
    ensures 0.0 <= VisibilityCompatibility(m, e1, e2) <= 1.0
  {
    EdgeVisibilityBounds(m, e1, e2);
    EdgeVisibilityBounds(m, e2, e1);
  }

  // ---------------------------------------------------------------------
  // Construction

  /** The midpoint does not depend on the order of the endpoints. */
  lemma CenterSymmetric(p1: Vec2D, p2: Vec2D)
    ensures Center(p1, p2) == Center(p2, p1)
  {
  }

  /** The Edge constructor: stores the labels, endpoints and width, arranges
      the direction and adds the first subdivision point, the midpoint. */
  method NewEdge(sourceLabel: string, targetLabel: string, start: Vec2D, end: Vec2D, width: real)
    returns (e: Edge)
    ensures e == ArrangeDirection(Edge(sourceLabel, targetLabel, start, end, [], width, [])).(subdivs := e.subdivs)
    ensures e.subdivs == [Center(start, end)]
  {
    e := Edge(sourceLabel, targetLabel, start, end, [], width, []);
    e := ArrangeDirection(e);
    CenterSymmetric(start, end);
    e := AddSubdivisions(e);
  }
}
