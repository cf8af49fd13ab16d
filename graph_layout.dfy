// The bundling driver of GraphViser::Graph: the node map and edge list, the
// algorithm's counters and parameters, the pairwise compatibility lists, one
// bundling iteration, the end-of-cycle update, and the loading of a network
// (sorting, filtering and normalising its edges and counting node degrees).
module GraphLayout {
  import opened Numerics
  import opened GraphIO

  // ---------------------------------------------------------------------
  // Compatibility

  /** The part of an edge the compatibility measures read: its endpoints. */
  function Segment(e: Edge): (r: Edge)
    ensures r.start == e.start && r.end == e.end
  {
    Edge("", "", e.start, e.end, [], 0.0, [])
  }

  /** The product of four numbers, in the order the code multiplies them. */
  function Product4(a: real, s: real, p: real, v: real): real
  {
    Mul(Mul(Mul(a, s), p), v)
  }

  /** The compatibility of two edges: the product of the four measures of
      their endpoints (CompatibilityScoreIsProduct). */
  function CompatibilityScore(m: Libm, e1: Edge, e2: Edge): real
  {
    var s1, s2 := Segment(e1), Segment(e2);
    Product4(AngleCompatibility(m, s1, s2), ScaleCompatibility(m, s1, s2),
             PositionCompatibility(m, s1, s2), VisibilityCompatibility(m, s1, s2))
  }

  /** Each measure reads only the endpoints of the two edges. */
  lemma AngleReadsEndpoints(m: Libm, e1: Edge, e2: Edge)
    ensures AngleCompatibility(m, Segment(e1), Segment(e2)) == AngleCompatibility(m, e1, e2)
  {
  }

  lemma ScaleReadsEndpoints(m: Libm, e1: Edge, e2: Edge)
    ensures ScaleCompatibility(m, Segment(e1), Segment(e2)) == ScaleCompatibility(m, e1, e2)
  {
  }

  lemma PositionReadsEndpoints(m: Libm, e1: Edge, e2: Edge)
    ensures PositionCompatibility(m, Segment(e1), Segment(e2)) == PositionCompatibility(m, e1, e2)
  {
  }

  lemma VisibilityReadsEndpoints(m: Libm, e1: Edge, e2: Edge)
    ensures VisibilityCompatibility(m, Segment(e1), Segment(e2)) == VisibilityCompatibility(m, e1, e2)
  {
  }

  /** The score is the product of the four measures of the two edges. */
  lemma CompatibilityScoreIsProduct(m: Libm, e1: Edge, e2: Edge)
    ensures CompatibilityScore(m, e1, e2)
         == Product4(AngleCompatibility(m, e1, e2), ScaleCompatibility(m, e1, e2),
                     PositionCompatibility(m, e1, e2), VisibilityCompatibility(m, e1, e2))
  {
    AngleReadsEndpoints(m, e1, e2);
    ScaleReadsEndpoints(m, e1, e2);
    PositionReadsEndpoints(m, e1, e2);
    VisibilityReadsEndpoints(m, e1, e2);
  }

  /** A product of two numbers in [0, 1] is in [0, 1]. */
  lemma UnitIntervalProduct(a: real, b: real)
    requires 0.0 <= a <= 1.0 && 0.0 <= b <= 1.0
    ensures 0.0 <= Mul(a, b) <= 1.0
  {
    MulMonotone(0.0, a, b);
    MulMonotone(a, 1.0, b);
  }

  /** A product of four numbers in [0, 1] is in [0, 1]. */
  lemma Product4Bounds(a: real, s: real, p: real, v: real)
    requires 0.0 <= a <= 1.0 && 0.0 <= s <= 1.0 && 0.0 <= p <= 1.0 && 0.0 <= v <= 1.0
    ensures 0.0 <= Product4(a, s, p, v) <= 1.0
  {
    UnitIntervalProduct(a, s);
    UnitIntervalProduct(Mul(a, s), p);
    UnitIntervalProduct(Mul(Mul(a, s), p), v);
  }

  /** The four measures each lie in [0, 1] and do not depend on the order of the edges. */
  lemma MeasuresSymmetricBounded(m: Libm, e1: Edge, e2: Edge)
    requires Lawful(m)
    ensures AngleCompatibility(m, e1, e2) == AngleCompatibility(m, e2, e1)
    ensures ScaleCompatibility(m, e1, e2) == ScaleCompatibility(m, e2, e1)
    ensures PositionCompatibility(m, e1, e2) == PositionCompatibility(m, e2, e1)
    ensures VisibilityCompatibility(m, e1, e2) == VisibilityCompatibility(m, e2, e1)
    ensures 0.0 <= AngleCompatibility(m, e1, e2) <= 1.0
    ensures 0.0 <= ScaleCompatibility(m, e1, e2) <= 1.0
    ensures 0.0 <= PositionCompatibility(m, e1, e2) <= 1.0
    ensures 0.0 <= VisibilityCompatibility(m, e1, e2) <= 1.0
  {
    AngleCompatibilitySymmetric(m, e1, e2);
    AngleCompatibilityBounds(m, e1, e2);
    ScaleCompatibilityProperties(m, e1, e2);
    PositionCompatibilitySymmetric(m, e1, e2);
    if (Length(m, e1.Vector()) + Length(m, e2.Vector())) / 2.0 > EPSILON {
      PositionCompatibilityBounds(m, e1, e2);
    }
    VisibilityCompatibilityProperties(m, e1, e2);
  }

  /** The score does not depend on the order of the two edges, and lies in [0, 1]. */
  lemma {:induction false} CompatibilityScoreProperties(m: Libm, e1: Edge, e2: Edge)
    requires Lawful(m)
    ensures CompatibilityScore(m, e1, e2) == CompatibilityScore(m, e2, e1)
    ensures 0.0 <= CompatibilityScore(m, e1, e2) <= 1.0
  {
    CompatibilityScoreIsProduct(m, e1, e2);
    CompatibilityScoreIsProduct(m, e2, e1);
    MeasuresSymmetricBounded(m, e1, e2);
    Product4Bounds(AngleCompatibility(m, e1, e2), ScaleCompatibility(m, e1, e2),
                   PositionCompatibility(m, e1, e2), VisibilityCompatibility(m, e1, e2));
  }

  /** Whether the pair of edges a, b passes the threshold, the score taken
      with the lower index first as the loops of BuildCompatibilityLists
      evaluate it; false for indices out of range. */
  function CompatibleIn(m: Libm, threshold: real, es: seq<Edge>): (int, int) -> bool
  {
    (a: int, b: int) =>
      0 <= a < |es| && 0 <= b < |es| &&
      (if a < b then CompatibilityScore(m, es[a], es[b]) >= threshold
       else CompatibilityScore(m, es[b], es[a]) >= threshold)
  }

  /** The test does not depend on the order of the pair. */
  lemma CompatibleInSymmetric(m: Libm, threshold: real, es: seq<Edge>, a: int, b: int)
    ensures CompatibleIn(m, threshold, es)(a, b) == CompatibleIn(m, threshold, es)(b, a)
  {
  }

  /** The indices below hi that BuildCompatibilityLists appends to the list of
      edge k, in the order it appends them, for the pair test ok. */
  function Partners(ok: (int, int) -> bool, k: int, hi: nat): seq<int>
  {
    if hi == 0 then []
    else Partners(ok, k, hi - 1) + (if hi - 1 != k && ok(hi - 1, k) then [hi - 1] else [])
  }

  /** x is listed for k exactly when x is another index below hi that passes
      the test with k. */
  lemma {:induction false} PartnersMembership(ok: (int, int) -> bool, k: int, hi: nat, x: int)
    ensures x in Partners(ok, k, hi) <==> 0 <= x < hi && x != k && ok(x, k)
  {
    if hi > 0 {
      PartnersMembership(ok, k, hi - 1, x);
    }
  }

  /** The list is strictly increasing and bounded by hi. */
  lemma {:induction false} PartnersIncreasing(ok: (int, int) -> bool, k: int, hi: nat)
    ensures forall p, q :: 0 <= p < q < |Partners(ok, k, hi)| ==> Partners(ok, k, hi)[p] < Partners(ok, k, hi)[q]
    ensures forall p :: 0 <= p < |Partners(ok, k, hi)| ==> 0 <= Partners(ok, k, hi)[p] < hi
  {
    if hi > 0 {
      PartnersIncreasing(ok, k, hi - 1);
    }
  }

  /** For a symmetric pair test the lists are symmetric: j is listed for i
      exactly when i is listed for j, and no edge lists itself. */
  lemma PartnersSymmetric(ok: (int, int) -> bool, n: nat, i: int, j: int)
    requires 0 <= i < n && 0 <= j < n && ok(i, j) == ok(j, i)
    ensures j in Partners(ok, i, n) <==> i in Partners(ok, j, n)
    ensures i !in Partners(ok, i, n)
  {
    PartnersMembership(ok, i, n, j);
    PartnersMembership(ok, j, n, i);
    PartnersMembership(ok, i, n, i);
  }

  /** The lists BuildCompatibilityLists appends are symmetric and free of
      self-references. */
  lemma CompatibilityListsSymmetric(m: Libm, threshold: real, es: seq<Edge>, i: int, j: int)
    requires 0 <= i < |es| && 0 <= j < |es|
    ensures var ok := CompatibleIn(m, threshold, es);
      && (j in Partners(ok, i, |es|) <==> i in Partners(ok, j, |es|))
      && i !in Partners(ok, i, |es|)
  {
    CompatibleInSymmetric(m, threshold, es, i, j);
    PartnersSymmetric(CompatibleIn(m, threshold, es), |es|, i, j);
  }

  /** How far the list of edge k has been extended when the outer loop of
      BuildCompatibilityLists is at i and its inner loop at j (i <= j). */
  function Reached(k: int, i: int, j: int, n: nat): nat
    requires 0 <= i <= j <= n
  {
    if k < i then n else if k == i then j else if k < j then i + 1 else i
  }

  /** The edges of es with each list extended by its partners up to Reached. */
  function ListsAt(ok: (int, int) -> bool, es: seq<Edge>, i: int, j: int): (r: seq<Edge>)
    requires 0 <= i <= j <= |es|
    ensures |r| == |es|
  {
    seq(|es|, k requires 0 <= k < |es| =>
      es[k].(compatibleEdges := es[k].compatibleEdges + Partners(ok, k, Reached(k, i, j, |es|))))
  }

  /** The edge k with an index appended to its list. */
  function Appended(es: seq<Edge>, k: int, x: int): (r: seq<Edge>)
    requires 0 <= k < |es|
    ensures |r| == |es|
  {
    es[k := es[k].(compatibleEdges := es[k].compatibleEdges + [x])]
  }

  /** One inner step of BuildCompatibilityLists on the pair (i, j): both lists
      grow when the pair passes the test, and nothing changes otherwise. */
  lemma ListsAtStep(ok: (int, int) -> bool, es: seq<Edge>, i: int, j: int)
    requires 0 <= i < j < |es| && ok(i, j) == ok(j, i)
    ensures ok(i, j) ==> ListsAt(ok, es, i, j + 1) == Appended(Appended(ListsAt(ok, es, i, j), i, j), j, i)
    ensures !ok(i, j) ==> ListsAt(ok, es, i, j + 1) == ListsAt(ok, es, i, j)
  {
    var before, after := ListsAt(ok, es, i, j), ListsAt(ok, es, i, j + 1);
    if ok(i, j) {
      var expected := Appended(Appended(before, i, j), j, i);
      forall k | 0 <= k < |es|
        ensures after[k] == expected[k]
      {
        StepAt(ok, es, i, j, k);
      }
    } else {
      forall k | 0 <= k < |es|
        ensures after[k] == before[k]
      {
        StepAt(ok, es, i, j, k);
      }
    }
  }

  /** ListsAtStep for the list of edge k. */
  lemma StepAt(ok: (int, int) -> bool, es: seq<Edge>, i: int, j: int, k: int)
    requires 0 <= i < j < |es| && ok(i, j) == ok(j, i) && 0 <= k < |es|
    ensures var before := ListsAt(ok, es, i, j);
      ListsAt(ok, es, i, j + 1)[k] == if ok(i, j) then Appended(Appended(before, i, j), j, i)[k] else before[k]
  {
    if k == i {
      assert Partners(ok, i, j + 1) == Partners(ok, i, j) + (if ok(j, i) then [j] else []);
    } else if k == j {
      assert Partners(ok, j, i + 1) == Partners(ok, j, i) + (if ok(i, j) then [i] else []);
    }
  }

  /** Before the loops every list is as it was. */
  lemma ListsAtStart(ok: (int, int) -> bool, es: seq<Edge>)
    ensures ListsAt(ok, es, 0, 0) == es
  {
    forall k | 0 <= k < |es|
      ensures ListsAt(ok, es, 0, 0)[k] == es[k]
    {
      assert es[k].compatibleEdges + [] == es[k].compatibleEdges;
    }
  }

  /** The inner loop starts where the previous outer step left off, and its
      end is the start of the next outer step. */
  lemma ListsAtBoundaries(ok: (int, int) -> bool, es: seq<Edge>, i: int)
    requires 0 <= i < |es|
    ensures ListsAt(ok, es, i, i + 1) == ListsAt(ok, es, i, i)
    ensures ListsAt(ok, es, i, |es|) == ListsAt(ok, es, i + 1, i + 1)
  {
    assert Partners(ok, i, i + 1) == Partners(ok, i, i);
    assert ListsAt(ok, es, i, i + 1) == ListsAt(ok, es, i, i);
  }

  /** Each edge with its compatibility list extended by its partners. */
  function AllPartners(ok: (int, int) -> bool, es: seq<Edge>): (r: seq<Edge>)
    ensures |r| == |es|
  {
    seq(|es|, k requires 0 <= k < |es| =>
      es[k].(compatibleEdges := es[k].compatibleEdges + Partners(ok, k, |es|)))
  }

  /** The lists BuildCompatibilityLists produces from es. */
  function WithPartners(m: Libm, threshold: real, es: seq<Edge>): (r: seq<Edge>)
    ensures |r| == |es|
  {
    AllPartners(CompatibleIn(m, threshold, es), es)
  }

  /** After the last outer step every list is complete. */
  lemma ListsAtEnd(ok: (int, int) -> bool, es: seq<Edge>)
    ensures ListsAt(ok, es, |es|, |es|) == AllPartners(ok, es)
  {
  }

  /** The pair test on (i, j) is the comparison the loop makes on the edges
      whose lists it has already extended. */
  lemma CompatibleInScore(m: Libm, threshold: real, es: seq<Edge>, i: int, j: int, l1: seq<int>, l2: seq<int>)
    requires 0 <= i < j < |es|
    ensures CompatibleIn(m, threshold, es)(i, j)
        == (CompatibilityScore(m, es[i].(compatibleEdges := l1), es[j].(compatibleEdges := l2)) >= threshold)
  {
    CompatibilityIgnoresLists(m, es[i], es[j], l1, l2);
  }

  /** The double loop of Graph::BuildCompatibilityLists over the edge list:
      for every pair i < j whose compatibility reaches the threshold, j is
      appended to the list of i and i to the list of j. */
  method CompatibilityLists(m: Libm, threshold: real, es: seq<Edge>) returns (lists: seq<Edge>)
    ensures lists == WithPartners(m, threshold, es)
  {
    ghost var ok := CompatibleIn(m, threshold, es);
    var edgesNum := |es|;
    var compEdgePairs := 0;
    var comp := 0.0;
    lists := es;
    ListsAtStart(ok, es);
    for i := 0 to edgesNum
      invariant lists == ListsAt(ok, es, i, i)
    {
      ListsAtBoundaries(ok, es, i);
      for j := i + 1 to edgesNum
        invariant lists == ListsAt(ok, es, i, j)
      {
        assert lists[i] == es[i].(compatibleEdges := lists[i].compatibleEdges);
        assert lists[j] == es[j].(compatibleEdges := lists[j].compatibleEdges);
        CompatibleInScore(m, threshold, es, i, j, lists[i].compatibleEdges, lists[j].compatibleEdges);
        CompatibleInSymmetric(m, threshold, es, i, j);
        ListsAtStep(ok, es, i, j);
        comp := CompatibilityScore(m, lists[i], lists[j]);
        if comp >= threshold {
          lists := lists[i := lists[i].(compatibleEdges := lists[i].compatibleEdges + [j])];
          lists := lists[j := lists[j].(compatibleEdges := lists[j].compatibleEdges + [i])];
          compEdgePairs := compEdgePairs + 1;
        }
      }
    }
    ListsAtEnd(ok, es);
  }

  // ---------------------------------------------------------------------
  // One iteration

  /** The fresh force buffer of an edge: c zero vectors. */
  function ZeroForces(c: nat): (f: seq<Vec2D>)
    ensures |f| == c
  {
    seq(c, _ => Zero)
  }

  /** The edges of the network have c subdivision points each, their compatible
      indices are valid, and each has non-zero length (the spring constant
      divides by it). */
  predicate ReadyToIterate(m: Libm, es: seq<Edge>, c: nat)
  {
    && (forall i :: 0 <= i < |es| ==> |es[i].subdivs| == c)
    && (forall i, j :: 0 <= i < |es| && 0 <= j < |es[i].compatibleEdges|
          ==> 0 <= es[i].compatibleEdges[j] < |es|)
    && (forall i :: 0 <= i < |es| ==> Length(m, es[i].Vector()) != 0.0)
  }

  /** The buffer of edge i after the electrostatic pulls of the first j edges of
      its compatibility list. */
  function ElectrostaticFold(m: Libm, es: seq<Edge>, c: nat, i: int, f: seq<Vec2D>, eps: real, j: nat): (r: seq<Vec2D>)
    requires ReadyToIterate(m, es, c) && 0 <= i < |es| && |f| == c
    requires j <= |es[i].compatibleEdges|
    ensures |r| == c
  {
    if j == 0 then f
    else
      var g := ElectrostaticFold(m, es, c, i, f, eps, j - 1);
      ElectrostaticApplied(m, es[i], g, es[es[i].compatibleEdges[j - 1]], eps)
  }

  /** The parameters one iteration reads. */
  datatype Physics = Physics(k: real, s: real, edgeDistance: real, gravitationIsOn: bool,
                             gravitationCenter: Vec2D, gravitationExponent: real)

  /** Force buffers for the edges of es: one per edge, c forces each. */
  predicate Buffers(es: seq<Edge>, c: nat, f: seq<seq<Vec2D>>)
  {
    |f| == |es| && forall i :: 0 <= i < |es| ==> |f[i]| == c
  }

  /** The buffers after the first loop of Graph::Iterate: spring forces added
      to zero buffers. */
  function Springs(m: Libm, es: seq<Edge>, c: nat, k: real): (r: seq<seq<Vec2D>>)
    requires ReadyToIterate(m, es, c)
    ensures Buffers(es, c, r)
  {
    seq(|es|, i requires 0 <= i < |es| => SpringApplied(m, es[i], ZeroForces(c), k))
  }

  /** The buffers after the second loop: every edge pulled by each edge on its
      compatibility list, in list order. */
  function Pulled(m: Libm, es: seq<Edge>, c: nat, f: seq<seq<Vec2D>>, eps: real): (r: seq<seq<Vec2D>>)
    requires ReadyToIterate(m, es, c) && Buffers(es, c, f)
    ensures Buffers(es, c, r)
  {
    seq(|es|, i requires 0 <= i < |es| => ElectrostaticFold(m, es, c, i, f[i], eps, |es[i].compatibleEdges|))
  }

  /** The buffers after the third loop: the pull towards the centre added. */
  function Gravitated(m: Libm, es: seq<Edge>, c: nat, f: seq<seq<Vec2D>>, center: Vec2D, exponent: real): (r: seq<seq<Vec2D>>)
    requires ReadyToIterate(m, es, c) && Buffers(es, c, f)
    ensures Buffers(es, c, r)
  {
    seq(|es|, i requires 0 <= i < |es| => GravityApplied(m, es[i], f[i], center, exponent))
  }

  /** The edges after the last loop: every edge moved by its buffer. */
  function Moved(m: Libm, es: seq<Edge>, c: nat, f: seq<seq<Vec2D>>, s: real): (r: seq<Edge>)
    requires ReadyToIterate(m, es, c) && Buffers(es, c, f)
    ensures |r| == |es|
    ensures forall i :: 0 <= i < |es| ==> r[i] == es[i].(subdivs := r[i].subdivs) && |r[i].subdivs| == c
  {
    seq(|es|, i requires 0 <= i < |es| => UpdatedEdge(m, es[i], f[i], s))
  }

  /** The edges after one iteration: springs, then the pulls of compatible
      edges, then gravity when it is on, then every edge moves. */
  function Iterated(m: Libm, es: seq<Edge>, c: nat, ph: Physics): (r: seq<Edge>)
    requires ReadyToIterate(m, es, c)
    ensures |r| == |es|
  {
    var pulled := Pulled(m, es, c, Springs(m, es, c, ph.k), ph.edgeDistance);
    var total := if ph.gravitationIsOn then Gravitated(m, es, c, pulled, ph.gravitationCenter, ph.gravitationExponent)
                 else pulled;
    Moved(m, es, c, total, ph.s)
  }

  /** An iteration moves points but keeps every edge's endpoints, labels,
      width, lists and number of points, so the edges stay ready to iterate. */
  lemma {:induction false} IteratedKeepsShape(m: Libm, es: seq<Edge>, c: nat, ph: Physics)
    requires ReadyToIterate(m, es, c)
    ensures forall i :: 0 <= i < |es| ==> Iterated(m, es, c, ph)[i] == es[i].(subdivs := Iterated(m, es, c, ph)[i].subdivs)
    ensures ReadyToIterate(m, Iterated(m, es, c, ph), c)
  {
    var r := Iterated(m, es, c, ph);
    forall i | 0 <= i < |es|
      ensures r[i].Vector() == es[i].Vector()
    {
    }
  }

  /** The first loop of Graph::Iterate: spring forces into fresh buffers. */
  method SpringPhase(m: Libm, es: seq<Edge>, c: nat, k: real) returns (forces: seq<seq<Vec2D>>)
    requires ReadyToIterate(m, es, c)
    requires c >= 1
    ensures forces == Springs(m, es, c, k)
  {
    var edgesNum := |es|;
    forces := seq(edgesNum, _ => ZeroForces(c));
    for i := 0 to edgesNum
      invariant |forces| == edgesNum
      invariant forall j :: 0 <= j < i ==> forces[j] == SpringApplied(m, es[j], ZeroForces(c), k)
      invariant forall j :: i <= j < edgesNum ==> forces[j] == ZeroForces(c)
    {
      var f := AddSpringForces(m, es[i], forces[i], k);
      forces := forces[i := f];
    }
  }

  /** The second loop of Graph::Iterate. */
  method ElectrostaticPhase(m: Libm, es: seq<Edge>, c: nat, forces0: seq<seq<Vec2D>>, eps: real)
    returns (forces: seq<seq<Vec2D>>)
    requires ReadyToIterate(m, es, c) && Buffers(es, c, forces0)
    ensures forces == Pulled(m, es, c, forces0, eps)
  {
    var edgesNum := |es|;
    forces := forces0;
    for i := 0 to edgesNum
      invariant |forces| == edgesNum
      invariant forall j :: 0 <= j < i ==>
        forces[j] == ElectrostaticFold(m, es, c, j, forces0[j], eps, |es[j].compatibleEdges|)
      invariant forall j :: i <= j < edgesNum ==> forces[j] == forces0[j]
    {
      var compatibleEdgesNum := |es[i].compatibleEdges|;
      var f := forces[i];
      for j := 0 to compatibleEdgesNum
        invariant f == ElectrostaticFold(m, es, c, i, forces0[i], eps, j)
      {
        f := AddElectrostaticForces(m, es[i], f, es[es[i].compatibleEdges[j]], eps);
      }
      forces := forces[i := f];
    }
  }

  /** The third loop of Graph::Iterate. */
  method GravityPhase(m: Libm, es: seq<Edge>, c: nat, forces0: seq<seq<Vec2D>>, center: Vec2D, exponent: real)
    returns (forces: seq<seq<Vec2D>>)
    requires ReadyToIterate(m, es, c) && Buffers(es, c, forces0)
    ensures forces == Gravitated(m, es, c, forces0, center, exponent)
  {
    var edgesNum := |es|;
    forces := forces0;
    for i := 0 to edgesNum
      invariant |forces| == edgesNum
      invariant forall j :: 0 <= j < i ==> forces[j] == GravityApplied(m, es[j], forces0[j], center, exponent)
      invariant forall j :: i <= j < edgesNum ==> forces[j] == forces0[j]
    {
      var f := AddGravitationalForces(m, es[i], forces[i], center, exponent);
      forces := forces[i := f];
    }
  }

  /** The last loop of Graph::Iterate. */
  method UpdatePhase(m: Libm, es: seq<Edge>, c: nat, forces: seq<seq<Vec2D>>, s: real) returns (r: seq<Edge>)
    requires ReadyToIterate(m, es, c) && Buffers(es, c, forces)
    ensures r == Moved(m, es, c, forces, s)
  {
    var edgesNum := |es|;
    r := es;
    for i := 0 to edgesNum
      invariant |r| == edgesNum
      invariant forall j :: 0 <= j < i ==> r[j] == UpdatedEdge(m, es[j], forces[j], s)
      invariant forall j :: i <= j < edgesNum ==> r[j] == es[j]
    {
      var e := Update(m, r[i], forces[i], s);
      r := r[i := e];
    }
  }

  /** The four loops of Graph::Iterate on the edges, with the parameters the
      graph holds. */
  method IterateEdges(m: Libm, es: seq<Edge>, c: nat, ph: Physics) returns (r: seq<Edge>)
    requires ReadyToIterate(m, es, c) && c >= 1
    ensures r == Iterated(m, es, c, ph)
  {
    var forces := SpringPhase(m, es, c, ph.k);
    forces := ElectrostaticPhase(m, es, c, forces, ph.edgeDistance);
    if ph.gravitationIsOn {
      forces := GravityPhase(m, es, c, forces, ph.gravitationCenter, ph.gravitationExponent);
    }
    r := UpdatePhase(m, es, c, forces, ph.s);
  }

  // ---------------------------------------------------------------------
  // Loading a network

  /** Edges in ascending order of width. */
  predicate SortedByWidth(es: seq<Edge>)
  {
    forall p, q :: 0 <= p < q < |es| ==> es[p].width <= es[q].width
  }

  /** The edges wider than the threshold, in their order. */
  function Wider(es: seq<Edge>, threshold: real): (r: seq<Edge>)
    ensures |r| <= |es|
  {
    if |es| == 0 then []
    else Wider(es[..|es| - 1], threshold)
         + (if es[|es| - 1].width > threshold then [es[|es| - 1]] else [])
  }

  /** Wider keeps exactly the wide edges, as a subsequence, so a sorted input
      gives a sorted output. */
  lemma WiderProperties(es: seq<Edge>, threshold: real)
    ensures forall e :: e in Wider(es, threshold) <==> e in es && e.width > threshold
    ensures SortedByWidth(es) ==> SortedByWidth(Wider(es, threshold))
  {
    WiderMembers(es, threshold);
    if SortedByWidth(es) {
      WiderSorted(es, threshold);
    }
  }

  lemma {:induction false} WiderMembers(es: seq<Edge>, threshold: real)
    ensures forall e :: e in Wider(es, threshold) <==> e in es && e.width > threshold
  {
    if |es| > 0 {
      var init := es[..|es| - 1];
      WiderMembers(init, threshold);
      assert es == init + [es[|es| - 1]];
    }
  }

  lemma {:induction false} WiderSorted(es: seq<Edge>, threshold: real)
    requires SortedByWidth(es)
    ensures SortedByWidth(Wider(es, threshold))
  {
    if |es| > 0 {
      var init, last := es[..|es| - 1], es[|es| - 1];
      assert SortedByWidth(init);
      WiderSorted(init, threshold);
      WiderMembers(init, threshold);
      if last.width > threshold {
        forall e | e in Wider(init, threshold)
          ensures e.width <= last.width
        {
          var p :| 0 <= p < |init| && init[p] == e;
        }
        SortedAppend(Wider(init, threshold), last);
      }
    }
  }

  /** An edge at least as wide as every edge of a sorted list extends it. */
  lemma SortedAppend(s: seq<Edge>, e: Edge)
    requires SortedByWidth(s) && forall x :: x in s ==> x.width <= e.width
    ensures SortedByWidth(s + [e])
  {
    forall p, q | 0 <= p < q < |s| + 1
      ensures (s + [e])[p].width <= (s + [e])[q].width
    {
      if q == |s| {
        assert (s + [e])[p] in s;
      }
    }
  }

  /** How many edges the percentage filter keeps: int(p * n / 100). */
  function PercentageCount(percentage: real, n: nat): int
  {
    TruncToInt(percentage * n as real / 100.0)
  }

  /** The edges that Graph::Set keeps from the sorted input: those wider than a
      positive weight threshold; else the first int(p * n / 100) for a positive
      percentage p; else all of them. */
  function Kept(sorted: seq<Edge>, weightThreshold: real, percentage: real): seq<Edge>
    requires weightThreshold <= 0.0 && percentage > 0.0 ==> PercentageCount(percentage, |sorted|) <= |sorted|
  {
    if weightThreshold > 0.0 then Wider(sorted, weightThreshold)
    else if percentage > 0.0 then sorted[..PercentageCount(percentage, |sorted|)]
    else sorted
  }

  /** The kept edges stay in ascending order; the percentage filter keeps the
      lightest edges: none of the dropped ones is lighter than a kept one. */
  lemma {:induction false} KeptProperties(sorted: seq<Edge>, weightThreshold: real, percentage: real)
    requires weightThreshold <= 0.0 && percentage > 0.0 ==> PercentageCount(percentage, |sorted|) <= |sorted|
    requires SortedByWidth(sorted)
    ensures SortedByWidth(Kept(sorted, weightThreshold, percentage))
    ensures weightThreshold <= 0.0 && percentage > 0.0 ==>
      forall p, q :: 0 <= p < PercentageCount(percentage, |sorted|) <= q < |sorted|
        ==> sorted[p].width <= sorted[q].width
    ensures weightThreshold <= 0.0 && percentage <= 0.0 ==> Kept(sorted, weightThreshold, percentage) == sorted
  {
    WiderProperties(sorted, weightThreshold);
  }

  /** The degree of a label in a node map; 0 for a label not in it. */
  function Degree(nodes: map<string, Node>, lbl: string): int
  {
    if lbl in nodes then nodes[lbl].degree else 0
  }

  /** nodes[lbl].degree++, where operator[] first inserts a default node for
      an unknown label. */
  function Bump(nodes: map<string, Node>, lbl: string): map<string, Node>
  {
    var n := if lbl in nodes then nodes[lbl] else DefaultNode;
    nodes[lbl := n.(degree := n.degree + 1)]
  }

  /** Bump adds the label, raises its degree by one, keeps or creates its
      position, and leaves every other node as it was. */
  lemma BumpProperties(nodes: map<string, Node>, lbl: string)
    ensures Bump(nodes, lbl).Keys == nodes.Keys + {lbl}
    ensures Degree(Bump(nodes, lbl), lbl) == Degree(nodes, lbl) + 1
    ensures forall l :: l != lbl ==> Degree(Bump(nodes, lbl), l) == Degree(nodes, l)
    ensures forall l :: l != lbl && l in nodes ==> Bump(nodes, lbl)[l] == nodes[l]
    ensures Bump(nodes, lbl)[lbl].pos == (if lbl in nodes then nodes[lbl].pos else Zero)
  {
  }

  /** The node map after both endpoint degrees of every edge are incremented. */
  function AddDegrees(nodes: map<string, Node>, es: seq<Edge>): map<string, Node>
  {
    if |es| == 0 then nodes
    else
      var e := es[|es| - 1];
      Bump(Bump(AddDegrees(nodes, es[..|es| - 1]), e.sourceLabel), e.targetLabel)
  }

  /** How often a label occurs as an endpoint of the edges. */
  function Occurrences(es: seq<Edge>, lbl: string): nat
  {
    if |es| == 0 then 0
    else Occurrences(es[..|es| - 1], lbl)
         + (if es[|es| - 1].sourceLabel == lbl then 1 else 0)
         + (if es[|es| - 1].targetLabel == lbl then 1 else 0)
  }

  /** The labels of the edges' endpoints. */
  function Labels(es: seq<Edge>): set<string>
  {
    if |es| == 0 then {}
    else Labels(es[..|es| - 1]) + {es[|es| - 1].sourceLabel, es[|es| - 1].targetLabel}
  }

  /** Every degree grows by the number of edge ends at that label. */
  lemma {:induction false} AddDegreesDegree(nodes: map<string, Node>, es: seq<Edge>, l: string)
    ensures Degree(AddDegrees(nodes, es), l) == Degree(nodes, l) + Occurrences(es, l)
  {
    if |es| > 0 {
      var e := es[|es| - 1];
      var mid := AddDegrees(nodes, es[..|es| - 1]);
      AddDegreesDegree(nodes, es[..|es| - 1], l);
      BumpProperties(mid, e.sourceLabel);
      BumpProperties(Bump(mid, e.sourceLabel), e.targetLabel);
    }
  }

  /** Nodes appear exactly for the labels of the edges that were not there. */
  lemma {:induction false} AddDegreesKeys(nodes: map<string, Node>, es: seq<Edge>)
    ensures AddDegrees(nodes, es).Keys == nodes.Keys + Labels(es)
  {
    if |es| > 0 {
      var init := es[..|es| - 1];
      var e := es[|es| - 1];
      AddDegreesKeys(nodes, init);
      var mid := AddDegrees(nodes, init);
      BumpProperties(mid, e.sourceLabel);
      BumpProperties(Bump(mid, e.sourceLabel), e.targetLabel);
    }
  }

  /** Existing nodes keep their positions, and new ones sit at the origin. */
  lemma {:induction false} AddDegreesPositions(nodes: map<string, Node>, es: seq<Edge>, l: string)
    requires l in AddDegrees(nodes, es)
    ensures AddDegrees(nodes, es)[l].pos == (if l in nodes then nodes[l].pos else Zero)
  {
    if |es| > 0 {
      var init := es[..|es| - 1];
      var e := es[|es| - 1];
      var mid := AddDegrees(nodes, init);
      var b := Bump(mid, e.sourceLabel);
      assert AddDegrees(nodes, es) == Bump(b, e.targetLabel);
      AddDegreesKeys(nodes, init);
      BumpProperties(mid, e.sourceLabel);
      BumpProperties(b, e.targetLabel);
      if l in mid {
        AddDegreesPositions(nodes, init, l);
      }
      if l in b {
        assert b[l].pos == (if l in nodes then nodes[l].pos else Zero);
      }
    }
  }

  /** The sum of the occurrence counts over a list of distinct labels. */
  function SumOccurrences(es: seq<Edge>, labels: seq<string>): int
  {
    if |labels| == 0 then 0
    else SumOccurrences(es, labels[..|labels| - 1]) + Occurrences(es, labels[|labels| - 1])
  }

  /** Summing (l == x ? 1 : 0) over distinct labels gives 1 if x is among them. */
  function Indicator(labels: seq<string>, x: string): int
  {
    if |labels| == 0 then 0
    else Indicator(labels[..|labels| - 1], x) + (if labels[|labels| - 1] == x then 1 else 0)
  }

  lemma {:induction false} IndicatorDistinct(labels: seq<string>, x: string)
    requires forall p, q :: 0 <= p < q < |labels| ==> labels[p] != labels[q]
    ensures Indicator(labels, x) == (if x in labels then 1 else 0)
  {
    if |labels| > 0 {
      var init := labels[..|labels| - 1];
      IndicatorDistinct(init, x);
      assert labels == init + [labels[|labels| - 1]];
    }
  }

  /** Adding one edge adds its two ends to the occurrence sum. */
  lemma {:induction false} SumOccurrencesStep(es: seq<Edge>, e: Edge, labels: seq<string>)
    ensures SumOccurrences(es + [e], labels)
         == SumOccurrences(es, labels) + Indicator(labels, e.sourceLabel) + Indicator(labels, e.targetLabel)
  {
    if |labels| > 0 {
      SumOccurrencesStep(es, e, labels[..|labels| - 1]);
      assert (es + [e])[..|es + [e]| - 1] == es;
    }
  }

  /** Each kept edge adds 2 to the total degree: summed over any list of
      distinct labels that includes every endpoint, the degree increase is
      twice the number of edges. */
  lemma {:induction false} TotalDegreeIncrease(es: seq<Edge>, labels: seq<string>)
    requires forall p, q :: 0 <= p < q < |labels| ==> labels[p] != labels[q]
    requires forall e :: e in es ==> e.sourceLabel in labels && e.targetLabel in labels
    ensures SumOccurrences(es, labels) == 2 * |es|
  {
    if |es| == 0 {
      SumOccurrencesZero(labels);
    } else {
      var init := es[..|es| - 1];
      var e := es[|es| - 1];
      assert es == init + [e];
      TotalDegreeIncrease(init, labels);
      SumOccurrencesStep(init, e, labels);
      IndicatorDistinct(labels, e.sourceLabel);
      IndicatorDistinct(labels, e.targetLabel);
    }
  }

  lemma {:induction false} SumOccurrencesZero(labels: seq<string>)
    ensures SumOccurrences([], labels) == 0
  {
    if |labels| > 0 {
      SumOccurrencesZero(labels[..|labels| - 1]);
    }
  }

  /** The edges with their widths multiplied by 1 / (wmax + 1). */
  function ScaledWidths(es: seq<Edge>, wmax: int): (r: seq<Edge>)
    requires wmax != -1
    ensures |r| == |es|
  {
    seq(|es|, i requires 0 <= i < |es| => es[i].(width := Mul(es[i].width, 1.0 / (wmax as real + 1.0))))
  }

  /** The smallest width of a non-empty list of edges. */
  function MinWidth(es: seq<Edge>): real
    requires |es| > 0
  {
    if |es| == 1 then es[0].width else Min(MinWidth(es[..|es| - 1]), es[|es| - 1].width)
  }

  /** wmax is the int-truncated width of the first edge after the ascending
      sort, the smallest width, so the widths of heavier edges can end above
      1: two edges of widths 1 and 3 give wmax = 1 and a scaled width of 1.5. */
  lemma ScaledWidthCanExceedOne()
    ensures var es := [Edge("a", "b", Zero, Vec2D(1.0, 0.0), [], 1.0, []),
                       Edge("c", "d", Zero, Vec2D(0.0, 1.0), [], 3.0, [])];
            && SortedByWidth(es)
            && TruncToInt(es[0].width) == 1
            && ScaledWidths(es, TruncToInt(es[0].width))[1].width == 1.5
  {
  }

  /** The std::sort call of Graph::Set, ascending by width: an insertion sort
      on the caller's array.  Edges of equal width may end in any order. */
  method SortByWidth(a: array<Edge>)
    modifies a
    ensures SortedByWidth(a[..])
    ensures multiset(a[..]) == multiset(old(a[..]))
  {
    for i := 0 to a.Length
      invariant SortedByWidth(a[..i])
      invariant multiset(a[..]) == multiset(old(a[..]))
    {
      InsertLast(a, i);
    }
    assert a[..a.Length] == a[..];
  }

  /** One step of the insertion sort: a[i] moves left past the wider edges,
      so the prefix a[..i + 1] becomes sorted. */
  method InsertLast(a: array<Edge>, i: int)
    requires 0 <= i < a.Length && SortedByWidth(a[..i])
    modifies a
    ensures SortedByWidth(a[..i + 1])
    ensures multiset(a[..]) == multiset(old(a[..]))
  {
    InsertingStart(a[..], i);
    var j := i;
    while j > 0 && a[j - 1].width > a[j].width
      invariant Inserting(a[..], i, j)
      invariant multiset(a[..]) == multiset(old(a[..]))
    {
      ghost var before := a[..];
      InsertingStep(before, i, j);
      a[j - 1], a[j] := a[j], a[j - 1];
      assert a[..] == Swapped(before, j);
      j := j - 1;
    }
    InsertingDone(a[..], i, j);
  }

  /** s with the neighbours at j - 1 and j exchanged. */
  function Swapped(s: seq<Edge>, j: int): (r: seq<Edge>)
    requires 0 < j < |s|
    ensures |r| == |s| && r[j - 1] == s[j] && r[j] == s[j - 1]
  {
    s[j - 1 := s[j]][j := s[j - 1]]
  }

  /** The state of the insertion of s[..i + 1] while the inserted edge sits at
      j: apart from position j the prefix is sorted, and the edge at j is no
      wider than any edge after it up to i. */
  predicate Inserting(s: seq<Edge>, i: int, j: int)
  {
    0 <= j <= i < |s|
    && (forall p, q :: 0 <= p < q <= i && p != j && q != j ==> s[p].width <= s[q].width)
    && (forall q :: j < q <= i ==> s[j].width <= s[q].width)
  }

  lemma InsertingStart(s: seq<Edge>, i: int)
    requires 0 <= i < |s| && SortedByWidth(s[..i])
    ensures Inserting(s, i, i)
  {
    forall p, q | 0 <= p < q <= i && p != i && q != i
      ensures s[p].width <= s[q].width
    {
      assert s[p] == s[..i][p] && s[q] == s[..i][q];
    }
  }

  /** Swapping the inserted edge with a wider left neighbour keeps the
      insertion state one position to the left, and the edges. */
  lemma InsertingStep(s: seq<Edge>, i: int, j: int)
    requires Inserting(s, i, j) && 0 < j && s[j - 1].width > s[j].width
    ensures Inserting(Swapped(s, j), i, j - 1)
    ensures multiset(Swapped(s, j)) == multiset(s)
  {
    assert s == s[..j - 1] + [s[j - 1], s[j]] + s[j + 1..];
    assert Swapped(s, j) == s[..j - 1] + [s[j], s[j - 1]] + s[j + 1..];
  }

  /** Once the left neighbour is no wider, the prefix is sorted. */
  lemma InsertingDone(s: seq<Edge>, i: int, j: int)
    requires Inserting(s, i, j) && (j == 0 || s[j - 1].width <= s[j].width)
    ensures SortedByWidth(s[..i + 1])
  {
  }

  /** The first edge of a sorted permutation has the smallest width of the
      original edges, and is one of them. */
  lemma SortedFirstIsLightest(sorted: seq<Edge>, original: seq<Edge>)
    requires |sorted| > 0 && SortedByWidth(sorted) && multiset(sorted) == multiset(original)
    ensures sorted[0] in original
    ensures forall e :: e in original ==> sorted[0].width <= e.width
  {
    assert sorted[0] in multiset(sorted);
    forall e | e in original
      ensures sorted[0].width <= e.width
    {
      assert e in multiset(original);
      var q :| 0 <= q < |sorted| && sorted[q] == e;
    }
  }

  /** No lightest edge has a width that truncates to -1: the divisor
      wmax + 1 of Graph::Set is then not zero. */
  predicate LightestNotMinusOne(es: seq<Edge>)
  {
    forall i :: 0 <= i < |es| && (forall j :: 0 <= j < |es| ==> es[i].width <= es[j].width)
      ==> TruncToInt(es[i].width) != -1
  }

  lemma {:induction false} SortedDivisor(sorted: seq<Edge>, original: seq<Edge>)
    requires |sorted| > 0 && SortedByWidth(sorted) && multiset(sorted) == multiset(original)
    requires LightestNotMinusOne(original)
    ensures TruncToInt(sorted[0].width) != -1
  {
    SortedFirstIsLightest(sorted, original);
    var i :| 0 <= i < |original| && original[i] == sorted[0];
    forall j | 0 <= j < |original|
      ensures original[i].width <= original[j].width
    {
      assert original[j] in original;
    }
  }

  /** Appending one edge to the list of counted edges adds both its ends. */
  lemma AddDegreesSnoc(nodes: map<string, Node>, es: seq<Edge>, e: Edge)
    ensures AddDegrees(nodes, es + [e]) == Bump(Bump(AddDegrees(nodes, es), e.sourceLabel), e.targetLabel)
  {
    assert (es + [e])[..|es|] == es;
  }

  /** Extending the prefix of the input by one edge extends the filtered list
      by that edge when it is wide enough, and the degrees by its ends. */
  lemma WiderStep(nodes: map<string, Node>, es: seq<Edge>, i: int, threshold: real)
    requires 0 <= i < |es|
    ensures es[i].width > threshold ==>
      Wider(es[..i + 1], threshold) == Wider(es[..i], threshold) + [es[i]]
      && AddDegrees(nodes, Wider(es[..i + 1], threshold))
         == Bump(Bump(AddDegrees(nodes, Wider(es[..i], threshold)), es[i].sourceLabel), es[i].targetLabel)
    ensures es[i].width <= threshold ==> Wider(es[..i + 1], threshold) == Wider(es[..i], threshold)
  {
    assert es[..i + 1][..i] == es[..i];
    if es[i].width > threshold {
      AddDegreesSnoc(nodes, Wider(es[..i], threshold), es[i]);
    }
  }

  /** One turn of the weight filter's loop: edge e == all[i] is appended,
      and its end degrees incremented, when it is wider than the threshold. */
  method WiderTurn(ghost edges: seq<Edge>, ghost nodes: map<string, Node>, ghost all: seq<Edge>, i: int, threshold: real,
                   e: Edge, es: seq<Edge>, ns: map<string, Node>)
    returns (es': seq<Edge>, ns': map<string, Node>)
    requires 0 <= i < |all| && e == all[i]
    requires es == edges + Wider(all[..i], threshold) && ns == AddDegrees(nodes, Wider(all[..i], threshold))
    ensures es' == edges + Wider(all[..i + 1], threshold) && ns' == AddDegrees(nodes, Wider(all[..i + 1], threshold))
  {
    WiderStep(nodes, all, i, threshold);
    es', ns' := es, ns;
    if e.width > threshold {
      assert es + [e] == edges + (Wider(all[..i], threshold) + [e]);
      es' := es + [e];
      ns' := Bump(ns, e.sourceLabel);
      ns' := Bump(ns', e.targetLabel);
    }
  }

  // ---------------------------------------------------------------------
  // The graph

  /** The parameters of the bundling algorithm, as one value. */
  datatype Params = Params(k: real, i: int, iter: int, cycles: int,
                           compatibilityThreshold: real, smoothWidth: real,
                           s: real, edgeDistance: real, gravitationIsOn: bool,
                           gravitationCenter: Vec2D, gravitationExponent: real,
                           edgeWeightThreshold: real, edgePercentageThreshold: real,
                           edgeOpacity: real)

  /** GraphViser::Graph. */
  class Graph {
    var nodes: map<string, Node>
    var edges: seq<Edge>
    var K: real
    var I: int
    var iter: int
    var cycles: int
    var compatibilityThreshold: real
    var smoothWidth: real
    var S: real
    var edgeDistance: real
    var gravitationIsOn: bool
    var gravitationCenter: Vec2D
    var gravitationExponent: real
    var edgeWeightThreshold: real
    var edgePercentageThreshold: real
    var edgeOpacity: real
    /** The math library the geometry is computed with. */
    const m: Libm

    function Parameters(): Params
      reads this
    {
      Params(K, I, iter, cycles, compatibilityThreshold, smoothWidth, S, edgeDistance,
             gravitationIsOn, gravitationCenter, gravitationExponent,
             edgeWeightThreshold, edgePercentageThreshold, edgeOpacity)
    }

    function PhysicsOf(): Physics
      reads this
    {
      Physics(K, S, edgeDistance, gravitationIsOn, gravitationCenter, gravitationExponent)
    }

    /** The defaults of Graph(). */
    constructor(m: Libm)
      ensures this.m == m && nodes == map[] && edges == []
      ensures Parameters() == Params(0.000001, 10, 10, 6, 0.6, 30.0, 0.000001, 0.0001, false,
                                     Zero, -2.0, -1.0, -1.0, 0.1)
    {
      this.m := m;
      nodes := map[];
      edges := [];
      K := 0.000001;
      I := 10;
      iter := I;
      cycles := 6;
      compatibilityThreshold := 0.6;
      smoothWidth := 30.0;
      S := 0.000001;
      edgeDistance := 0.0001;
      gravitationIsOn := false;
      gravitationCenter := Vec2D(0.0, 0.0);
      gravitationExponent := -2.0;
      edgeWeightThreshold := -1.0;
      edgePercentageThreshold := -1.0;
      edgeOpacity := 0.1;
    }

    /** A positive weight threshold is taken in preference to the percentage;
      non-positive arguments are ignored. */
    method SetNetworkParams(weightThreshold: real, percentage: real)
      modifies this
      ensures nodes == old(nodes) && edges == old(edges)
      ensures weightThreshold > 0.0 ==> Parameters() == old(Parameters()).(edgeWeightThreshold := weightThreshold)
      ensures weightThreshold <= 0.0 && percentage > 0.0
          ==> Parameters() == old(Parameters()).(edgePercentageThreshold := percentage)
      ensures weightThreshold <= 0.0 && percentage <= 0.0 ==> Parameters() == old(Parameters())
    {
      if weightThreshold > 0.0 {
        edgeWeightThreshold := weightThreshold;
      } else if percentage > 0.0 {
        edgePercentageThreshold := percentage;
      }
    }

    /** Sets the algorithm parameters and restarts the iteration count at I. */
    method SetAlgorithmParams(k: real, cycles': int, i0: int, compat: real, sigma: real)
      modifies this`K, this`cycles, this`I, this`iter, this`compatibilityThreshold, this`smoothWidth
      ensures nodes == old(nodes) && edges == old(edges)
      ensures Parameters() == old(Parameters()).(k := k, cycles := cycles', i := i0, iter := i0,
                                                compatibilityThreshold := compat, smoothWidth := sigma)
    {
      K := k;
      cycles := cycles';
      I := i0;
      iter := I;
      compatibilityThreshold := compat;
      smoothWidth := sigma;
    }

    method SetPhysicsParams(s0: real, distance: real, center: Vec2D, exponent: real)
      modifies this`S, this`edgeDistance, this`gravitationCenter, this`gravitationExponent
      ensures nodes == old(nodes) && edges == old(edges)
      ensures Parameters() == old(Parameters()).(s := s0, edgeDistance := distance,
                                                gravitationCenter := center, gravitationExponent := exponent)
    {
      S := s0;
      edgeDistance := distance;
      gravitationCenter := center;
      gravitationExponent := exponent;
    }

    method EnableGravitation()
      modifies this
      ensures nodes == old(nodes) && edges == old(edges)
      ensures Parameters() == old(Parameters()).(gravitationIsOn := true)
    {
      gravitationIsOn := true;
    }

    method SetGraphicsParams(alpha: real)
      modifies this
      ensures nodes == old(nodes) && edges == old(edges)
      ensures Parameters() == old(Parameters()).(edgeOpacity := alpha)
    {
      edgeOpacity := alpha;
    }

    /** Appends to every edge's list the compatible edges, pairs (i, j) with
      i < j taken in order; existing entries are kept. */
    method BuildCompatibilityLists()
      modifies this
      ensures edges == WithPartners(m, compatibilityThreshold, old(edges))
      ensures nodes == old(nodes) && Parameters() == old(Parameters())
    {
      edges := CompatibilityLists(m, compatibilityThreshold, edges);
    }

    /** One bundling iteration: all forces are computed from the current edges,
      then every edge is updated; the remaining iteration count drops by one
      and is returned.  Every edge needs as many points as the first, whose
      count sizes the force buffers, and at least one. */
    method Iterate() returns (r: int)
      requires |edges| > 0 && |edges[0].subdivs| >= 1
      requires ReadyToIterate(m, edges, |edges[0].subdivs|)
      modifies this
      ensures edges == Iterated(m, old(edges), |old(edges)[0].subdivs|, old(PhysicsOf()))
      ensures nodes == old(nodes) && Parameters() == old(Parameters()).(iter := old(iter) - 1)
      ensures r == iter
    {
      edges := IterateEdges(m, edges, |edges[0].subdivs|, PhysicsOf());
      iter := iter - 1;
      return iter;
    }

    /** The end of a cycle: the step S halves, the iterations per cycle drop to
      2I/3 (integer division), the count restarts, and the number of cycles
      left drops by one and is returned. */
    method UpdateCycle() returns (r: int)
      modifies this
      ensures nodes == old(nodes) && edges == old(edges)
      ensures Parameters() == old(Parameters()).(s := old(S) * 0.5, i := TruncDiv(2 * old(I), 3),
                                                iter := TruncDiv(2 * old(I), 3), cycles := old(cycles) - 1)
      ensures r == cycles
    {
      S := S * 0.5;
      I := TruncDiv(2 * I, 3);
      iter := I;
      cycles := cycles - 1;
      return cycles;
    }

    /** Doubles the subdivision of every edge (a fresh edge gets its midpoint). */
    method AddSubvisions()
      modifies this
      ensures |edges| == |old(edges)|
      ensures forall i :: 0 <= i < |edges| ==>
        edges[i] == old(edges)[i].(subdivs := edges[i].subdivs)
        && edges[i].subdivs == Resubdivided(old(edges)[i])
        && |edges[i].subdivs| == SubdivisionCount(|old(edges)[i].subdivs|)
      ensures nodes == old(nodes) && Parameters() == old(Parameters())
    {
      var edgesNum := |edges|;
      var es := edges;
      for i := 0 to edgesNum
        invariant |es| == edgesNum
        invariant forall k :: 0 <= k < i ==>
          es[k] == edges[k].(subdivs := es[k].subdivs)
          && es[k].subdivs == Resubdivided(edges[k])
          && |es[k].subdivs| == SubdivisionCount(|edges[k].subdivs|)
        invariant forall k :: i <= k < edgesNum ==> es[k] == edges[k]
        modifies {}
      {
        var e := AddSubdivisions(es[i]);
        es := es[i := e];
      }
      edges := es;
    }

    /** Smooths every edge with the configured width. */
    method Smooth()
      requires Lawful(m) && smoothWidth != 0.0
      modifies this
      ensures nodes == old(nodes) && Parameters() == old(Parameters())
      ensures edges == SmoothedEdges(m, old(edges), smoothWidth)
    {
      var edgesNum := |edges|;
      var es := edges;
      for i := 0 to edgesNum
        invariant |es| == edgesNum
        invariant forall k :: 0 <= k < i ==> es[k] == SmoothedEdge(m, edges[k], smoothWidth)
        invariant forall k :: i <= k < edgesNum ==> es[k] == edges[k]
        modifies {}
      {
        var e := GraphIO.Smooth(m, es[i], smoothWidth);
        es := es[i := e];
      }
      edges := es;
    }

    /** Loads a network: the node map is replaced by myNodes; the caller's
      edges are sorted by width in place; the kept edges are appended to
      the edge list and both end degrees of each are incremented; every
      width is multiplied by 1 / (wmax + 1), wmax being the truncated width
      of the first sorted edge; and the compatibility lists are built.  The
      code reads myEdges[0], so the array must not be empty; the percentage
      filter must not ask for more edges than there are, and the divisor
      must not be zero. */
    method Set(myNodes: map<string, Node>, myEdges: array<Edge>)
      requires myEdges.Length > 0
      requires LightestNotMinusOne(myEdges[..])
      requires edgeWeightThreshold <= 0.0 && edgePercentageThreshold > 0.0
           ==> PercentageCount(edgePercentageThreshold, myEdges.Length) <= myEdges.Length
      modifies this, myEdges
      ensures Parameters() == old(Parameters())
      ensures SortedByWidth(myEdges[..]) && multiset(myEdges[..]) == multiset(old(myEdges[..]))
      ensures TruncToInt(myEdges[0].width) != -1
      ensures nodes == AddDegrees(myNodes, Kept(myEdges[..], edgeWeightThreshold, edgePercentageThreshold))
      ensures edges == WithPartners(m, compatibilityThreshold,
                         ScaledWidths(old(edges) + Kept(myEdges[..], edgeWeightThreshold, edgePercentageThreshold),
                                      TruncToInt(myEdges[0].width)))
    {
      nodes := myNodes;
      SortByWidth(myEdges);
      SortedDivisor(myEdges[..], old(myEdges[..]));
      var wmax := TruncToInt(myEdges[0].width);
      AppendKept(myEdges);
      ScaleWidths(wmax);
      BuildCompatibilityLists();
    }

    /** The three filters of Graph::Set: by weight when a weight threshold is
      set, else by percentage when one is set, else every edge. */
    method AppendKept(myEdges: array<Edge>)
      requires edgeWeightThreshold <= 0.0 && edgePercentageThreshold > 0.0
           ==> PercentageCount(edgePercentageThreshold, myEdges.Length) <= myEdges.Length
      modifies this`edges, this`nodes
      ensures Parameters() == old(Parameters())
      ensures edges == old(edges) + Kept(myEdges[..], edgeWeightThreshold, edgePercentageThreshold)
      ensures nodes == AddDegrees(old(nodes), Kept(myEdges[..], edgeWeightThreshold, edgePercentageThreshold))
    {
      if edgeWeightThreshold > 0.0 {
        AppendWider(myEdges);
      } else if edgePercentageThreshold > 0.0 {
        var nEdges := PercentageCount(edgePercentageThreshold, myEdges.Length);
        AppendFirst(myEdges, nEdges);
        assert myEdges[..nEdges] == myEdges[..][..nEdges];
      } else {
        AppendFirst(myEdges, myEdges.Length);
        assert myEdges[..myEdges.Length] == myEdges[..];
      }
    }

    /** The weight filter of Graph::Set: every edge wider than the threshold
      is appended, and its end degrees incremented. */
    method AppendWider(myEdges: array<Edge>)
      modifies this`edges, this`nodes
      ensures Parameters() == old(Parameters())
      ensures edges == old(edges) + Wider(myEdges[..], edgeWeightThreshold)
      ensures nodes == AddDegrees(old(nodes), Wider(myEdges[..], edgeWeightThreshold))
    {
      var es, ns := edges, nodes;
      ghost var all := myEdges[..];
      for i := 0 to myEdges.Length
        invariant es == edges + Wider(all[..i], edgeWeightThreshold)
        invariant ns == AddDegrees(nodes, Wider(all[..i], edgeWeightThreshold))
        modifies {}
      {
        es, ns := WiderTurn(edges, nodes, all, i, edgeWeightThreshold, myEdges[i], es, ns);
      }
      assert all[..myEdges.Length] == all;
      edges, nodes := es, ns;
    }

    /** The percentage filter of Graph::Set, and its take-all case: the first
      n edges are appended, and their end degrees incremented. */
    method AppendFirst(myEdges: array<Edge>, n: int)
      requires 0 <= n <= myEdges.Length
      modifies this`edges, this`nodes
      ensures Parameters() == old(Parameters())
      ensures edges == old(edges) + myEdges[..n]
      ensures nodes == AddDegrees(old(nodes), myEdges[..n])
    {
      var es, ns := edges, nodes;
      for i := 0 to n
        invariant es == edges + myEdges[..i] && ns == AddDegrees(nodes, myEdges[..i])
        modifies {}
      {
        AddDegreesSnoc(nodes, myEdges[..i], myEdges[i]);
        assert myEdges[..i + 1] == myEdges[..i] + [myEdges[i]];
        es := es + [myEdges[i]];
        ns := Bump(ns, myEdges[i].sourceLabel);
        ns := Bump(ns, myEdges[i].targetLabel);
      }
      edges, nodes := es, ns;
    }

    /** The width normalisation of Graph::Set, over all edges of the graph. */
    method ScaleWidths(wmax: int)
      requires wmax != -1
      modifies this`edges, this`nodes
      ensures Parameters() == old(Parameters()) && nodes == old(nodes)
      ensures edges == ScaledWidths(old(edges), wmax)
    {
      var edgesNum := |edges|;
      var es := edges;
      for i := 0 to edgesNum
        invariant |es| == edgesNum
        invariant forall k :: 0 <= k < i ==> es[k] == ScaledWidths(edges, wmax)[k]
        invariant forall k :: i <= k < edgesNum ==> es[k] == edges[k]
        modifies {}
      {
        es := es[i := es[i].(width := Mul(es[i].width, 1.0 / (wmax as real + 1.0)))];
      }
      edges := es;
    }
  }

  /** Every edge smoothed with the same width. */
  function SmoothedEdges(m: Libm, es: seq<Edge>, sigma: real): (r: seq<Edge>)
    requires Lawful(m) && sigma != 0.0
    ensures |r| == |es|
  {
    seq(|es|, i requires 0 <= i < |es| => SmoothedEdge(m, es[i], sigma))
  }

  /** The points of an edge after Edge::AddSubdivisions: its midpoint when it
      has none, otherwise the doubled resampling of its polyline. */
  function Resubdivided(e: Edge): (s: seq<Vec2D>)
    ensures |s| == SubdivisionCount(|e.subdivs|)
  {
    if |e.subdivs| == 0 then [Center(e.start, e.end)] else Doubled(e)
  }

  /** The number of points after AddSubdivisions on n points. */
  function SubdivisionCount(n: nat): nat
  {
    if n == 0 then 1 else 2 * n
  }

  /** Doubling keeps equal counts equal, so a network whose edges all have the
      same number of points keeps that property through AddSubvisions. */
  lemma SubdivisionCountUniform(counts: seq<nat>)
    requires forall i :: 0 <= i < |counts| ==> counts[i] == counts[0]
    ensures forall i :: 0 <= i < |counts| ==> SubdivisionCount(counts[i]) == SubdivisionCount(counts[0])
  {
  }

  /** The compatibility of two edges depends only on their geometry, not on
      their compatibility lists. */
  lemma CompatibilityIgnoresLists(m: Libm, e1: Edge, e2: Edge, l1: seq<int>, l2: seq<int>)
    ensures CompatibilityScore(m, e1.(compatibleEdges := l1), e2.(compatibleEdges := l2))
         == CompatibilityScore(m, e1, e2)
  {
  }
}
