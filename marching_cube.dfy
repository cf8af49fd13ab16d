// The CPU marching-cubes renderer: voxel indexing and clamped sampling, the
// classification of a cube's eight corners, vertex interpolation along a cube
// edge, the index buffer and edge set built voxel by voxel (with vertices
// shared with the already visited neighbours), the range setters and the
// registry of volumes.
//
// Corners of the cube at voxel (x, y, z) are numbered as in the code: 0 to 3
// counter-clockwise in slice z starting at (x, y), 4 to 7 likewise in slice
// z + 1.  The triangle table and the vertex-count table are not part of this
// model; they are parameters (`Tables`).
module MarchingCube {
  import opened Numerics
  import VoxelIndex

  // ---------------------------------------------------------------------
  // The volume

  /** Scalar data in Z-Y-X order with its three extents. */
  datatype Volume = Volume(dat: seq<real>, dimX: nat, dimY: nat, dimZ: nat)

  /** The data holds exactly dimX * dimY * dimZ scalars, none of the extents
      zero (sample clamps to dim - 1 in unsigned arithmetic). */
  predicate WellFormed(g: Volume)
  {
    g.dimX > 0 && g.dimY > 0 && g.dimZ > 0 && |g.dat| == g.dimZ * (g.dimY * g.dimX)
  }

  /** vox2Flat: the index of voxel (x, y, z). */
  function Flat(g: Volume, x: nat, y: nat, z: nat): nat
  {
    VoxelIndex.Flat(g.dimX, g.dimY, x, y, z)
  }

  /** The voxel a flat index stands for, decoded as the voxel loop does
      (its i - z * dimYxX is the remainder i % dimYxX, and likewise for y). */
  function Decode(g: Volume, i: nat): (v: (nat, nat, nat))
    requires g.dimX > 0 && g.dimY > 0
  {
    VoxelIndex.Decode(g.dimX, g.dimY, i)
  }

  /** The flat index sample reads: each coordinate clamped to its extent. */
  function SampleIndex(g: Volume, x: nat, y: nat, z: nat): (i: nat)
    requires WellFormed(g)
    ensures i < |g.dat|
    ensures x < g.dimX && y < g.dimY && z < g.dimZ ==> i == Flat(g, x, y, z)
  {
    var cx := if x < g.dimX - 1 then x else g.dimX - 1;
    var cy := if y < g.dimY - 1 then y else g.dimY - 1;
    var cz := if z < g.dimZ - 1 then z else g.dimZ - 1;
    VoxelIndex.FlatInBounds(g.dimX, g.dimY, g.dimZ, cx, cy, cz);
    Flat(g, cx, cy, cz)
  }

  /** sample: the scalar at the clamped voxel. */
  function Sample(g: Volume, x: nat, y: nat, z: nat): real
    requires WellFormed(g)
  {
    g.dat[SampleIndex(g, x, y, z)]
  }

  /** The offsets of cube corner k from the cube's voxel. */
  function CornerDx(k: nat): nat { if k % 4 == 1 || k % 4 == 2 then 1 else 0 }
  function CornerDy(k: nat): nat { if k % 4 == 2 || k % 4 == 3 then 1 else 0 }
  function CornerDz(k: nat): nat { if k >= 4 then 1 else 0 }

  /** cmptField: the eight corner scalars of the cube at (x, y, z). */
  function Field(g: Volume, x: nat, y: nat, z: nat): (f: seq<real>)
    requires WellFormed(g)
    ensures |f| == 8
  {
    seq(8, k requires 0 <= k < 8 => Sample(g, x + CornerDx(k), y + CornerDy(k), z + CornerDz(k)))
  }

  // ---------------------------------------------------------------------
  // Cube classification

  /** Bit k of n: n halved k times is odd. */
  predicate BitOf(n: nat, k: nat)
  {
    if k == 0 then n % 2 == 1 else BitOf(n / 2, k - 1)
  }

  /** 2 to the k. */
  function Pow(k: nat): (p: nat)
    ensures p > 0
  {
    if k == 0 then 1 else 2 * Pow(k - 1)
  }

  /** The bits of the cube index from corner j upward: bit 0 is corner j. */
  function CubeIndexFrom(f: seq<real>, iso: real, j: nat): nat
    requires |f| == 8 && j <= 8
    decreases 8 - j
  {
    if j == 8 then 0 else (if f[j] < iso then 1 else 0) + 2 * CubeIndexFrom(f, iso, j + 1)
  }

  lemma {:induction false} CubeIndexFromBits(f: seq<real>, iso: real, j: nat)
    requires |f| == 8 && j <= 8
    ensures CubeIndexFrom(f, iso, j) < Pow(8 - j)
    ensures forall k :: 0 <= k < 8 - j ==> (BitOf(CubeIndexFrom(f, iso, j), k) <==> f[j + k] < iso)
    decreases 8 - j
  {
    if j < 8 {
      CubeIndexFromBits(f, iso, j + 1);
      var n := CubeIndexFrom(f, iso, j);
      assert n % 2 == (if f[j] < iso then 1 else 0);
      assert n / 2 == CubeIndexFrom(f, iso, j + 1);
      forall k | 0 < k < 8 - j
        ensures BitOf(n, k) <==> f[j + k] < iso
      {
        assert BitOf(n, k) == BitOf(n / 2, k - 1);
        assert f[j + k] == f[(j + 1) + (k - 1)];
      }
    }
  }

  /** cmptCubeIdx: bit k is set exactly when corner k lies below the
      iso-value, so the index is one of the 256 cube cases. */
  function CubeIdx(f: seq<real>, iso: real): (c: nat)
    requires |f| == 8
    ensures c < 256
    ensures forall k :: 0 <= k < 8 ==> (BitOf(c, k) <==> f[k] < iso)
  {
    CubeIndexFromBits(f, iso, 0);
    assert Pow(8) == 256;
    CubeIndexFrom(f, iso, 0)
  }

  /** Corners all at or above the iso-value give case 0, all below case 255. */
  lemma CubeIdxExtremes(f: seq<real>, iso: real)
    requires |f| == 8
    ensures (forall k :: 0 <= k < 8 ==> f[k] >= iso) ==> CubeIdx(f, iso) == 0
    ensures (forall k :: 0 <= k < 8 ==> f[k] < iso) ==> CubeIdx(f, iso) == 255
  {
    if forall k :: 0 <= k < 8 ==> f[k] >= iso {
      assert CubeIndexFrom(f, iso, 8) == 0;
      assert CubeIndexFrom(f, iso, 0) == 0;
    }
    if forall k :: 0 <= k < 8 ==> f[k] < iso {
      assert CubeIndexFrom(f, iso, 8) == 0;
      assert CubeIndexFrom(f, iso, 0) == 255;
    }
  }

  // ---------------------------------------------------------------------
  // Vertex interpolation

  datatype Vec3 = Vec3(x: real, y: real, z: real)
  {
    function Plus(o: Vec3): Vec3 { Vec3(x + o.x, y + o.y, z + o.z) }
    function Minus(o: Vec3): Vec3 { Vec3(x - o.x, y - o.y, z - o.z) }
    function Dot(o: Vec3): real { x * o.x + y * o.y + z * o.z }
  }

  /** The interpolation parameter vertInterp uses: 0 for equal end values. */
  function InterpParam(f0: real, f1: real, iso: real): (t: real)
    ensures f1 != f0 && (f0 <= iso <= f1 || f1 <= iso <= f0) ==> 0.0 <= t <= 1.0
    ensures f1 != f0 ==> (t == 0.0 <==> iso == f0) && (t == 1.0 <==> iso == f1)
  {
    if f1 - f0 == 0.0 then 0.0 else InterpParamBounds(f0, f1, iso); (iso - f0) / (f1 - f0)
  }

  lemma InterpParamBounds(f0: real, f1: real, iso: real)
    requires f1 != f0
    ensures f0 <= iso <= f1 || f1 <= iso <= f0 ==> 0.0 <= (iso - f0) / (f1 - f0) <= 1.0
    ensures (iso - f0) / (f1 - f0) == 0.0 <==> iso == f0
    ensures (iso - f0) / (f1 - f0) == 1.0 <==> iso == f1
  {
    QuotientFacts(iso - f0, f1 - f0);
  }

  /** q / d, for d != 0, is 0 exactly for q == 0, 1 exactly for q == d, and
      lies in [0, 1] when q lies between 0 and d. */
  lemma QuotientFacts(q: real, d: real)
    requires d != 0.0
    ensures q / d == 0.0 <==> q == 0.0
    ensures q / d == 1.0 <==> q == d
    ensures (0.0 <= q <= d || d <= q <= 0.0) ==> 0.0 <= q / d <= 1.0
  {
    QuotientIsOne(q, d);
    if 0.0 < q <= d {
      DivAtMostOne(q, d);
    } else if d <= q < 0.0 {
      assert q / d == (-q) / (-d);
      DivAtMostOne(-q, -d);
    }
  }

  /** q / d == 1 exactly when q == d. */
  lemma QuotientIsOne(q: real, d: real)
    requires d != 0.0
    ensures q / d == 1.0 <==> q == d
  {
    DivCancels(q, d);
    if q / d == 1.0 {
      assert Mul(q / d, d) == Mul(1.0, d);
    }
    if q == d {
      assert d / d == 1.0;
    }
  }

  /** vertInterp: the point at parameter InterpParam from p0 toward p1. */
  function VertInterp(p0: Vec3, p1: Vec3, f0: real, f1: real, iso: real): Vec3
  {
    var t := InterpParam(f0, f1, iso);
    var d := p1.Minus(p0);
    Vec3(p0.x + t * d.x, p0.y + t * d.y, p0.z + t * d.z)
  }

  /** One coordinate of the interpolated point: a + t * (b - a) is a at t = 0,
      b at t = 1, and lies between a and b for t in [0, 1]. */
  lemma LerpCoord(a: real, b: real, t: real)
    ensures t == 0.0 ==> a + t * (b - a) == a
    ensures t == 1.0 ==> a + t * (b - a) == b
    ensures 0.0 <= t <= 1.0 ==> (a <= a + t * (b - a) <= b || b <= a + t * (b - a) <= a)
  {
    if 0.0 <= t <= 1.0 {
      if a <= b {
        MulMonotone(0.0, t, b - a);
        MulMonotone(t, 1.0, b - a);
      } else {
        MulMonotone(0.0, t, a - b);
        MulMonotone(t, 1.0, a - b);
      }
    }
  }

  /** The interpolated vertex is p0 for equal end values or iso == f0, p1 for
      iso == f1, and otherwise lies in the box spanned by p0 and p1 when iso
      lies between the end values. */
  lemma VertInterpOnEdge(p0: Vec3, p1: Vec3, f0: real, f1: real, iso: real)
    ensures f1 == f0 || iso == f0 ==> VertInterp(p0, p1, f0, f1, iso) == p0
    ensures f1 != f0 && iso == f1 ==> VertInterp(p0, p1, f0, f1, iso) == p1
    ensures f1 != f0 && (f0 <= iso <= f1 || f1 <= iso <= f0) ==>
      var v := VertInterp(p0, p1, f0, f1, iso);
      (p0.x <= v.x <= p1.x || p1.x <= v.x <= p0.x) &&
      (p0.y <= v.y <= p1.y || p1.y <= v.y <= p0.y) &&
      (p0.z <= v.z <= p1.z || p1.z <= v.z <= p0.z)
  {
    var t := InterpParam(f0, f1, iso);
    LerpCoord(p0.x, p1.x, t);
    LerpCoord(p0.y, p1.y, t);
    LerpCoord(p0.z, p1.z, t);
  }

  /** The corner pair of each of the twelve cube edges, as vertList uses them. */
  const EDGE_CORNERS: seq<(nat, nat)> :=
    [(0, 1), (1, 2), (2, 3), (3, 0), (4, 5), (5, 6), (6, 7), (7, 4), (0, 4), (1, 5), (2, 6), (3, 7)]

  /** Corner k of the cube at voxel (x, y, z), in units of the voxel size. */
  function CubeCorner(x: nat, y: nat, z: nat, voxSz: Vec3, k: nat): Vec3
  {
    Vec3((x + CornerDx(k)) as real * voxSz.x, (y + CornerDy(k)) as real * voxSz.y,
         (z + CornerDz(k)) as real * voxSz.z)
  }

  /** vertList: the crossing point on each of the twelve edges. */
  function VertList(x: nat, y: nat, z: nat, voxSz: Vec3, f: seq<real>, iso: real): (l: seq<Vec3>)
    requires |f| == 8
    ensures |l| == 12
  {
    seq(12, e requires 0 <= e < 12 =>
      VertInterp(CubeCorner(x, y, z, voxSz, EDGE_CORNERS[e].0), CubeCorner(x, y, z, voxSz, EDGE_CORNERS[e].1),
                 f[EDGE_CORNERS[e].0], f[EDGE_CORNERS[e].1], iso))
  }

  // ---------------------------------------------------------------------
  // The edge set

  /** std::sort of three indices. */
  function Sort3(a: nat, b: nat, c: nat): (r: (nat, nat, nat))
    ensures r.0 <= r.1 <= r.2
    ensures multiset{r.0, r.1, r.2} == multiset{a, b, c}
  {
    if a <= b then
      (if b <= c then (a, b, c) else if a <= c then (a, c, b) else (c, a, b))
    else
      (if a <= c then (b, a, c) else if b <= c then (b, c, a) else (c, b, a))
  }

  /** The pair (min, max) of two indices. */
  function Ordered(a: nat, b: nat): (nat, nat)
  {
    if a <= b then (a, b) else (b, a)
  }

  /** The three sides of a triangle, each as (smaller, larger). */
  function FaceEdges(a: nat, b: nat, c: nat): set<(nat, nat)>
  {
    {Ordered(a, b), Ordered(a, c), Ordered(b, c)}
  }

  /** addEdges: sorts the triangle's indices and inserts (first, second),
      (first, third) and (second, third) into the edge set, which are its
      three sides in (smaller, larger) form. */
  method AddEdges(edges: set<(nat, nat)>, a: nat, b: nat, c: nat) returns (edges': set<(nat, nat)>)
    ensures edges' == edges + FaceEdges(a, b, c)
  {
    var f := Sort3(a, b, c);
    assert f.0 in multiset{a, b, c} && f.1 in multiset{a, b, c} && f.2 in multiset{a, b, c};
    edges' := edges + {(f.0, f.1)};
    edges' := edges' + {(f.0, f.2)};
    edges' := edges' + {(f.1, f.2)};
  }

  /** The sides of the triangles of an index list, three indices per triangle. */
  function TriangleEdges(idx: seq<nat>): set<(nat, nat)>
  {
    if |idx| < 3 then {} else TriangleEdges(idx[..|idx| - 3]) + FaceEdges(idx[|idx| - 3], idx[|idx| - 2], idx[|idx| - 1])
  }

  // ---------------------------------------------------------------------
  // The mesh built voxel by voxel

  /** The triangle table and the number of its entries each case uses. */
  datatype Tables = Tables(tri: seq<seq<nat>>, num: seq<nat>)

  /** What the voxel loop needs of the tables: 256 cases, whole triangles,
      cube edges 0 to 11. */
  predicate TablesFit(t: Tables)
  {
    && |t.tri| == 256 && |t.num| == 256
    && (forall c :: 0 <= c < 256 ==> t.num[c] % 3 == 0 && t.num[c] <= |t.tri[c]|)
    && (forall c, k :: 0 <= c < 256 && 0 <= k < |t.tri[c]| ==> t.tri[c][k] < 12)
  }

  /** InvalidVIdx, the largest size_t, which no vertex index reaches. */
  const INVALID: int := -1

  /** Every recorded vertex index is INVALID or names a vertex. */
  predicate VertRefs(l: seq<int>, n: nat)
  {
    forall k :: 0 <= k < |l| ==> l[k] == INVALID || 0 <= l[k] < n
  }

  /** vox2VertIndices: twelve entries per voxel, each INVALID or a vertex. */
  predicate VoxTable(vox: seq<seq<int>>, n: nat)
  {
    forall f :: 0 <= f < |vox| ==> |vox[f]| == 12 && VertRefs(vox[f], n)
  }

  /** The squared distance of two points. */
  function DistSq(a: Vec3, b: Vec3): real
  {
    a.Minus(b).Dot(a.Minus(b))
  }

  /** vertDistSqrEps: a fifth of the smallest voxel side, squared. */
  function VertDistSqrEps(voxSz: Vec3): real
  {
    var m := if voxSz.x <= voxSz.y then voxSz.x else voxSz.y;
    var m' := if m <= voxSz.z then m else voxSz.z;
    (m' * 0.2) * (m' * 0.2)
  }

  /** The entry matches the query: a vertex within eps of it. */
  predicate Near(verts: seq<Vec3>, vIdx: int, vert: Vec3, eps: real)
  {
    0 <= vIdx < |verts| && DistSq(vert, verts[vIdx]) <= eps
  }

  /** No vertex of the voxel's list lies within eps of the query. */
  ghost predicate Clear(l: seq<int>, verts: seq<Vec3>, vert: Vec3, eps: real)
  {
    forall k :: 0 <= k < |l| ==> !Near(verts, l[k], vert, eps)
  }

  /** The first entry of a voxel's list that names a vertex within eps of
      the query, or INVALID when none does. */
  function FirstNearIn(l: seq<int>, verts: seq<Vec3>, vert: Vec3, eps: real): (r: int)
    ensures r == INVALID || (r in l && Near(verts, r, vert, eps))
    ensures r == INVALID <==> Clear(l, verts, vert, eps)
  {
    if l == [] then INVALID
    else if Near(verts, l[0], vert, eps) then l[0]
    else
      var r := FirstNearIn(l[1..], verts, vert, eps);
      assert forall k :: 1 <= k < |l| ==> l[k] == l[1..][k - 1];
      r
  }

  /** searchVertIndexInVox: the first vertex of the voxel's twelve that lies
      within eps of the query, or INVALID when none does. */
  method SearchVertIndexInVox(l: seq<int>, verts: seq<Vec3>, vert: Vec3, eps: real) returns (vIdx: int)
    requires VertRefs(l, |verts|)
    ensures vIdx == FirstNearIn(l, verts, vert, eps)
    ensures vIdx == INVALID || exists k :: 0 <= k < |l| && l[k] == vIdx && Clear(l[..k], verts, vert, eps)
    ensures vIdx != INVALID ==> Near(verts, vIdx, vert, eps)
    ensures vIdx == INVALID ==> Clear(l, verts, vert, eps)
  {
    for k := 0 to |l|
      invariant Clear(l[..k], verts, vert, eps)
      invariant FirstNearIn(l[k..], verts, vert, eps) == FirstNearIn(l, verts, vert, eps)
    {
      assert l[k..][1..] == l[k + 1..];
      if l[k] == INVALID {
        assert l[..k + 1] == l[..k] + [l[k]];
        continue;
      }
      if DistSq(vert, verts[l[k]]) <= eps {
        return l[k];
      }
      assert l[..k + 1] == l[..k] + [l[k]];
    }
    assert l[..|l|] == l;
    return INVALID;
  }

  /** The voxel at flat index f, when there is one, holds no vertex within
      eps of the query. */
  ghost predicate ClearAt(vox: seq<seq<int>>, f: nat, verts: seq<Vec3>, vert: Vec3, eps: real)
  {
    f < |vox| ==> Clear(vox[f], verts, vert, eps)
  }

  /** The seven voxels searchVertIndex looks at: offsets -1 or 0 on each axis,
      the voxel itself excluded. */
  predicate Neighbour(x: nat, y: nat, z: nat, nx: nat, ny: nat, nz: nat)
  {
    && (nx == x || nx + 1 == x) && (ny == y || ny + 1 == y) && (nz == z || nz + 1 == z)
    && (nx, ny, nz) != (x, y, z)
  }

  /** A neighbour comes no later than the voxel in the scan order. */
  lemma {:induction false} NeighbourBefore(g: Volume, x: nat, y: nat, z: nat, nx: nat, ny: nat, nz: nat)
    requires x < g.dimX && y < g.dimY && Neighbour(x, y, z, nx, ny, nz)
    ensures Flat(g, nx, ny, nz) < Flat(g, x, y, z)
  {
    var n := g.dimY * g.dimX;
    VoxelIndex.MulLeft(nz, z, n);
    VoxelIndex.MulLeft(ny, y, g.dimX);
    if nz < z {
      VoxelIndex.MulLeft(ny, g.dimY - 1, g.dimX);
      assert (g.dimY - 1) * g.dimX == n - g.dimX;
      VoxelIndex.MulLeft(nz + 1, z, n);
      assert (nz + 1) * n == nz * n + n;
    } else if ny < y {
      VoxelIndex.MulLeft(ny + 1, y, g.dimX);
      assert (ny + 1) * g.dimX == ny * g.dimX + g.dimX;
    }
  }

  /** The eight voxels from (x - 1, y - 1, z - 1) to (x, y, z) in the order
      of searchVertIndex's loops: dz, then dy, then dx, each from -1 to 0.
      The voxel itself comes last. */
  function ScanOrder(x: nat, y: nat, z: nat): (ns: seq<(nat, nat, nat)>)
    requires 1 <= x && 1 <= y && 1 <= z
    ensures |ns| == 8 && ns[7] == (x, y, z)
  {
    [(x - 1, y - 1, z - 1), (x, y - 1, z - 1), (x - 1, y, z - 1), (x, y, z - 1),
     (x - 1, y - 1, z), (x, y - 1, z), (x - 1, y, z), (x, y, z)]
  }

  /** The voxels searchVertIndex looks at, in order: the seven earlier
      neighbours, or none when the voxel touches a low face of the volume. */
  function SearchOrder(x: nat, y: nat, z: nat): (ns: seq<(nat, nat, nat)>)
    ensures 1 <= x && 1 <= y && 1 <= z ==> ns == ScanOrder(x, y, z)[..7]
    ensures !(1 <= x && 1 <= y && 1 <= z) ==> ns == []
  {
    if 1 <= x && 1 <= y && 1 <= z then ScanOrder(x, y, z)[..7] else []
  }

  /** The first vertex near the query that the voxel at n holds (none when n
      lies outside the table). */
  function VoxelHit(g: Volume, vox: seq<seq<int>>, verts: seq<Vec3>, n: (nat, nat, nat), vert: Vec3, eps: real): int
  {
    var f := Flat(g, n.0, n.1, n.2);
    if f < |vox| then FirstNearIn(vox[f], verts, vert, eps) else INVALID
  }

  /** The vertex the scan over ns returns: the first hit of the first voxel
      that has one, or INVALID. */
  function FirstNear(g: Volume, vox: seq<seq<int>>, verts: seq<Vec3>, ns: seq<(nat, nat, nat)>, vert: Vec3, eps: real): int
  {
    if ns == [] then INVALID
    else
      var v := VoxelHit(g, vox, verts, ns[0], vert, eps);
      if v != INVALID then v else FirstNear(g, vox, verts, ns[1..], vert, eps)
  }

  /** One step of the scan: the voxel at position p is searched, and the
      scan goes on past it only if it has no hit. */
  lemma FirstNearStep(g: Volume, vox: seq<seq<int>>, verts: seq<Vec3>, ns: seq<(nat, nat, nat)>, p: nat, vert: Vec3, eps: real)
    requires p < |ns|
    ensures FirstNear(g, vox, verts, ns[p..], vert, eps) ==
      var v := VoxelHit(g, vox, verts, ns[p], vert, eps);
      if v != INVALID then v else FirstNear(g, vox, verts, ns[p + 1..], vert, eps)
  {
    assert ns[p..][1..] == ns[p + 1..];
  }

  /** What the scan returns: INVALID exactly when every visited voxel is
      clear; otherwise a near vertex held by a visited voxel all of whose
      predecessors in the scan are clear. */
  lemma {:induction false} FirstNearFacts(g: Volume, vox: seq<seq<int>>, verts: seq<Vec3>, ns: seq<(nat, nat, nat)>, vert: Vec3, eps: real)
    ensures var r := FirstNear(g, vox, verts, ns, vert, eps);
      && (r == INVALID || Near(verts, r, vert, eps))
      && (r == INVALID <==> forall j :: 0 <= j < |ns| ==> ClearAt(vox, Flat(g, ns[j].0, ns[j].1, ns[j].2), verts, vert, eps))
      && (r != INVALID ==>
            exists j :: && 0 <= j < |ns| && Flat(g, ns[j].0, ns[j].1, ns[j].2) < |vox|
                        && r in vox[Flat(g, ns[j].0, ns[j].1, ns[j].2)]
                        && forall j' :: 0 <= j' < j ==> ClearAt(vox, Flat(g, ns[j'].0, ns[j'].1, ns[j'].2), verts, vert, eps))
    decreases |ns|
  {
    if ns != [] {
      FirstNearFacts(g, vox, verts, ns[1..], vert, eps);
      var r := FirstNear(g, vox, verts, ns, vert, eps);
      var f := Flat(g, ns[0].0, ns[0].1, ns[0].2);
      if VoxelHit(g, vox, verts, ns[0], vert, eps) != INVALID {
        assert r in vox[f];
      } else {
        assert ClearAt(vox, f, verts, vert, eps);
        assert forall j :: 1 <= j < |ns| ==> ns[j] == ns[1..][j - 1];
        if r != INVALID {
          var j :| 0 <= j < |ns[1..]| && Flat(g, ns[1..][j].0, ns[1..][j].1, ns[1..][j].2) < |vox|
            && r in vox[Flat(g, ns[1..][j].0, ns[1..][j].1, ns[1..][j].2)]
            && forall j' :: 0 <= j' < j ==> ClearAt(vox, Flat(g, ns[1..][j'].0, ns[1..][j'].1, ns[1..][j'].2), verts, vert, eps);
          assert ns[j + 1] == ns[1..][j];
          forall j' | 0 <= j' < j + 1
            ensures ClearAt(vox, Flat(g, ns[j'].0, ns[j'].1, ns[j'].2), verts, vert, eps)
          {
            if j' > 0 {
              assert ns[j'] == ns[1..][j' - 1];
            }
          }
        }
      }
    }
  }

  /** The neighbours are exactly the voxels of the search order. */
  lemma NeighbourSearched(x: nat, y: nat, z: nat, nx: nat, ny: nat, nz: nat)
    requires 1 <= x && 1 <= y && 1 <= z
    ensures Neighbour(x, y, z, nx, ny, nz) <==> (nx, ny, nz) in SearchOrder(x, y, z)
  {
    var ns := ScanOrder(x, y, z);
    if Neighbour(x, y, z, nx, ny, nz) {
      ScanAt(x, y, z, nx, ny, nz);
      assert ns[..7][4 * (nz - z + 1) + 2 * (ny - y + 1) + (nx - x + 1)] == (nx, ny, nz);
    }
    if (nx, ny, nz) in SearchOrder(x, y, z) {
      var j :| 0 <= j < 7 && ns[j] == (nx, ny, nz);
      assert j == 0 || j == 1 || j == 2 || j == 3 || j == 4 || j == 5 || j == 6;
    }
  }

  /** Position p of the scan is the voxel (nx, ny, nz), where p counts dz,
      dy and dx as the digits of a binary number. */
  lemma ScanAt(x: nat, y: nat, z: nat, nx: nat, ny: nat, nz: nat)
    requires 1 <= x && 1 <= y && 1 <= z
    requires x - 1 <= nx <= x && y - 1 <= ny <= y && z - 1 <= nz <= z
    ensures ScanOrder(x, y, z)[4 * (nz - z + 1) + 2 * (ny - y + 1) + (nx - x + 1)] == (nx, ny, nz)
  {
  }

  /** One step of the loops: the voxel (nx, ny, nz) other than the voxel
      itself sits at position p of the search order, so the scan from p
      returns its hit or goes on from p + 1. */
  lemma ScanStep(g: Volume, vox: seq<seq<int>>, verts: seq<Vec3>, x: nat, y: nat, z: nat,
                 nx: nat, ny: nat, nz: nat, vert: Vec3, eps: real)
    requires 1 <= x && 1 <= y && 1 <= z
    requires x - 1 <= nx <= x && y - 1 <= ny <= y && z - 1 <= nz <= z && (nx, ny, nz) != (x, y, z)
    ensures var p := 4 * (nz - z + 1) + 2 * (ny - y + 1) + (nx - x + 1);
      var ns := SearchOrder(x, y, z);
      && 0 <= p < 7
      && FirstNear(g, vox, verts, ns[p..], vert, eps)
         == (var v := VoxelHit(g, vox, verts, (nx, ny, nz), vert, eps);
             if v != INVALID then v else FirstNear(g, vox, verts, ns[p + 1..], vert, eps))
  {
    var p := 4 * (nz - z + 1) + 2 * (ny - y + 1) + (nx - x + 1);
    ScanAt(x, y, z, nx, ny, nz);
    assert p != 7;
    FirstNearStep(g, vox, verts, SearchOrder(x, y, z), p, vert, eps);
  }

  /** What the scan of searchVertIndex promises: a near vertex or INVALID;
      nothing on a low face; and INVALID only when every neighbour is clear. */
  lemma SearchOrderFacts(g: Volume, vox: seq<seq<int>>, verts: seq<Vec3>, x: nat, y: nat, z: nat, vert: Vec3, eps: real)
    ensures var r := FirstNear(g, vox, verts, SearchOrder(x, y, z), vert, eps);
      && (r == INVALID || Near(verts, r, vert, eps))
      && (r != INVALID ==> 1 <= x && 1 <= y && 1 <= z)
      && (r == INVALID && 1 <= x && 1 <= y && 1 <= z ==>
            forall nx: nat, ny: nat, nz: nat {:trigger Neighbour(x, y, z, nx, ny, nz)} ::
              Neighbour(x, y, z, nx, ny, nz) ==> ClearAt(vox, Flat(g, nx, ny, nz), verts, vert, eps))
  {
    var ns := SearchOrder(x, y, z);
    FirstNearFacts(g, vox, verts, ns, vert, eps);
    if FirstNear(g, vox, verts, ns, vert, eps) == INVALID && 1 <= x && 1 <= y && 1 <= z {
      forall nx: nat, ny: nat, nz: nat | Neighbour(x, y, z, nx, ny, nz)
        ensures ClearAt(vox, Flat(g, nx, ny, nz), verts, vert, eps)
      {
        NeighbourSearched(x, y, z, nx, ny, nz);
        var j :| 0 <= j < |ns| && ns[j] == (nx, ny, nz);
      }
    }
  }

  /** searchVertIndex: the first vertex within eps of the query in the scan
      of the earlier neighbours (dz, then dy, then dx), or INVALID when the
      voxel touches a low face of the volume or no neighbour holds one. */
  method SearchVertIndex(g: Volume, vox: seq<seq<int>>, verts: seq<Vec3>, x: nat, y: nat, z: nat,
                         vert: Vec3, eps: real) returns (vIdx: int)
    requires WellFormed(g) && x < g.dimX && y < g.dimY && z < g.dimZ
    requires |vox| == |g.dat| && VoxTable(vox, |verts|)
    ensures vIdx == FirstNear(g, vox, verts, SearchOrder(x, y, z), vert, eps)
    ensures vIdx == INVALID || Near(verts, vIdx, vert, eps)
    ensures vIdx != INVALID ==> 1 <= x && 1 <= y && 1 <= z
    ensures vIdx == INVALID && 1 <= x && 1 <= y && 1 <= z ==>
      forall nx: nat, ny: nat, nz: nat {:trigger Neighbour(x, y, z, nx, ny, nz)} ::
        Neighbour(x, y, z, nx, ny, nz) ==> ClearAt(vox, Flat(g, nx, ny, nz), verts, vert, eps)
  {
    if z < 1 || y < 1 || x < 1 {
      SearchOrderFacts(g, vox, verts, x, y, z, vert, eps);
      return INVALID;
    }
    ghost var ns := SearchOrder(x, y, z);
    ghost var goal := FirstNear(g, vox, verts, ns, vert, eps);
    var nz: nat := z - 1;
    while nz <= z
      invariant z - 1 <= nz <= z + 1
      invariant goal == FirstNear(g, vox, verts, ns[Min7(4 * (nz - z + 1))..], vert, eps)
    {
      var ny: nat := y - 1;
      while ny <= y
        invariant y - 1 <= ny <= y + 1
        invariant goal == FirstNear(g, vox, verts, ns[Min7(4 * (nz - z + 1) + 2 * (ny - y + 1))..], vert, eps)
      {
        vIdx := SearchRow(g, vox, verts, x, y, z, ny, nz, vert, eps);
        if vIdx != INVALID {
          SearchOrderFacts(g, vox, verts, x, y, z, vert, eps);
          return;
        }
        ny := ny + 1;
      }
      nz := nz + 1;
    }
    SearchOrderFacts(g, vox, verts, x, y, z, vert, eps);
    return INVALID;
  }

  /** The dx loop of searchVertIndex for one (dy, dz): the first hit among the
      two voxels of the row, the voxel itself skipped; when there is none,
      the scan goes on after the row. */
  method SearchRow(g: Volume, vox: seq<seq<int>>, verts: seq<Vec3>, x: nat, y: nat, z: nat, ny: nat, nz: nat,
                   vert: Vec3, eps: real) returns (vIdx: int)
    requires WellFormed(g) && x < g.dimX && y < g.dimY && z < g.dimZ && 1 <= x && 1 <= y && 1 <= z
    requires y - 1 <= ny <= y && z - 1 <= nz <= z
    requires |vox| == |g.dat| && VoxTable(vox, |verts|)
    ensures var ns := SearchOrder(x, y, z);
      var p := 4 * (nz - z + 1) + 2 * (ny - y + 1);
      && (vIdx != INVALID ==> vIdx == FirstNear(g, vox, verts, ns[Min7(p)..], vert, eps))
      && (vIdx == INVALID ==>
            FirstNear(g, vox, verts, ns[Min7(p)..], vert, eps) == FirstNear(g, vox, verts, ns[Min7(p + 2)..], vert, eps))
  {
    ghost var ns := SearchOrder(x, y, z);
    ghost var p0 := 4 * (nz - z + 1) + 2 * (ny - y + 1);
    ghost var goal := FirstNear(g, vox, verts, ns[Min7(p0)..], vert, eps);
    var nx: nat := x - 1;
    while nx <= x
      invariant x - 1 <= nx <= x + 1
      invariant goal == FirstNear(g, vox, verts, ns[Min7(p0 + (nx - x + 1))..], vert, eps)
    {
      ghost var p := p0 + (nx - x + 1);
      if (nx, ny, nz) != (x, y, z) {
        ScanStep(g, vox, verts, x, y, z, nx, ny, nz, vert, eps);
        VoxelIndex.FlatInBounds(g.dimX, g.dimY, g.dimZ, nx, ny, nz);
        vIdx := SearchVertIndexInVox(vox[Flat(g, nx, ny, nz)], verts, vert, eps);
        if vIdx != INVALID {
          return;
        }
        assert Min7(p + 1) == p + 1;
      } else {
        assert Min7(p) == Min7(p + 1) == 7;
      }
      nx := nx + 1;
    }
    return INVALID;
  }

  /** A scan position, past the last searched voxel counting as its end. */
  function Min7(p: int): nat
  {
    if p < 0 then 0 else if p < 7 then p else 7
  }

  // ---------------------------------------------------------------------
  // The voxel loop

  /** The cube case of the voxel at flat index i. */
  function VoxelCase(g: Volume, iso: real, i: nat): (c: nat)
    requires WellFormed(g)
    ensures c < 256
  {
    var v := Decode(g, i);
    CubeIdx(Field(g, v.0, v.1, v.2), iso)
  }

  /** Cases the tables cover. */
  predicate IndexCountFits(t: Tables, cases: seq<nat>)
  {
    TablesFit(t) && forall k :: 0 <= k < |cases| ==> cases[k] < 256
  }

  /** The number of indices a run of voxels of the given cases emits: the
      table's count for each case. */
  function IndexCount(t: Tables, cases: seq<nat>): nat
    requires IndexCountFits(t, cases)
  {
    if cases == [] then 0 else IndexCount(t, cases[..|cases| - 1]) + t.num[cases[|cases| - 1]]
  }

  /** The cases of the first n voxels. */
  ghost predicate CasesOf(g: Volume, iso: real, cases: seq<nat>)
    requires WellFormed(g)
  {
    forall k {:trigger VoxelCase(g, iso, k)} :: 0 <= k < |cases| ==> cases[k] == VoxelCase(g, iso, k)
  }

  /** The mesh buffers: vertices, the triangle index list and the edge set. */
  datatype Mesh = Mesh(verts: seq<Vec3>, vertIndices: seq<nat>, edges: set<(nat, nat)>)

  /** Whole triangles whose indices name vertices, every vertex used by some
      triangle, and the edge set made of exactly the triangles' sides. */
  predicate MeshOk(m: Mesh)
  {
    && |m.vertIndices| % 3 == 0
    && (forall k :: 0 <= k < |m.vertIndices| ==> m.vertIndices[k] < |m.verts|)
    && (forall v :: 0 <= v < |m.verts| ==> v in m.vertIndices)
    && m.edges == TriangleEdges(m.vertIndices)
  }

  /** Appending a triangle adds its three sides to the edge set. */
  lemma TriangleEdgesAppend(idx: seq<nat>, a: nat, b: nat, c: nat)
    ensures TriangleEdges(idx + [a, b, c]) == TriangleEdges(idx) + FaceEdges(a, b, c)
  {
    var idx' := idx + [a, b, c];
    assert idx'[..|idx'| - 3] == idx;
  }

  /** Every side recorded in the edge set is a pair (smaller, larger) of
      indices of the list. */
  lemma {:induction false} TriangleEdgesOrdered(idx: seq<nat>)
    ensures forall p :: p in TriangleEdges(idx) ==> p.0 <= p.1 && p.0 in idx && p.1 in idx
    decreases |idx|
  {
    if |idx| >= 3 {
      var n := |idx|;
      TriangleEdgesOrdered(idx[..n - 3]);
      assert idx[n - 3] in idx && idx[n - 2] in idx && idx[n - 1] in idx;
      forall p | p in TriangleEdges(idx[..n - 3])
        ensures p.0 in idx && p.1 in idx
      {
        assert p.0 in idx[..n - 3] && p.1 in idx[..n - 3];
      }
    }
  }

  /** One corner of a triangle: the vertex already on that cube edge, or a new
      vertex at the edge's crossing point (addVert); either way its index is
      appended to the index list. */
  method FaceVertex(m: Mesh, l: seq<int>, vertList: seq<Vec3>, edge: nat) returns (m': Mesh, l': seq<int>, v: nat)
    requires |l| == 12 && |vertList| == 12 && edge < 12 && VertRefs(l, |m.verts|)
    requires forall k :: 0 <= k < |m.vertIndices| ==> m.vertIndices[k] < |m.verts|
    ensures m'.edges == m.edges && m'.vertIndices == m.vertIndices + [v]
    ensures l[edge] != INVALID ==> v == l[edge] && m'.verts == m.verts && l' == l
    ensures l[edge] == INVALID ==> v == |m.verts| && m'.verts == m.verts + [vertList[edge]] && l' == l[edge := v]
    ensures |l'| == 12 && VertRefs(l', |m'.verts|) && v < |m'.verts|
    ensures forall k :: 0 <= k < |m'.vertIndices| ==> m'.vertIndices[k] < |m'.verts|
    ensures GrowsWithin(m.verts, m'.verts, vertList) && |m'.verts| <= |m.verts| + 1
    ensures Records(l, l', |m.verts|, m'.verts, vertList)
  {
    if l[edge] != INVALID {
      v := l[edge];
      m' := m.(vertIndices := m.vertIndices + [v]);
      l' := l;
    } else {
      v := |m.verts|;
      m' := Mesh(m.verts + [vertList[edge]], m.vertIndices + [v], m.edges);
      l' := l[edge := v];
    }
  }

  /** A triangle (a, b, d) appended to a consistent mesh, together with any
      new vertices it uses, leaves the mesh consistent. */
  lemma TriangleKeepsMeshOk(m: Mesh, m': Mesh, a: nat, b: nat, d: nat)
    requires MeshOk(m)
    requires m'.vertIndices == m.vertIndices + [a, b, d] && m'.edges == m.edges + FaceEdges(a, b, d)
    requires |m.verts| <= |m'.verts| && a < |m'.verts| && b < |m'.verts| && d < |m'.verts|
    requires forall v :: |m.verts| <= v < |m'.verts| ==> v in [a, b, d]
    ensures MeshOk(m')
  {
    TriangleEdgesAppend(m.vertIndices, a, b, d);
    AppendedInRange(m.vertIndices, |m.verts|, |m'.verts|, a, b, d);
    AppendedCovers(m.vertIndices, |m.verts|, |m'.verts|, a, b, d);
  }

  lemma AppendedInRange(idx: seq<nat>, n: nat, n': nat, a: nat, b: nat, d: nat)
    requires forall k :: 0 <= k < |idx| ==> idx[k] < n
    requires n <= n' && a < n' && b < n' && d < n'
    ensures forall k :: 0 <= k < |idx + [a, b, d]| ==> (idx + [a, b, d])[k] < n'
  {
  }

  lemma AppendedCovers(idx: seq<nat>, n: nat, n': nat, a: nat, b: nat, d: nat)
    requires forall v :: 0 <= v < n ==> v in idx
    requires forall v :: n <= v < n' ==> v in [a, b, d]
    ensures forall v :: 0 <= v < n' ==> v in idx + [a, b, d]
  {
    forall v | 0 <= v < n'
      ensures v in idx + [a, b, d]
    {
      if v < n {
        assert v in idx;
      } else {
        assert v in [a, b, d];
        assert (idx + [a, b, d])[|idx|..] == [a, b, d];
      }
    }
  }

  /** One triangle on cube edges e0, e1, e2: the three corners' indices in
      order (the code's loop over j), then addEdges with the triangle's sides. */
  method AddTriangle(m: Mesh, l: seq<int>, vertList: seq<Vec3>, e0: nat, e1: nat, e2: nat)
    returns (m': Mesh, l': seq<int>)
    requires e0 < 12 && e1 < 12 && e2 < 12
    requires |l| == 12 && |vertList| == 12 && VertRefs(l, |m.verts|) && MeshOk(m)
    ensures MeshOk(m') && |l'| == 12 && VertRefs(l', |m'.verts|)
    ensures |m'.vertIndices| == |m.vertIndices| + 3
    ensures GrowsWithin(m.verts, m'.verts, vertList) && m.vertIndices <= m'.vertIndices
    ensures Records(l, l', |m.verts|, m'.verts, vertList)
  {
    var m1, m2, m3, l1, l2, a, b, d;
    m1, l1, a := FaceVertex(m, l, vertList, e0);
    m2, l2, b := FaceVertex(m1, l1, vertList, e1);
    m3, l', d := FaceVertex(m2, l2, vertList, e2);
    ThreeCorners(l, l1, l2, l', m.verts, m1.verts, m2.verts, m3.verts, vertList);
    var edges := AddEdges(m3.edges, a, b, d);
    m' := m3.(edges := edges);
    TriangleKeepsMeshOk(m, m', a, b, d);
  }

  /** after extends before by vertices taken from vs. */
  ghost predicate GrowsWithin(before: seq<Vec3>, after: seq<Vec3>, vs: seq<Vec3>)
  {
    before <= after && forall k :: |before| <= k < |after| ==> after[k] in vs
  }

  lemma GrowsWithinTrans(a: seq<Vec3>, b: seq<Vec3>, c: seq<Vec3>, vs: seq<Vec3>)
    requires GrowsWithin(a, b, vs) && GrowsWithin(b, c, vs)
    ensures GrowsWithin(a, c, vs)
  {
    forall k | |a| <= k < |c|
      ensures c[k] in vs
    {
      if k < |b| {
        assert c[k] == b[k];
      }
    }
  }

  /** l' is what the voxel's list l becomes as its triangles are emitted:
      an entry that was found is kept, and one that was not either stays
      INVALID or names a vertex added after the first n, placed at that
      edge's candidate (addVert). */
  ghost predicate Records(l: seq<int>, l': seq<int>, n: nat, verts: seq<Vec3>, vertList: seq<Vec3>)
  {
    && |l| == 12 && |l'| == 12 && |vertList| == 12
    && forall e :: 0 <= e < 12 ==>
         && (l[e] != INVALID ==> l'[e] == l[e])
         && (l[e] == INVALID && l'[e] != INVALID ==> n <= l'[e] < |verts| && verts[l'[e]] == vertList[e])
  }

  lemma RecordsTrans(l: seq<int>, l1: seq<int>, l2: seq<int>, n: nat, v1: seq<Vec3>, v2: seq<Vec3>, vertList: seq<Vec3>)
    requires Records(l, l1, n, v1, vertList) && Records(l1, l2, |v1|, v2, vertList)
    requires n <= |v1| && v1 <= v2
    ensures Records(l, l2, n, v2, vertList)
  {
    forall e | 0 <= e < 12 && l[e] == INVALID && l2[e] != INVALID
      ensures n <= l2[e] < |v2| && v2[l2[e]] == vertList[e]
    {
      if l1[e] != INVALID {
        assert v2[l1[e]] == v1[l1[e]];
      }
    }
  }

  /** The three corners of a triangle together grow the vertices within the
      candidates and record their new vertices. */
  lemma ThreeCorners(l: seq<int>, l1: seq<int>, l2: seq<int>, l3: seq<int>,
                     v: seq<Vec3>, v1: seq<Vec3>, v2: seq<Vec3>, v3: seq<Vec3>, vertList: seq<Vec3>)
    requires GrowsWithin(v, v1, vertList) && GrowsWithin(v1, v2, vertList) && GrowsWithin(v2, v3, vertList)
    requires Records(l, l1, |v|, v1, vertList) && Records(l1, l2, |v1|, v2, vertList) && Records(l2, l3, |v2|, v3, vertList)
    ensures GrowsWithin(v, v3, vertList) && Records(l, l3, |v|, v3, vertList)
  {
    GrowsWithinTrans(v, v1, v2, vertList);
    GrowsWithinTrans(v, v2, v3, vertList);
    RecordsTrans(l, l1, l2, |v|, v1, v2, vertList);
    RecordsTrans(l, l2, l3, |v|, v2, v3, vertList);
  }

  /** The triangles of case c, three table entries each. */
  method AddTriangles(m: Mesh, l: seq<int>, vertList: seq<Vec3>, t: Tables, c: nat) returns (m': Mesh, l': seq<int>)
    requires TablesFit(t) && c < 256
    requires |l| == 12 && |vertList| == 12 && VertRefs(l, |m.verts|) && MeshOk(m)
    ensures MeshOk(m') && |l'| == 12 && VertRefs(l', |m'.verts|)
    ensures |m'.vertIndices| == |m.vertIndices| + t.num[c]
    ensures GrowsWithin(m.verts, m'.verts, vertList) && m.vertIndices <= m'.vertIndices
    ensures Records(l, l', |m.verts|, m'.verts, vertList)
  {
    m', l' := m, l;
    var row := t.tri[c];
    assert forall k :: 0 <= k < |row| ==> row[k] < 12;
    var i := 0;
    while i < t.num[c]
      invariant i <= t.num[c] <= |row| && i % 3 == 0
      invariant MeshOk(m') && |l'| == 12 && VertRefs(l', |m'.verts|)
      invariant |m'.vertIndices| == |m.vertIndices| + i
      invariant GrowsWithin(m.verts, m'.verts, vertList) && m.vertIndices <= m'.vertIndices
      invariant Records(l, l', |m.verts|, m'.verts, vertList)
    {
      ghost var prior, priorL := m'.verts, l';
      m', l' := AddTriangle(m', l', vertList, row[i], row[i + 1], row[i + 2]);
      GrowsWithinTrans(m.verts, prior, m'.verts, vertList);
      RecordsTrans(l, priorL, l', |m.verts|, prior, m'.verts, vertList);
      i := i + 3;
    }
  }

  /** The twelve candidate vertices of the voxel at flat index i. */
  function VoxelVerts(g: Volume, iso: real, voxSz: Vec3, i: nat): (vs: seq<Vec3>)
    requires WellFormed(g)
    ensures |vs| == 12
  {
    var v := Decode(g, i);
    VertList(v.0, v.1, v.2, voxSz, Field(g, v.0, v.1, v.2), iso)
  }

  /** What searchVertIndex finds for each of the voxel's twelve candidates. */
  function Searched(g: Volume, iso: real, voxSz: Vec3, eps: real, vox: seq<seq<int>>, verts: seq<Vec3>, i: nat): (l: seq<int>)
    requires WellFormed(g)
    ensures |l| == 12
  {
    var v := Decode(g, i);
    var vs := VoxelVerts(g, iso, voxSz, i);
    seq(12, e requires 0 <= e < 12 => FirstNear(g, vox, verts, SearchOrder(v.0, v.1, v.2), vs[e], eps))
  }

  /** One voxel of the loop: decode its coordinates, classify its cube, look
      up a vertex for each of the twelve edges among the earlier neighbours,
      emit the case's triangles and record the voxel's edge vertices. */
  method AddVoxel(g: Volume, iso: real, voxSz: Vec3, eps: real, t: Tables, m: Mesh, vox: seq<seq<int>>, i: nat)
    returns (m': Mesh, vox': seq<seq<int>>, cubeIdx: nat)
    requires WellFormed(g) && TablesFit(t) && i < |g.dat|
    requires |vox| == |g.dat| && VoxTable(vox, |m.verts|) && MeshOk(m)
    ensures MeshOk(m') && |vox'| == |vox| && VoxTable(vox', |m'.verts|)
    ensures cubeIdx == VoxelCase(g, iso, i) && |m'.vertIndices| == |m.vertIndices| + t.num[cubeIdx]
    ensures m.verts <= m'.verts && m.vertIndices <= m'.vertIndices
    ensures forall f :: 0 <= f < |vox| && f != i ==> vox'[f] == vox[f]
    ensures GrowsWithin(m.verts, m'.verts, VoxelVerts(g, iso, voxSz, i))
    ensures Records(Searched(g, iso, voxSz, eps, vox, m.verts, i), vox'[i], |m.verts|, m'.verts, VoxelVerts(g, iso, voxSz, i))
  {
    VoxelIndex.FlatDecode(g.dimX, g.dimY, g.dimZ, i);
    var v := Decode(g, i);
    var x, y, z := v.0, v.1, v.2;
    var field := Field(g, x, y, z);
    cubeIdx := CubeIdx(field, iso);
    var vertList := VertList(x, y, z, voxSz, field, iso);
    var l: seq<int> := [];
    for e := 0 to 12
      invariant |l| == e && VertRefs(l, |m.verts|)
      invariant l == Searched(g, iso, voxSz, eps, vox, m.verts, i)[..e]
    {
      var vIdx := SearchVertIndex(g, vox, m.verts, x, y, z, vertList[e], eps);
      l := l + [vIdx];
    }
    m', l := AddTriangles(m, l, vertList, t, cubeIdx);
    vox' := vox[i := l];
  }

  /** The size the code gives vox2VertIndices: dimY * dimX * dimX. */
  function Vox2VertSizeAsWritten(g: Volume): nat
  {
    (g.dimY * g.dimX) * g.dimX
  }

  /** In a 1 x 1 x 2 volume the loop records voxel 1 in a one-entry table. */
  lemma Vox2VertAsWrittenOverflows()
    ensures var g := Volume([0.0, 0.0], 1, 1, 2);
      WellFormed(g) && Vox2VertSizeAsWritten(g) <= |g.dat| - 1
  {
  }

  /** The table as written holds every voxel exactly when dimZ <= dimX. */
  lemma {:induction false} Vox2VertAsWrittenFits(g: Volume)
    requires WellFormed(g)
    ensures |g.dat| <= Vox2VertSizeAsWritten(g) <==> g.dimZ <= g.dimX
  {
    var n := g.dimY * g.dimX;
    assert |g.dat| == g.dimZ * n && Vox2VertSizeAsWritten(g) == g.dimX * n;
    if g.dimZ <= g.dimX {
      VoxelIndex.MulLeft(g.dimZ, g.dimX, n);
    } else {
      VoxelIndex.LessMul(g.dimX, g.dimZ, n);
    }
  }

  /** vox2VertIndices sized for the voxel loop: one entry per voxel. */
  function Vox2VertSize(g: Volume): (n: nat)
    ensures WellFormed(g) ==> n == |g.dat|
  {
    (g.dimY * g.dimX) * g.dimZ
  }

  /** A table of n voxels with no vertex recorded. */
  function EmptyVox(n: nat): (vox: seq<seq<int>>)
    ensures |vox| == n && VoxTable(vox, 0)
  {
    seq(n, _ => [INVALID, INVALID, INVALID, INVALID, INVALID, INVALID,
                 INVALID, INVALID, INVALID, INVALID, INVALID, INVALID])
  }

  /** A volume with data has no zero extent. */
  lemma NonEmptyWellFormed(g: Volume)
    requires |g.dat| == g.dimZ * (g.dimY * g.dimX) && |g.dat| > 0
    ensures WellFormed(g)
  {
    if g.dimX == 0 || g.dimY == 0 || g.dimZ == 0 {
      assert false;
    }
  }

  /** What the voxel loop leaves: a consistent mesh (whole triangles, indices
      naming vertices, every vertex used, the edge set made of the triangles'
      sides) in which each voxel contributes its case's count of indices; an
      empty volume gives an empty mesh. */
  ghost predicate MeshFor(g: Volume, iso: real, t: Tables, m: Mesh, cases: seq<nat>)
  {
    && MeshOk(m) && |cases| == |g.dat| && IndexCountFits(t, cases)
    && |m.vertIndices| == IndexCount(t, cases)
    && (|g.dat| == 0 ==> m == Mesh([], [], {}))
    && (|g.dat| > 0 ==>
          && WellFormed(g) && CasesOf(g, iso, cases)
          && forall k :: 0 <= k < |m.verts| ==> FromVoxel(g, iso, Extent(g), m.verts[k], |g.dat|))
  }

  /** The finite voxel size of a volume with no empty axis: the components
      of VoxelSize. */
  function Extent(g: Volume): (s: Vec3)
    requires WellFormed(g)
    ensures var f := VoxelSize(g.dimX, g.dimY, g.dimZ); s == Vec3(f.x.r, f.y.r, f.z.r)
  {
    Vec3(1.0 / g.dimX as real, 1.0 / g.dimY as real, 1.0 / g.dimZ as real)
  }

  /** v is a candidate vertex of one of the first n voxels. */
  ghost predicate FromVoxel(g: Volume, iso: real, voxSz: Vec3, v: Vec3, n: nat)
    requires WellFormed(g)
  {
    exists i :: 0 <= i < n && v in VoxelVerts(g, iso, voxSz, i)
  }

  /** The vertices added by voxel i are candidates of voxel i. */
  lemma FromVoxelStep(g: Volume, iso: real, voxSz: Vec3, before: seq<Vec3>, after: seq<Vec3>, i: nat)
    requires WellFormed(g)
    requires forall k :: 0 <= k < |before| ==> FromVoxel(g, iso, voxSz, before[k], i)
    requires GrowsWithin(before, after, VoxelVerts(g, iso, voxSz, i))
    ensures forall k :: 0 <= k < |after| ==> FromVoxel(g, iso, voxSz, after[k], i + 1)
  {
    forall k | 0 <= k < |after|
      ensures FromVoxel(g, iso, voxSz, after[k], i + 1)
    {
      if k < |before| {
        assert after[k] == before[k];
        var j :| 0 <= j < i && before[k] in VoxelVerts(g, iso, voxSz, j);
      } else {
        assert after[k] in VoxelVerts(g, iso, voxSz, i);
      }
    }
  }

  /** The voxel loop of MarchingCube. */
  method BuildMesh(g: Volume, iso: real, voxSz: FloatVec3, t: Tables) returns (m: Mesh, ghost cases: seq<nat>)
    requires |g.dat| == g.dimZ * (g.dimY * g.dimX) && TablesFit(t)
    requires voxSz == VoxelSize(g.dimX, g.dimY, g.dimZ)
    ensures MeshFor(g, iso, t, m, cases)
  {
    m, cases := Mesh([], [], {}), [];
    if |g.dat| == 0 {
      return;
    }
    NonEmptyWellFormed(g);
    var size := Vec3(voxSz.x.r, voxSz.y.r, voxSz.z.r);
    assert size == Extent(g);
    var eps := VertDistSqrEps(size);
    var vox := EmptyVox(Vox2VertSize(g));
    for i := 0 to |g.dat|
      invariant MeshOk(m) && |vox| == |g.dat| && VoxTable(vox, |m.verts|)
      invariant |cases| == i && CasesOf(g, iso, cases) && forall k :: 0 <= k < i ==> cases[k] < 256
      invariant |m.vertIndices| == IndexCount(t, cases)
      invariant forall k :: 0 <= k < |m.verts| ==> FromVoxel(g, iso, size, m.verts[k], i)
    {
      var c;
      ghost var prior := m.verts;
      m, vox, c := AddVoxel(g, iso, size, eps, t, m, vox, i);
      FromVoxelStep(g, iso, size, prior, m.verts, i);
      CasesStep(g, iso, t, cases, c);
      cases := cases + [c];
    }
  }

  /** Recording the case of one more voxel. */
  lemma CasesStep(g: Volume, iso: real, t: Tables, cases: seq<nat>, c: nat)
    requires WellFormed(g) && IndexCountFits(t, cases) && CasesOf(g, iso, cases)
    requires c == VoxelCase(g, iso, |cases|)
    ensures IndexCountFits(t, cases + [c]) && CasesOf(g, iso, cases + [c])
    ensures IndexCount(t, cases + [c]) == IndexCount(t, cases) + t.num[c]
  {
    IndexCountStep(t, cases, c);
    forall k | 0 <= k < |cases| + 1
      ensures (cases + [c])[k] == VoxelCase(g, iso, k)
    {
      if k < |cases| {
        assert (cases + [c])[k] == cases[k];
      }
    }
  }

  lemma IndexCountStep(t: Tables, cases: seq<nat>, c: nat)
    requires IndexCountFits(t, cases) && c < 256
    ensures IndexCountFits(t, cases + [c])
    ensures IndexCount(t, cases + [c]) == IndexCount(t, cases) + t.num[c]
  {
    assert (cases + [c])[..|cases|] == cases;
  }

  /** Every recorded edge of a consistent mesh is a pair (smaller, larger) of
      vertex indices. */
  lemma MeshEdgesOrdered(m: Mesh)
    requires MeshOk(m)
    ensures forall p :: p in m.edges ==> p.0 <= p.1 < |m.verts|
  {
    TriangleEdgesOrdered(m.vertIndices);
    forall p | p in m.edges
      ensures p.1 < |m.verts|
    {
      var k :| 0 <= k < |m.vertIndices| && m.vertIndices[k] == p.1;
    }
  }

  /** With whole triangles in every case, the index count is a multiple of 3. */
  lemma {:induction false} IndexCountWhole(t: Tables, cases: seq<nat>)
    requires IndexCountFits(t, cases)
    ensures IndexCount(t, cases) % 3 == 0
    decreases |cases|
  {
    if cases != [] {
      IndexCountWhole(t, cases[..|cases| - 1]);
    }
  }

  // ---------------------------------------------------------------------
  // The per-volume state

  datatype MeshSmoothingType = None | Laplacian | Curvature

  /** The voxel size the constructor derives, 1.f / dim on each axis: an
      empty axis gives +inf. */
  function VoxelSize(dimX: nat, dimY: nat, dimZ: nat): (s: FloatVec3)
    ensures s.x.Num? <==> dimX > 0
    ensures s.y.Num? <==> dimY > 0
    ensures s.z.Num? <==> dimZ > 0
    ensures s.x.Num? ==> s.x.r * dimX as real == 1.0
    ensures s.y.Num? ==> s.y.r * dimY as real == 1.0
    ensures s.z.Num? ==> s.z.r * dimZ as real == 1.0
    ensures dimX == 0 ==> s.x == Inf(false)
    ensures dimY == 0 ==> s.y == Inf(false)
    ensures dimZ == 0 ==> s.z == Inf(false)
  {
    FloatVec3(Div(1.0, dimX as real), Div(1.0, dimY as real), Div(1.0, dimZ as real))
  }

  /** An osg::Vec3 whose components may be infinite. */
  datatype FloatVec3 = FloatVec3(x: Float, y: Float, z: Float)

  /** MarchingCubeRenderer::PerVolParam without its scene-graph nodes, normals
      and smoothed copies. */
  class PerVolParam {
    const volDat: seq<real>
    const volDatSmoothed: seq<real>
    const dimX: nat
    const dimY: nat
    const dimZ: nat
    /** The voxel size, infinite along an empty axis. */
    const voxSz: FloatVec3 := VoxelSize(dimX, dimY, dimZ)
    var isoVal: real
    var minLongitude: real
    var maxLongitude: real
    var minLatitude: real
    var maxLatitude: real
    var minHeight: real
    var maxHeight: real
    var volStartFromLonZero: bool
    var useSmoothedVol: bool
    var meshSmoothingType: MeshSmoothingType
    var verts: seq<Vec3>
    var vertIndices: seq<nat>
    var edges: set<(nat, nat)>
    /** The cube case of each voxel at the last rebuild. */
    ghost var cases: seq<nat>

    /** The volume the surface is extracted from. */
    function VolumeOf(useSmoothedVol: bool): Volume
    {
      Volume(if useSmoothedVol then volDatSmoothed else volDat, dimX, dimY, dimZ)
    }

    function MeshOf(): Mesh
      reads this
    {
      Mesh(verts, vertIndices, edges)
    }

    /** The placement of the volume on the globe, in radians and metres. */
    function Placement(): (real, real, real, real, real, real)
      reads this
    {
      (minLongitude, maxLongitude, minLatitude, maxLatitude, minHeight, maxHeight)
    }

    function GetLongitudeRange(): (real, real)
      reads this
    {
      (minLongitude, maxLongitude)
    }

    function GetLatitudeRange(): (real, real)
      reads this
    {
      (minLatitude, maxLatitude)
    }

    function GetHeightFromCenterRange(): (real, real)
      reads this
    {
      (minHeight, maxHeight)
    }

    /** The data, its extents and voxel size, the default placement, the raw
        data and no smoothing; no mesh yet.  isoVal is left uninitialised, as
        in the code. */
    constructor(volDat: seq<real>, volDatSmoothed: seq<real>, dimX: nat, dimY: nat, dimZ: nat)
      ensures this.volDat == volDat && this.volDatSmoothed == volDatSmoothed
      ensures this.dimX == dimX && this.dimY == dimY && this.dimZ == dimZ
      ensures voxSz == VoxelSize(dimX, dimY, dimZ)
      ensures GetLongitudeRange() == (Deg2Rad(-10.0), Deg2Rad(10.0))
      ensures GetLatitudeRange() == (Deg2Rad(-20.0), Deg2Rad(20.0))
      ensures GetHeightFromCenterRange() == (WGS_84_RADIUS_EQUATOR * 1.1, WGS_84_RADIUS_EQUATOR * 1.3)
      ensures !volStartFromLonZero && !useSmoothedVol && meshSmoothingType == MeshSmoothingType.None
      ensures MeshOf() == Mesh([], [], {})
    {
      this.volDat := volDat;
      this.volDatSmoothed := volDatSmoothed;
      this.dimX, this.dimY, this.dimZ := dimX, dimY, dimZ;
      meshSmoothingType := MeshSmoothingType.None;
      minLongitude, maxLongitude := Deg2Rad(-10.0), Deg2Rad(10.0);
      minLatitude, maxLatitude := Deg2Rad(-20.0), Deg2Rad(20.0);
      minHeight, maxHeight := WGS_84_RADIUS_EQUATOR * 1.1, WGS_84_RADIUS_EQUATOR * 1.3;
      volStartFromLonZero := false;
      useSmoothedVol := false;
      verts, vertIndices, edges := [], [], {};
    }

    /** Degrees in [-180, 180], the minimum below the maximum, are stored in
        radians; otherwise false and nothing changes. */
    method SetLongitudeRange(minLonDeg: real, maxLonDeg: real) returns (ok: bool)
      modifies this
      ensures ok <==> -180.0 <= minLonDeg && maxLonDeg <= 180.0 && minLonDeg < maxLonDeg
      ensures ok ==> GetLongitudeRange() == (Deg2Rad(minLonDeg), Deg2Rad(maxLonDeg))
      ensures !ok ==> GetLongitudeRange() == old(GetLongitudeRange())
      ensures GetLatitudeRange() == old(GetLatitudeRange())
      ensures GetHeightFromCenterRange() == old(GetHeightFromCenterRange())
      ensures isoVal == old(isoVal) && useSmoothedVol == old(useSmoothedVol)
      ensures volStartFromLonZero == old(volStartFromLonZero) && meshSmoothingType == old(meshSmoothingType)
      ensures MeshOf() == old(MeshOf())
    {
      if minLonDeg < -180.0 {
        return false;
      }
      if maxLonDeg > 180.0 {
        return false;
      }
      if minLonDeg >= maxLonDeg {
        return false;
      }
      minLongitude := Deg2Rad(minLonDeg);
      maxLongitude := Deg2Rad(maxLonDeg);
      return true;
    }

    /** Degrees in [-90, 90], the minimum below the maximum, are stored in
        radians; otherwise false and nothing changes. */
    method SetLatitudeRange(minLatDeg: real, maxLatDeg: real) returns (ok: bool)
      modifies this
      ensures ok <==> -90.0 <= minLatDeg && maxLatDeg <= 90.0 && minLatDeg < maxLatDeg
      ensures ok ==> GetLatitudeRange() == (Deg2Rad(minLatDeg), Deg2Rad(maxLatDeg))
      ensures !ok ==> GetLatitudeRange() == old(GetLatitudeRange())
      ensures GetLongitudeRange() == old(GetLongitudeRange())
      ensures GetHeightFromCenterRange() == old(GetHeightFromCenterRange())
      ensures isoVal == old(isoVal) && useSmoothedVol == old(useSmoothedVol)
      ensures volStartFromLonZero == old(volStartFromLonZero) && meshSmoothingType == old(meshSmoothingType)
      ensures MeshOf() == old(MeshOf())
    {
      if minLatDeg < -90.0 {
        return false;
      }
      if maxLatDeg > 90.0 {
        return false;
      }
      if minLatDeg >= maxLatDeg {
        return false;
      }
      minLatitude := Deg2Rad(minLatDeg);
      maxLatitude := Deg2Rad(maxLatDeg);
      return true;
    }

    /** A non-negative minimum below the maximum is stored as given; otherwise
        false and nothing changes. */
    method SetHeightFromCenterRange(minH: real, maxH: real) returns (ok: bool)
      modifies this
      ensures ok <==> 0.0 <= minH < maxH
      ensures ok ==> GetHeightFromCenterRange() == (minH, maxH)
      ensures !ok ==> GetHeightFromCenterRange() == old(GetHeightFromCenterRange())
      ensures GetLongitudeRange() == old(GetLongitudeRange())
      ensures GetLatitudeRange() == old(GetLatitudeRange())
      ensures isoVal == old(isoVal) && useSmoothedVol == old(useSmoothedVol)
      ensures volStartFromLonZero == old(volStartFromLonZero) && meshSmoothingType == old(meshSmoothingType)
      ensures MeshOf() == old(MeshOf())
    {
      if minH < 0.0 {
        return false;
      }
      if minH >= maxH {
        return false;
      }
      minHeight := minH;
      maxHeight := maxH;
      return true;
    }

    method SetVolumeStartFromLongitudeZero(flag: bool)
      modifies this
      ensures volStartFromLonZero == flag
      ensures Placement() == old(Placement()) && isoVal == old(isoVal) && useSmoothedVol == old(useSmoothedVol)
      ensures meshSmoothingType == old(meshSmoothingType) && MeshOf() == old(MeshOf())
    {
      volStartFromLonZero := flag;
    }

    /** Nothing happens when the iso-value and the data choice are those of
        the last call; otherwise both are recorded and the mesh is rebuilt
        from the chosen data (which must then hold dimX * dimY * dimZ
        scalars): consistent, with each voxel's case count of indices. */
    method MarchingCube(iso: real, useSmoothedVol: bool, t: Tables)
      requires TablesFit(t)
      requires !(isoVal == iso && this.useSmoothedVol == useSmoothedVol) ==>
        |volDat| == |VolumeOf(useSmoothedVol).dat| == dimZ * (dimY * dimX)
      modifies this`isoVal, this`useSmoothedVol, this`verts, this`vertIndices, this`edges, this`cases
      ensures old(isoVal) == iso && old(this.useSmoothedVol) == useSmoothedVol ==> unchanged(this)
      ensures !(old(isoVal) == iso && old(this.useSmoothedVol) == useSmoothedVol) ==>
        && isoVal == iso && this.useSmoothedVol == useSmoothedVol
        && MeshFor(VolumeOf(useSmoothedVol), iso, t, MeshOf(), cases)
        && (Placement(), volStartFromLonZero, meshSmoothingType)
           == old((Placement(), volStartFromLonZero, meshSmoothingType))
    {
      if this.isoVal == iso && this.useSmoothedVol == useSmoothedVol {
        return;
      }
      Rebuild(iso, useSmoothedVol, t);
    }

    /** The part of MarchingCube after the early return: record the request
        and rebuild the mesh. */
    method Rebuild(iso: real, useSmoothedVol: bool, t: Tables)
      requires TablesFit(t) && |VolumeOf(useSmoothedVol).dat| == dimZ * (dimY * dimX)
      modifies this`isoVal, this`useSmoothedVol, this`verts, this`vertIndices, this`edges, this`cases
      ensures isoVal == iso && this.useSmoothedVol == useSmoothedVol
      ensures MeshFor(VolumeOf(useSmoothedVol), iso, t, MeshOf(), cases)
    {
      this.isoVal, this.useSmoothedVol := iso, useSmoothedVol;
      var m;
      ghost var cs;
      m, cs := BuildMesh(VolumeOf(useSmoothedVol), iso, voxSz, t);
      verts, vertIndices, edges, cases := m.verts, m.vertIndices, m.edges, cs;
    }

    /** Nothing happens for the current type; otherwise the type is recorded
        (and the drawn geometry switched, which is not modelled). */
    method SetMeshSmoothingType(smoothing: MeshSmoothingType)
      modifies this
      ensures meshSmoothingType == smoothing
      ensures isoVal == old(isoVal) && useSmoothedVol == old(useSmoothedVol) && MeshOf() == old(MeshOf())
      ensures Placement() == old(Placement()) && volStartFromLonZero == old(volStartFromLonZero)
    {
      if meshSmoothingType == smoothing {
        return;
      }
      meshSmoothingType := smoothing;
    }

    function GetIsosurfaceValue(): real
      reads this
    {
      isoVal
    }
  }

  // ---------------------------------------------------------------------
  // The renderer's registry of volumes

  /** MarchingCubeRenderer: the volumes by name. */
  class MarchingCubeRenderer {
    var vols: map<string, PerVolParam>

    constructor()
      ensures vols == map[]
    {
      vols := map[];
    }

    /** A volume added under a name in use replaces the old one; every other
        entry stays. */
    method AddVolume(name: string, volDat: seq<real>, volDatSmoothed: seq<real>, dimX: nat, dimY: nat, dimZ: nat)
      modifies this
      ensures vols.Keys == old(vols.Keys) + {name}
      ensures forall n :: n in old(vols) && n != name ==> vols[n] == old(vols)[n]
      ensures fresh(vols[name])
      ensures vols[name].volDat == volDat && vols[name].volDatSmoothed == volDatSmoothed
      ensures vols[name].dimX == dimX && vols[name].dimY == dimY && vols[name].dimZ == dimZ
      ensures vols[name].MeshOf() == Mesh([], [], {})
    {
      if name in vols {
        vols := vols - {name};
      }
      var p := new PerVolParam(volDat, volDatSmoothed, dimX, dimY, dimZ);
      vols := vols[name := p];
    }

    /** The volume of that name, or null when there is none. */
    method GetVolume(name: string) returns (p: PerVolParam?)
      ensures name in vols ==> p == vols[name]
      ensures name !in vols ==> p == null
    {
      if name !in vols {
        return null;
      }
      return vols[name];
    }

    method GetVolumeNum() returns (n: nat)
      ensures n == |vols.Keys|
    {
      return |vols|;
    }
  }
}
