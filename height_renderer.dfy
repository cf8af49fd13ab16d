// The height-map renderer: a latitude/longitude grid of tessel0 x tessel1
// vertices with their texture coordinates, and the index list that splits
// every grid cell into two triangles.  Where a vertex lies on the sphere is
// trigonometry; it is a parameter of SetupMap here.
module HeightRenderer {
  import opened Numerics

  /** uint32_t. */
  type Uint32 = x: int | 0 <= x < 0x1_0000_0000

  /** tessel - 1 in the unsigned arithmetic of the source: 0 wraps to the
      largest uint32. */
  function Pred32(t: Uint32): (p: Uint32)
    ensures 0 < t ==> p == t - 1
    ensures t == 0 ==> p == 0xFFFF_FFFF
  {
    if t == 0 then 0xFFFF_FFFF else t - 1
  }

  /** The number of grid cells along an axis of t vertices. */
  function Cells(t: nat): (c: nat)
    ensures 0 < t ==> c == t - 1
    ensures t == 0 ==> c == 0
  {
    if t == 0 then 0 else t - 1
  }

  datatype MapType = Pillar | Surface

  /** HeightMapRenderer::MapParameters; ranges in degrees. */
  datatype MapParameters = MapParameters(
    longitudeRange: (real, real), latitudeRange: (real, real), heightRange: (real, real),
    heightMapTy: MapType, tessel: (Uint32, Uint32))

  /** HeightMapRenderer::RenderParameters; the texture is its texels. */
  datatype RenderParameters = RenderParameters(
    heightRange: (real, real), volStartFromLonZero: bool, heightMapTex: seq<real>)

  datatype Vec3 = Vec3(x: Float, y: Float, z: Float)

  type Uv = (Float, Float)

  /** The texture coordinate of the grid vertex (lonIdx, latIdx). */
  function UvOf(t0: Uint32, t1: Uint32, latIdx: nat, lonIdx: nat): Uv
  {
    (Div(lonIdx as real, Pred32(t0) as real), Div(latIdx as real, Pred32(t1) as real))
  }

  /** The texture coordinates of one row of the grid. */
  function UvRow(t0: Uint32, t1: Uint32, latIdx: nat): (row: seq<Uv>)
    ensures |row| == t0
    ensures forall lonIdx :: 0 <= lonIdx < t0 ==> row[lonIdx] == UvOf(t0, t1, latIdx, lonIdx)
  {
    seq(t0, lonIdx requires 0 <= lonIdx < t0 => UvOf(t0, t1, latIdx, lonIdx))
  }

  /** The texture coordinates of the first n rows, row after row. */
  function UvRows(t0: Uint32, t1: Uint32, n: nat): (uvs: seq<Uv>)
    ensures |uvs| == n * t0
  {
    if n == 0 then [] else UvRows(t0, t1, n - 1) + UvRow(t0, t1, n - 1)
  }

  /** Vertex (lonIdx, latIdx) has its texture coordinate at latIdx * t0 + lonIdx. */
  lemma {:induction false} UvRowsAt(t0: Uint32, t1: Uint32, n: nat, latIdx: nat, lonIdx: nat)
    requires latIdx < n && lonIdx < t0
    ensures latIdx * t0 + lonIdx < n * t0
    ensures UvRows(t0, t1, n)[latIdx * t0 + lonIdx] == UvOf(t0, t1, latIdx, lonIdx)
  {
    var k := latIdx * t0 + lonIdx;
    MulMonotoneInt(latIdx + 1, n, t0);
    if latIdx < n - 1 {
      MulMonotoneInt(latIdx + 1, n - 1, t0);
      UvRowsAt(t0, t1, n - 1, latIdx, lonIdx);
    } else {
      assert k == (n - 1) * t0 + lonIdx;
    }
  }

  /** a * c <= b * c for a <= b and non-negative c. */
  lemma MulMonotoneInt(a: int, b: int, c: nat)
    requires a <= b
    ensures a * c <= b * c
  {
  }

  /** (a + 1) * c == a * c + c. */
  lemma MulSuccInt(a: int, c: int)
    ensures (a + 1) * c == a * c + c
  {
  }

  /** The corners of the grid: (0, 0) first and (1, 1) last, when both axes
      have at least two vertices. */
  lemma UvCorners(t0: Uint32, t1: Uint32)
    requires 2 <= t0 && 2 <= t1
    ensures |UvRows(t0, t1, t1)| >= t0
    ensures UvRows(t0, t1, t1)[0] == (Num(0.0), Num(0.0))
    ensures UvRows(t0, t1, t1)[|UvRows(t0, t1, t1)| - 1] == (Num(1.0), Num(1.0))
  {
    var rows := UvRows(t0, t1, t1);
    var lastRow := UvRow(t0, t1, t1 - 1);
    assert rows == UvRows(t0, t1, t1 - 1) + lastRow;
    UvRowsAt(t0, t1, t1, 0, 0);
    assert rows[|rows| - 1] == lastRow[t0 - 1];
    DivAtMostOne((t0 - 1) as real, (t0 - 1) as real);
    DivAtLeastOne((t0 - 1) as real, (t0 - 1) as real);
    DivAtMostOne((t1 - 1) as real, (t1 - 1) as real);
    DivAtLeastOne((t1 - 1) as real, (t1 - 1) as real);
  }

  /** With a single vertex along the longitude axis every first texture
      coordinate is 0 / 0, not a number. */
  lemma SingleColumnUvs(t1: Uint32)
    ensures forall k :: 0 <= k < |UvRows(1, t1, t1)| ==> UvRows(1, t1, t1)[k].0 == NaN
  {
    forall k | 0 <= k < |UvRows(1, t1, t1)|
      ensures UvRows(1, t1, t1)[k].0 == NaN
    {
      UvRowsAt(1, t1, t1, k, 0);
    }
  }

  /** The two triangles of the cell whose lower-left vertex is (lonIdx,
      latIdx): q0, q1, q2 and q2, q3, q0, going round the cell. */
  function CellTriangles(t0: nat, latIdx: nat, lonIdx: nat): (tris: seq<nat>)
    ensures |tris| == 6
  {
    var q0 := latIdx * t0 + lonIdx;
    var q1 := latIdx * t0 + lonIdx + 1;
    var q2 := (latIdx + 1) * t0 + lonIdx + 1;
    var q3 := (latIdx + 1) * t0 + lonIdx;
    [q0, q1, q2] + [q2, q3, q0]
  }

  /** The triangles of the first m cells of row latIdx. */
  function IndexRow(t0: nat, latIdx: nat, m: nat): (r: seq<nat>)
    ensures |r| == 6 * m
  {
    if m == 0 then [] else IndexRow(t0, latIdx, m - 1) + CellTriangles(t0, latIdx, m - 1)
  }

  /** The triangles of the first n rows of cells, each row m cells long. */
  function IndexRows(t0: nat, m: nat, n: nat): (r: seq<nat>)
    ensures |r| == 6 * (n * m)
  {
    if n == 0 then [] else IndexRows(t0, m, n - 1) + IndexRow(t0, n - 1, m)
  }

  /** The index list of a t0 x t1 grid. */
  function Indices(t0: Uint32, t1: Uint32): seq<nat>
  {
    IndexRows(t0, Cells(t0), Cells(t1))
  }

  /** No index of row latIdx exceeds (latIdx + 1) * t0 + m. */
  lemma {:induction false} IndexRowBound(t0: nat, latIdx: nat, m: nat)
    ensures forall i :: 0 <= i < |IndexRow(t0, latIdx, m)| ==> IndexRow(t0, latIdx, m)[i] <= (latIdx + 1) * t0 + m
  {
    if m > 0 {
      IndexRowBound(t0, latIdx, m - 1);
    }
  }

  /** No index of n rows exceeds n * t0 + m. */
  lemma {:induction false} IndexRowsBound(t0: nat, m: nat, n: nat)
    ensures forall i :: 0 <= i < |IndexRows(t0, m, n)| ==> IndexRows(t0, m, n)[i] <= n * t0 + m
  {
    if n > 0 {
      IndexRowsBound(t0, m, n - 1);
      IndexRowBound(t0, n - 1, m);
      MulMonotoneInt(n - 1, n, t0);
    }
  }

  /** Cell lonIdx of a row sits at 6 * lonIdx. */
  lemma {:induction false} IndexRowAt(t0: nat, latIdx: nat, m: nat, lonIdx: nat, j: nat)
    requires lonIdx < m && j < 6
    ensures IndexRow(t0, latIdx, m)[6 * lonIdx + j] == CellTriangles(t0, latIdx, lonIdx)[j]
  {
    if lonIdx < m - 1 {
      IndexRowAt(t0, latIdx, m - 1, lonIdx, j);
    }
  }

  /** Cell (lonIdx, latIdx) of n rows of m cells sits at 6 * (latIdx * m + lonIdx). */
  lemma {:induction false} IndexRowsAt(t0: nat, m: nat, n: nat, latIdx: nat, lonIdx: nat, j: nat)
    requires latIdx < n && lonIdx < m && j < 6
    ensures 6 * (latIdx * m + lonIdx) + j < 6 * (n * m)
    ensures IndexRows(t0, m, n)[6 * (latIdx * m + lonIdx) + j] == CellTriangles(t0, latIdx, lonIdx)[j]
  {
    MulMonotoneInt(latIdx + 1, n, m);
    MulSuccInt(latIdx, m);
    if latIdx < n - 1 {
      IndexRowsAt(t0, m, n - 1, latIdx, lonIdx, j);
    } else {
      IndexRowAt(t0, n - 1, m, lonIdx, j);
    }
  }

  /** The index list of a grid with at least one vertex per axis: 6 indices
      per cell, every one naming a vertex of the grid. */
  lemma IndicesFacts(t0: Uint32, t1: Uint32)
    requires 1 <= t0 && 1 <= t1
    ensures |Indices(t0, t1)| == 6 * (t0 - 1) * (t1 - 1)
    ensures forall i :: 0 <= i < |Indices(t0, t1)| ==> Indices(t0, t1)[i] < t0 * t1
  {
    IndexRowsBound(t0, t0 - 1, t1 - 1);
    assert (t1 - 1) * t0 + (t0 - 1) < t0 * t1;
  }

  /** The index list as the source's loops produce it: each loop runs while
      its index is below tessel - 1 computed in uint32 arithmetic. */
  function IndicesAsWritten(t0: Uint32, t1: Uint32): seq<nat>
  {
    IndexRows(t0, Pred32(t0), Pred32(t1))
  }

  /** With no vertex along the latitude axis the bound wraps: the grid has no
      vertex, yet the index list is not empty, so every index in it names a
      vertex that does not exist. */
  lemma EmptyGridAsWritten(t0: Uint32)
    requires 2 <= t0
    ensures |UvRows(t0, 0, 0)| == 0
    ensures |IndicesAsWritten(t0, 0)| == 6 * (t0 - 1) * 0xFFFF_FFFF
    ensures |IndicesAsWritten(t0, 0)| > 0
  {
  }

  /** HeightMapRenderer: the grid of the last SetupMap and the last render
      parameters. */
  class HeightMapRenderer {
    var rndrParam: RenderParameters
    var mapParam: MapParameters
    /** The isPillar and heightRange uniforms. */
    var isPillar: bool
    var heightRangeUniform: (real, real)
    var verts: seq<Vec3>
    var uvs: seq<Uv>
    /** The index list of the geometry's one primitive set. */
    var indices: seq<nat>

    /** No geometry yet; the map type defaults to pillars. */
    constructor ()
      ensures verts == [] && uvs == [] && indices == []
      ensures isPillar && heightRangeUniform == (0.0, 0.0)
      ensures !rndrParam.volStartFromLonZero
    {
      rndrParam := RenderParameters((0.0, 0.0), false, []);
      mapParam := MapParameters((0.0, 0.0), (0.0, 0.0), (0.0, 0.0), Pillar, (32, 32));
      isPillar := true;
      heightRangeUniform := (0.0, 0.0);
      verts, uvs, indices := [], [], [];
    }

    /** Stores the parameters and passes the height range to the shader. */
    method SetRenderParameters(param: RenderParameters)
      modifies this`rndrParam, this`heightRangeUniform
      ensures GetRenderParameters() == param && heightRangeUniform == param.heightRange
    {
      rndrParam := param;
      heightRangeUniform := param.heightRange;
    }

    function GetRenderParameters(): RenderParameters
      reads this
    {
      rndrParam
    }

    /** Rebuilds the grid from scratch: t0 * t1 vertices row after row with
        their texture coordinates, and the two triangles of every cell.
        toSphere places a texture coordinate on the sphere. */
    method SetupMap(param: MapParameters, toSphere: Uv -> Vec3)
      modifies this`mapParam, this`isPillar, this`verts, this`uvs, this`indices
      ensures mapParam == param && isPillar == (param.heightMapTy == Pillar)
      ensures uvs == UvRows(param.tessel.0, param.tessel.1, param.tessel.1)
      ensures |verts| == |uvs| && forall k :: 0 <= k < |uvs| ==> verts[k] == toSphere(uvs[k])
      ensures indices == Indices(param.tessel.0, param.tessel.1)
    {
      mapParam := param;
      isPillar := param.heightMapTy == Pillar;
      verts, uvs := Grid(param.tessel.0, param.tessel.1, toSphere);
      indices := GridIndices(param.tessel.0, param.tessel.1);
    }

    /** The vertex loop: t1 rows of t0 vertices each. */
    static method Grid(t0: Uint32, t1: Uint32, toSphere: Uv -> Vec3) returns (verts: seq<Vec3>, uvs: seq<Uv>)
      ensures uvs == UvRows(t0, t1, t1)
      ensures |verts| == |uvs| && forall k :: 0 <= k < |uvs| ==> verts[k] == toSphere(uvs[k])
    {
      verts, uvs := [], [];
      for latIdx := 0 to t1
        invariant uvs == UvRows(t0, t1, latIdx)
        invariant |verts| == |uvs| && forall k :: 0 <= k < |uvs| ==> verts[k] == toSphere(uvs[k])
      {
        for lonIdx := 0 to t0
          invariant uvs == UvRows(t0, t1, latIdx) + UvRow(t0, t1, latIdx)[..lonIdx]
          invariant |verts| == |uvs| && forall k :: 0 <= k < |uvs| ==> verts[k] == toSphere(uvs[k])
        {
          var uv := UvOf(t0, t1, latIdx, lonIdx);
          verts := verts + [toSphere(uv)];
          uvs := uvs + [uv];
        }
        assert UvRow(t0, t1, latIdx)[..t0] == UvRow(t0, t1, latIdx);
      }
    }

    /** The index loop: the two triangles of every cell, row after row. */
    static method GridIndices(t0: Uint32, t1: Uint32) returns (vertIndices: seq<nat>)
      ensures vertIndices == Indices(t0, t1)
    {
      vertIndices := [];
      for latIdx := 0 to Cells(t1)
        invariant vertIndices == IndexRows(t0, Cells(t0), latIdx)
      {
        vertIndices := AddRow(vertIndices, t0, latIdx, Cells(t0));
      }
    }

    /** The inner index loop: the cells of row latIdx, left to right. */
    static method AddRow(vertIndices: seq<nat>, t0: Uint32, latIdx: nat, cells: nat) returns (r: seq<nat>)
      ensures r == vertIndices + IndexRow(t0, latIdx, cells)
    {
      r := vertIndices;
      for lonIdx := 0 to cells
        invariant r == vertIndices + IndexRow(t0, latIdx, lonIdx)
      {
        r := AddBotSurf(r, t0, latIdx, lonIdx);
      }
    }

    /** The addBotSurf step: the cell's four corners, appended as two
        triangles. */
    static method AddBotSurf(vertIndices: seq<nat>, t0: Uint32, latIdx: nat, lonIdx: nat) returns (r: seq<nat>)
      ensures r == vertIndices + CellTriangles(t0, latIdx, lonIdx)
    {
      var q0 := latIdx * t0 + lonIdx;
      var q1 := latIdx * t0 + lonIdx + 1;
      var q2 := (latIdx + 1) * t0 + lonIdx + 1;
      var q3 := (latIdx + 1) * t0 + lonIdx;
      r := vertIndices + [q0, q1, q2];
      r := r + [q2, q3, q0];
    }
  }
}
