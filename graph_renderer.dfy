// The graph renderer: each graph keeps its node positions, its edges and the
// geographic box it is drawn in; Update fits the nodes' bounding box to the
// unit cube and puts one sphere per node.  Where a point of the unit cube
// lies on the globe is trigonometry: the model stops at its longitude,
// latitude and height.
module GraphViser {
  import opened Numerics

  /** osg::Vec3. */
  datatype Vec3 = Vec3(x: real, y: real, z: real)

  /** A position whose coordinates may be infinite or not a number. */
  datatype Vec3F = Vec3F(x: Float, y: Float, z: Float)

  datatype Axis = X | Y | Z

  function Coord(p: Vec3, axis: Axis): real
  {
    match axis
    case X => p.x
    case Y => p.y
    case Z => p.z
  }

  /** An entry of the node map: a node's name and position. */
  datatype NodeEntry = NodeEntry(name: string, pos: Vec3)

  /** An edge: the names of its two end nodes. */
  type Edge = (string, string)

  /** The smallest coordinate along an axis, starting the running minimum
      from start. */
  function MinCoord(nodes: seq<NodeEntry>, axis: Axis, start: real): real
    decreases |nodes|
  {
    if |nodes| == 0 then start
    else
      var m := MinCoord(nodes[..|nodes| - 1], axis, start);
      var c := Coord(nodes[|nodes| - 1].pos, axis);
      if m > c then c else m
  }

  /** The largest coordinate along an axis, starting the running maximum
      from start. */
  function MaxCoord(nodes: seq<NodeEntry>, axis: Axis, start: real): real
    decreases |nodes|
  {
    if |nodes| == 0 then start
    else
      var m := MaxCoord(nodes[..|nodes| - 1], axis, start);
      var c := Coord(nodes[|nodes| - 1].pos, axis);
      if m < c then c else m
  }

  /** The running minimum is a lower bound of start and of every coordinate,
      and is start or one of the coordinates. */
  lemma {:induction false} MinCoordBounds(nodes: seq<NodeEntry>, axis: Axis, start: real)
    ensures MinCoord(nodes, axis, start) <= start
    ensures forall i :: 0 <= i < |nodes| ==> MinCoord(nodes, axis, start) <= Coord(nodes[i].pos, axis)
    ensures MinCoord(nodes, axis, start) == start ||
      exists i :: 0 <= i < |nodes| && MinCoord(nodes, axis, start) == Coord(nodes[i].pos, axis)
    decreases |nodes|
  {
    if |nodes| > 0 {
      var init := nodes[..|nodes| - 1];
      MinCoordBounds(init, axis, start);
      assert forall i :: 0 <= i < |init| ==> init[i] == nodes[i];
    }
  }

  /** The running maximum is an upper bound of start and of every
      coordinate, and is start or one of the coordinates. */
  lemma {:induction false} MaxCoordBounds(nodes: seq<NodeEntry>, axis: Axis, start: real)
    ensures start <= MaxCoord(nodes, axis, start)
    ensures forall i :: 0 <= i < |nodes| ==> Coord(nodes[i].pos, axis) <= MaxCoord(nodes, axis, start)
    ensures MaxCoord(nodes, axis, start) == start ||
      exists i :: 0 <= i < |nodes| && MaxCoord(nodes, axis, start) == Coord(nodes[i].pos, axis)
    decreases |nodes|
  {
    if |nodes| > 0 {
      var init := nodes[..|nodes| - 1];
      MaxCoordBounds(init, axis, start);
      assert forall i :: 0 <= i < |init| ==> init[i] == nodes[i];
    }
  }

  /** The lower corner of the bounding box; the running minimum starts at the
      largest float. */
  function MinCorner(nodes: seq<NodeEntry>): Vec3
  {
    Vec3(MinCoord(nodes, X, FLT_MAX), MinCoord(nodes, Y, FLT_MAX), MinCoord(nodes, Z, FLT_MAX))
  }

  /** The upper corner as the source computes it: the running maximum starts
      at the smallest POSITIVE float. */
  function MaxCornerAsWritten(nodes: seq<NodeEntry>): Vec3
  {
    Vec3(MaxCoord(nodes, X, FLT_MIN), MaxCoord(nodes, Y, FLT_MIN), MaxCoord(nodes, Z, FLT_MIN))
  }

  /** The upper corner with the running maximum starting at the lowest
      float. */
  function MaxCorner(nodes: seq<NodeEntry>): Vec3
  {
    Vec3(MaxCoord(nodes, X, FLT_LOWEST), MaxCoord(nodes, Y, FLT_LOWEST), MaxCoord(nodes, Z, FLT_LOWEST))
  }

  /** Every coordinate is a float: within [lowest, max]. */
  ghost predicate InFloatRange(nodes: seq<NodeEntry>)
  {
    forall i, axis :: 0 <= i < |nodes| ==> FLT_LOWEST <= Coord(nodes[i].pos, axis) <= FLT_MAX
  }

  /** Each coordinate shifted by the lower corner and divided by the box's
      extent along its axis. */
  function Normalise(p: Vec3, lo: Vec3, hi: Vec3): Vec3F
  {
    Vec3F(Div(p.x - lo.x, hi.x - lo.x), Div(p.y - lo.y, hi.y - lo.y), Div(p.z - lo.z, hi.z - lo.z))
  }

  /** A value within [lo, hi], lo < hi, lands in [0, 1]: 0 at lo, 1 at hi. */
  lemma UnitInterval(v: real, lo: real, hi: real)
    requires lo <= v <= hi && lo < hi
    ensures Div(v - lo, hi - lo).Num? && 0.0 <= Div(v - lo, hi - lo).r <= 1.0
    ensures v == lo ==> Div(v - lo, hi - lo) == Num(0.0)
    ensures v == hi ==> Div(v - lo, hi - lo) == Num(1.0)
  {
    if v > lo {
      DivAtMostOne(v - lo, hi - lo);
    }
    if v == hi {
      DivAtLeastOne(v - lo, hi - lo);
    }
  }

  /** The box has a positive extent along every axis. */
  predicate NonDegenerate(lo: Vec3, hi: Vec3)
  {
    lo.x < hi.x && lo.y < hi.y && lo.z < hi.z
  }

  /** A finite position inside the unit cube. */
  predicate InUnitCube(q: Vec3F)
  {
    InUnit(q.x) && InUnit(q.y) && InUnit(q.z)
  }

  /** A finite value in [0, 1]. */
  predicate InUnit(q: Float)
  {
    q.Num? && 0.0 <= q.r <= 1.0
  }

  /** Along an axis with a positive extent every coordinate lands in [0, 1]. */
  lemma CoordFits(nodes: seq<NodeEntry>, axis: Axis, i: nat)
    requires i < |nodes| && InFloatRange(nodes)
    requires MinCoord(nodes, axis, FLT_MAX) < MaxCoord(nodes, axis, FLT_LOWEST)
    ensures InUnit(Div(Coord(nodes[i].pos, axis) - MinCoord(nodes, axis, FLT_MAX),
                       MaxCoord(nodes, axis, FLT_LOWEST) - MinCoord(nodes, axis, FLT_MAX)))
  {
    MinCoordBounds(nodes, axis, FLT_MAX);
    MaxCoordBounds(nodes, axis, FLT_LOWEST);
    UnitInterval(Coord(nodes[i].pos, axis), MinCoord(nodes, axis, FLT_MAX), MaxCoord(nodes, axis, FLT_LOWEST));
  }

  /** Along an axis with a positive extent some node lies on the lower and
      some on the upper end of the box. */
  lemma AxisAttained(nodes: seq<NodeEntry>, axis: Axis)
    requires InFloatRange(nodes)
    requires MinCoord(nodes, axis, FLT_MAX) < MaxCoord(nodes, axis, FLT_LOWEST)
    ensures exists i :: 0 <= i < |nodes| && Coord(nodes[i].pos, axis) == MinCoord(nodes, axis, FLT_MAX)
    ensures exists i :: 0 <= i < |nodes| && Coord(nodes[i].pos, axis) == MaxCoord(nodes, axis, FLT_LOWEST)
  {
    var lo, hi := MinCoord(nodes, axis, FLT_MAX), MaxCoord(nodes, axis, FLT_LOWEST);
    MinCoordBounds(nodes, axis, FLT_MAX);
    MaxCoordBounds(nodes, axis, FLT_LOWEST);
    if |nodes| > 0 {
      assert lo <= Coord(nodes[0].pos, axis) <= FLT_MAX;
      assert FLT_LOWEST <= Coord(nodes[0].pos, axis) <= hi;
    }
  }

  /** With a non-degenerate bounding box every node is fitted into the unit
      cube. */
  lemma FitsUnitCube(nodes: seq<NodeEntry>)
    requires InFloatRange(nodes) && NonDegenerate(MinCorner(nodes), MaxCorner(nodes))
    ensures forall i :: 0 <= i < |nodes| ==> InUnitCube(Normalise(nodes[i].pos, MinCorner(nodes), MaxCorner(nodes)))
  {
    forall i | 0 <= i < |nodes|
      ensures InUnitCube(Normalise(nodes[i].pos, MinCorner(nodes), MaxCorner(nodes)))
    {
      CoordFits(nodes, X, i);
      CoordFits(nodes, Y, i);
      CoordFits(nodes, Z, i);
    }
  }

  /** With a non-degenerate bounding box, along each axis some node lies on
      the lower and some on the upper face of the box: the fitted nodes span
      the whole unit cube. */
  lemma BoxIsTight(nodes: seq<NodeEntry>)
    requires InFloatRange(nodes) && NonDegenerate(MinCorner(nodes), MaxCorner(nodes))
    ensures forall axis :: exists i :: 0 <= i < |nodes| && Coord(nodes[i].pos, axis) == Coord(MinCorner(nodes), axis)
    ensures forall axis :: exists i :: 0 <= i < |nodes| && Coord(nodes[i].pos, axis) == Coord(MaxCorner(nodes), axis)
  {
    forall axis
      ensures exists i :: 0 <= i < |nodes| && Coord(nodes[i].pos, axis) == Coord(MinCorner(nodes), axis)
      ensures exists i :: 0 <= i < |nodes| && Coord(nodes[i].pos, axis) == Coord(MaxCorner(nodes), axis)
    {
      AxisAttained(nodes, axis);
    }
  }

  /** With every node at a negative x, the maximum as written never leaves the
      smallest positive float: no node reaches 1 along x, while starting
      from the lowest float the node at the largest x does. */
  lemma MaxCornerAsWrittenMissesNodes()
    ensures var nodes := [NodeEntry("a", Vec3(-1.0, -1.0, -1.0)), NodeEntry("b", Vec3(-2.0, -2.0, -2.0))];
      && MaxCornerAsWritten(nodes).x == FLT_MIN
      && Normalise(nodes[0].pos, MinCorner(nodes), MaxCornerAsWritten(nodes)).x.r < 1.0
      && MaxCorner(nodes).x == -1.0
      && Normalise(nodes[0].pos, MinCorner(nodes), MaxCorner(nodes)).x == Num(1.0)
  {
    var nodes := [NodeEntry("a", Vec3(-1.0, -1.0, -1.0)), NodeEntry("b", Vec3(-2.0, -2.0, -2.0))];
    MinCoordBounds(nodes, X, FLT_MAX);
    MaxCoordBounds(nodes, X, FLT_MIN);
    MaxCoordBounds(nodes, X, FLT_LOWEST);
    assert Coord(nodes[0].pos, X) == -1.0 && Coord(nodes[1].pos, X) == -2.0;
    assert MinCorner(nodes).x == -2.0;
    assert MaxCornerAsWritten(nodes).x == FLT_MIN;
    assert MaxCorner(nodes).x == -1.0;
    DivAtLeastOne(1.0, 1.0);
  }

  /** GraphRenderer::PerGraphParam without its scene-graph nodes. */
  class PerGraphParam {
    var minLongitude: real
    var maxLongitude: real
    var minLatitude: real
    var maxLatitude: real
    var minHeight: real
    var maxHeight: real
    var volStartFromLonZero: bool
    /** The node map's entries in its iteration order. */
    const nodes: seq<NodeEntry>
    const edges: seq<Edge>
    /** The spheres of the graph's group, one per node, each at the node's
        position fitted into the unit cube. */
    var children: seq<Vec3F>

    /** The box the setters allow: ordered ranges, heights from the centre
        non-negative. */
    predicate Valid()
      reads this
    {
      minLongitude < maxLongitude && minLatitude < maxLatitude && 0.0 <= minHeight < maxHeight
    }

    /** The default box: longitude within 10 and latitude within 20 degrees
        of zero, heights 1.1 to 1.3 earth radii; no sphere yet. */
    constructor (nodes: seq<NodeEntry>, edges: seq<Edge>)
      ensures Valid() && this.nodes == nodes && this.edges == edges && children == []
      ensures (minLongitude, maxLongitude) == (Deg2Rad(-10.0), Deg2Rad(10.0))
      ensures (minLatitude, maxLatitude) == (Deg2Rad(-20.0), Deg2Rad(20.0))
      ensures (minHeight, maxHeight) == (WGS_84_RADIUS_EQUATOR * 1.1, WGS_84_RADIUS_EQUATOR * 1.3)
      ensures !volStartFromLonZero
    {
      this.nodes := nodes;
      this.edges := edges;
      minLongitude, maxLongitude := Deg2Rad(-10.0), Deg2Rad(10.0);
      minLatitude, maxLatitude := Deg2Rad(-20.0), Deg2Rad(20.0);
      minHeight, maxHeight := WGS_84_RADIUS_EQUATOR * 1.1, WGS_84_RADIUS_EQUATOR * 1.3;
      volStartFromLonZero := false;
      children := [];
    }

    /** Replaces the group's spheres with one per node, in the node map's
        order, each at the node fitted into the unit cube by the nodes'
        bounding box. */
    method Update()
      modifies this`children
      ensures |children| == |nodes|
      ensures forall i :: 0 <= i < |nodes| ==> children[i] == Normalise(nodes[i].pos, MinCorner(nodes), MaxCorner(nodes))
    {
      var minPos, maxPos := BoundingBox(nodes);
      children := [];
      for i := 0 to |nodes|
        invariant |children| == i
        invariant forall j :: 0 <= j < i ==> children[j] == Normalise(nodes[j].pos, minPos, maxPos)
      {
        var p := nodes[i].pos;
        var dlt := Vec3(maxPos.x - minPos.x, maxPos.y - minPos.y, maxPos.z - minPos.z);
        children := children + [Vec3F(Div(p.x - minPos.x, dlt.x), Div(p.y - minPos.y, dlt.y), Div(p.z - minPos.z, dlt.z))];
      }
    }

    /** The minMax loop over the node map. */
    static method BoundingBox(nodes: seq<NodeEntry>) returns (minPos: Vec3, maxPos: Vec3)
      ensures minPos == MinCorner(nodes) && maxPos == MaxCorner(nodes)
    {
      minPos := Vec3(FLT_MAX, FLT_MAX, FLT_MAX);
      maxPos := Vec3(FLT_LOWEST, FLT_LOWEST, FLT_LOWEST);
      for i := 0 to |nodes|
        invariant minPos == MinCorner(nodes[..i]) && maxPos == MaxCorner(nodes[..i])
      {
        assert nodes[..i + 1][..i] == nodes[..i];
        var p := nodes[i].pos;
        if minPos.x > p.x { minPos := minPos.(x := p.x); }
        if minPos.y > p.y { minPos := minPos.(y := p.y); }
        if minPos.z > p.z { minPos := minPos.(z := p.z); }
        if maxPos.x < p.x { maxPos := maxPos.(x := p.x); }
        if maxPos.y < p.y { maxPos := maxPos.(y := p.y); }
        if maxPos.z < p.z { maxPos := maxPos.(z := p.z); }
      }
      assert nodes[..|nodes|] == nodes;
    }

    /** vec3ToSphere up to the trigonometry: the longitude, latitude and
        height a point of the unit cube is drawn at; with the volume starting
        from longitude zero the x coordinate is turned half way round. */
    function ToSpherical(x: real, y: real, z: real): (real, real, real)
      reads this
    {
      var sx := if !volStartFromLonZero then x else if x < 0.5 then x + 0.5 else x - 0.5;
      (minLongitude + Mul(sx, maxLongitude - minLongitude),
       minLatitude + Mul(y, maxLatitude - minLatitude),
       minHeight + Mul(z, maxHeight - minHeight))
    }

    /** A point of the unit cube is drawn inside the graph's box. */
    lemma SphericalInBox(x: real, y: real, z: real)
      requires Valid()
      requires 0.0 <= x <= 1.0 && 0.0 <= y <= 1.0 && 0.0 <= z <= 1.0
      ensures minLongitude <= ToSpherical(x, y, z).0 <= maxLongitude
      ensures minLatitude <= ToSpherical(x, y, z).1 <= maxLatitude
      ensures minHeight <= ToSpherical(x, y, z).2 <= maxHeight
    {
      var sx := if !volStartFromLonZero then x else if x < 0.5 then x + 0.5 else x - 0.5;
      Scaled(sx, maxLongitude - minLongitude);
      Scaled(y, maxLatitude - minLatitude);
      Scaled(z, maxHeight - minHeight);
    }

    /** Degrees in [-180, 180], the minimum below the maximum: stored in
        radians; otherwise false and nothing changes. */
    method SetLongitudeRange(minLonDeg: real, maxLonDeg: real) returns (ok: bool)
      requires Valid()
      modifies this`minLongitude, this`maxLongitude
      ensures Valid()
      ensures ok <==> -180.0 <= minLonDeg && maxLonDeg <= 180.0 && minLonDeg < maxLonDeg
      ensures ok ==> (minLongitude, maxLongitude) == (Deg2Rad(minLonDeg), Deg2Rad(maxLonDeg))
      ensures !ok ==> (minLongitude, maxLongitude) == old((minLongitude, maxLongitude))
    {
      if minLonDeg < -180.0 {
        return false;
      }
      if maxLonDeg > 180.0 {
        return false;
      }
      if minLonDeg >= maxLonDeg {
        return false;
      }
      minLongitude := Deg2Rad(minLonDeg);
      maxLongitude := Deg2Rad(maxLonDeg);
      return true;
    }

    /** Degrees in [-90, 90], the minimum below the maximum: stored in
        radians; otherwise false and nothing changes. */
    method SetLatitudeRange(minLatDeg: real, maxLatDeg: real) returns (ok: bool)
      requires Valid()
      modifies this`minLatitude, this`maxLatitude
      ensures Valid()
      ensures ok <==> -90.0 <= minLatDeg && maxLatDeg <= 90.0 && minLatDeg < maxLatDeg
      ensures ok ==> (minLatitude, maxLatitude) == (Deg2Rad(minLatDeg), Deg2Rad(maxLatDeg))
      ensures !ok ==> (minLatitude, maxLatitude) == old((minLatitude, maxLatitude))
    {
      if minLatDeg < -90.0 {
        return false;
      }
      if maxLatDeg > 90.0 {
        return false;
      }
      if minLatDeg >= maxLatDeg {
        return false;
      }
      minLatitude := Deg2Rad(minLatDeg);
      maxLatitude := Deg2Rad(maxLatDeg);
      return true;
    }

    /** A non-negative minimum below the maximum is stored; otherwise false
        and nothing changes. */
    method SetHeightFromCenterRange(minH: real, maxH: real) returns (ok: bool)
      requires Valid()
      modifies this`minHeight, this`maxHeight
      ensures Valid()
      ensures ok <==> 0.0 <= minH < maxH
      ensures ok ==> (minHeight, maxHeight) == (minH, maxH)
      ensures !ok ==> (minHeight, maxHeight) == old((minHeight, maxHeight))
    {
      if minH < 0.0 {
        return false;
      }
      if minH >= maxH {
        return false;
      }
      minHeight := minH;
      maxHeight := maxH;
      return true;
    }

    method SetVolumeStartFromLongitudeZero(flag: bool)
      modifies this`volStartFromLonZero
      ensures volStartFromLonZero == flag
    {
      volStartFromLonZero := flag;
    }
  }

  /** lo + t * d stays within [lo, lo + d] for t in [0, 1] and d >= 0. */
  lemma Scaled(t: real, d: real)
    requires 0.0 <= t <= 1.0 && 0.0 <= d
    ensures 0.0 <= Mul(t, d) <= d
  {
    MulMonotone(0.0, t, d);
    MulMonotone(t, 1.0, d);
  }

  /** GraphRenderer: the graphs by name. */
  class GraphRenderer {
    var graphs: map<string, PerGraphParam>

    constructor ()
      ensures graphs == map[]
    {
      graphs := map[];
    }

    /** Adds a graph under a name, replacing any graph of that name. */
    method AddGraph(name: string, nodes: seq<NodeEntry>, edges: seq<Edge>)
      modifies this
      ensures graphs.Keys == old(graphs.Keys) + {name}
      ensures forall n :: n in old(graphs) && n != name ==> graphs[n] == old(graphs[n])
      ensures fresh(graphs[name]) && graphs[name].Valid()
      ensures graphs[name].nodes == nodes && graphs[name].edges == edges && graphs[name].children == []
    {
      if name in graphs {
        graphs := graphs - {name};
      }
      var g := new PerGraphParam(nodes, edges);
      graphs := graphs[name := g];
    }

    /** The graph of that name, or null when there is none. */
    method GetGraph(name: string) returns (g: PerGraphParam?)
      ensures name in graphs ==> g == graphs[name]
      ensures name !in graphs ==> g == null
    {
      if name !in graphs {
        return null;
      }
      return graphs[name];
    }
  }
}
