# vis-osg-qt core, modelled in Dafny

This project models the computational core of vis-osg-qt. vis-osg-qt is a
scientific-visualisation toolkit built on OpenSceneGraph and Qt. The model
covers these parts:

- **Graph bundling engine** (`graph_io.h`, `graph_layout_2D.h`): 2-D vectors,
  edges with subdivision points, and the force-directed edge bundling (FDEB)
  algorithm. This includes the spring, electrostatic and gravitational forces,
  the four compatibility measures, compatibility lists, iteration cycles,
  Gaussian smoothing, and graph loading with weight and percentage filtering.
- **Graph placement on the globe** (`graph_renderer.h`): the bounding box of
  the nodes and their normalisation into the unit cube.
- **Iso-contour extraction**:
  - marching squares over height slices (`marching_square_renderer.h`), with
    vertex sharing by edge identifier;
  - the isopleth widget's per-slice line scene (`isopleth_widget.h`);
  - marching cubes (`marching_cube_renderer.h`), with the cube index, edge
    interpolation, vertex reuse among earlier neighbours and triangle/edge
    output.
- **Volume transforms** (`vol_io.h`, `vol_osg_io.h`):
  - TXT and labelled TXT loading, z-flipping, value ranges and normalisation;
  - u8 and float converters;
  - 3×3×3 smoothing;
  - down-sampling into a power-of-two texture.
- **Transfer functions** (`tf_osg_io.h`, `tf_widget.h`):
  - the 256-entry colour table interpolated between key points;
  - the pre-integrated 256×256 table;
  - the widget's dirty-range bookkeeping, which keeps its dense table in step
    with its key points.
- **Registries and grids** (`multi_isosurfaces_renderer.h`,
  `height_renderer.h`): per-volume parameters with range-checked setters, the
  isosurface slot array, the displayed-volume switch, and the height map's
  uv grid and index buffer.

How the C++ is modelled:

- **Objects whose methods update fields are classes.** Examples are `Graph`,
  `PerVolParam`, the renderers, `TransferFunctionWidget`, `LabeledTXTVolume`
  and `HeightMapRenderer`.
- **Value types are datatypes.** Examples are `Vec2D`, `Edge`, volumes and
  meshes.
- **Loops are methods with invariants.** Each method is proved against a
  specification function, and the properties are proved about those
  functions.
- **The maths library is a parameter.** `sqrt`, `exp` and `pow` are passed
  in as a `Libm` value. Where a property needs them, it assumes only a lawful
  library (`Numerics.Lawful`): square roots are non-negative and square back,
  and `exp` and `pow` are positive. `Vec2D::normalize` computes its unit
  vector through `atan2`, `cos` and `sin`; `GraphIO.Normalize` gives the
  exact result `v / |v|` instead. The trigonometry of the spherical mapping
  is abstracted into `GraphViser.PerGraphParam.ToSpherical` and the height
  map's `toSphere` parameter.
- **Doubles are reals.** Where the source divides by a quantity that can be
  zero, the quotient is an IEEE `Numerics.Float` computed by `Numerics.Div`:
  an infinity of the dividend's sign, or NaN for 0/0. This covers the
  marching-square omegas and end points, the marching-cube voxel size, the
  multi-isosurface sample steps, the graph's normalisation into the unit
  cube, the height map's uv grid, and the volume normalisations.

## Model

| member | source | states |
|---|---|---|
| Numerics.Div | include/scivis/graph_viser/graph_renderer.h:115-128 | a quotient is a number exactly when the divisor is non-zero, and NaN exactly for 0/0 |
| Numerics.Deg2Rad | include/scivis/scalar_viser/marching_cube_renderer.h:532-535 | 180 degrees is pi, and the sign of an angle is kept |
| Numerics.TruncToInt | include/scivis/graph_viser/graph_layout_2D.h:204 | the float-to-int cast truncates toward zero: floor for non-negative values, ceiling for negative ones |
| Numerics.TruncDiv | include/scivis/graph_viser/graph_layout_2D.h:175 | C++ integer division rounds toward zero, bracketing the exact quotient from the side of zero |
| Numerics.Mix | include/scivis/io/tf_osg_io.h:31-36 | colour interpolation gives the left colour at 0 and the right colour at 1, and is constant when both colours are equal |
| VoxelIndex.FlatInBounds | include/scivis/scalar_viser/marching_cube_renderer.h:279-281 | the flat index of an in-range voxel lies inside the volume |
| VoxelIndex.DecodeFlat | include/scivis/scalar_viser/marching_cube_renderer.h:371-373 | decoding a flat index gives back the voxel coordinates |
| VoxelIndex.FlatDecode | include/scivis/scalar_viser/marching_cube_renderer.h:371-373 | every flat index below the volume size decodes to in-range coordinates that encode back to it |
| GraphIO.Length | include/scivis/io/graph_io.h:113 | under a lawful sqrt, a length is non-negative and is zero exactly for the zero vector |
| GraphIO.LengthSymmetric | include/scivis/io/graph_io.h:113 | the distance from a to b equals the distance from b to a |
| GraphIO.Normalize | include/scivis/io/graph_io.h:115-124 | normalisation gives a unit vector, and the zero vector becomes (1, 0) because atan2(0, 0) is 0 |
| GraphIO.NormalizeDirection | include/scivis/io/graph_io.h:115-124 | a non-zero vector is its unit vector scaled by its length, so its direction is kept |
| GraphIO.GaussWeight | include/scivis/io/graph_io.h:173-176 | the Gaussian weight is positive for a positive sigma and negative for a negative one |
| GraphIO.GaussWeightEven | include/scivis/io/graph_io.h:173-176 | the weight depends only on the distance's magnitude |
| GraphIO.ArrangeDirection | include/scivis/io/graph_io.h:248-257 | the result is the edge or its reverse, and the coordinate with the larger extent is non-decreasing from start to end |
| GraphIO.ArrangeDirectionIdempotent | include/scivis/io/graph_io.h:248-257 | arranging twice is the same as arranging once |
| GraphIO.ArrangeDirectionCanonical | include/scivis/io/graph_io.h:248-257 | an edge and its reverse arrange to the same edge if and only if one axis dominates or the edge is its own reverse |
| GraphIO.Center | include/scivis/io/graph_io.h:357-360 | the centre is equidistant from both points along the segment |
| GraphIO.CenterSymmetric | include/scivis/io/graph_io.h:357-360 | the centre does not depend on the order of the endpoints |
| GraphIO.NewEdge | include/scivis/io/graph_io.h:197-207 | a new edge is the arranged edge with exactly one subdivision point, at its midpoint |
| GraphIO.Doubled | include/scivis/io/graph_io.h:209-246 | re-subdividing n points yields 2n points |
| GraphIO.SubdivisionStep | include/scivis/io/graph_io.h:220-243 | each new point is interpolated on the current polyline segment; the parameter advances by one new segment length; the segment index never runs past the end |
| GraphIO.DoubledPointOn | include/scivis/io/graph_io.h:220-243 | new point k lies on old segment j at the parameter left over after j whole segments |
| GraphIO.AddSubdivisions | include/scivis/io/graph_io.h:209-246 | only the subdivisions change: no points become the midpoint, and n points become the doubled resampling |
| GraphIO.UpdateStepLength | include/scivis/io/graph_io.h:259-269 | a point under a force longer than EPSILON moves by exactly the step size |
| GraphIO.UpdatedEdge | include/scivis/io/graph_io.h:259-269 | an update changes only the subdivision points and keeps their number |
| GraphIO.Update | include/scivis/io/graph_io.h:259-269 | the loop moves every subdivision point as UpdatedEdge specifies |
| GraphIO.SmoothTotalSign | include/scivis/io/graph_io.h:271-302 | the partial sum of weights has the sign of sigma, so the normalising division is safe |
| GraphIO.FullTotal | include/scivis/io/graph_io.h:271-302 | the whole weight total, endpoints included, is non-zero with the sign of sigma |
| GraphIO.SmoothCollapsedFixed | include/scivis/io/graph_io.h:271-302 | if all points of an edge coincide, smoothing leaves each one where it is |
| GraphIO.Smooth | include/scivis/io/graph_io.h:271-302 | the loop computes the Gaussian-weighted average of every subdivision point |
| GraphIO.SpringForceBalanced | include/scivis/io/graph_io.h:304-321 | a point midway between its neighbours feels no spring force |
| GraphIO.SpringApplied | include/scivis/io/graph_io.h:304-321 | the spring forces are added to a buffer without changing its size |
| GraphIO.AddSpringForces | include/scivis/io/graph_io.h:304-321 | the loop adds the spring force of every subdivision point |
| GraphIO.ElectrostaticUnit | include/scivis/io/graph_io.h:323-336 | the electrostatic pull is a unit vector when the points are farther apart than eps, and zero otherwise |
| GraphIO.ElectrostaticAntisymmetric | include/scivis/io/graph_io.h:323-336 | the pull of q on p is the opposite of the pull of p on q |
| GraphIO.ElectrostaticApplied | include/scivis/io/graph_io.h:323-336 | the pulls of the other edge are added to a buffer without changing its size |
| GraphIO.AddElectrostaticForces | include/scivis/io/graph_io.h:323-336 | the loop adds the electrostatic pull at every subdivision point |
| GraphIO.GravityFactor | include/scivis/io/graph_io.h:338-350 | under a lawful library the gravitational factor is positive |
| GraphIO.GravityTowardsCentre | include/scivis/io/graph_io.h:338-350 | gravity is a positive multiple of the vector to the centre, and is zero at the centre |
| GraphIO.GravityApplied | include/scivis/io/graph_io.h:338-350 | gravity is added to a buffer without changing its size |
| GraphIO.AddGravitationalForces | include/scivis/io/graph_io.h:338-350 | the loop adds gravity at every subdivision point |
| GraphIO.ProjectOrthogonal | include/scivis/io/graph_io.h:369-375 | the projection of a point onto a line leaves a residual orthogonal to that line |
| GraphIO.ProjectEndpoints | include/scivis/io/graph_io.h:369-375 | each endpoint projects to itself |
| GraphIO.AngleCompatibilitySymmetric | include/scivis/io/graph_io.h:377-384 | the angle compatibility is symmetric |
| GraphIO.AngleCompatibilityBounds | include/scivis/io/graph_io.h:377-384 | the angle compatibility lies in [0, 1] |
| GraphIO.ScaleCompatibilityProperties | include/scivis/io/graph_io.h:387-396 | the scale compatibility is symmetric and lies in [0, 1]; it is 0 when the mean length is at most EPSILON, positive for non-degenerate edges, and 1 for equal lengths |
| GraphIO.PositionCompatibilitySymmetric | include/scivis/io/graph_io.h:398-409 | the position compatibility is symmetric, and is 0 when the mean length is at most EPSILON |
| GraphIO.PositionCompatibilityBounds | include/scivis/io/graph_io.h:398-409 | for edges of mean length above EPSILON, the position compatibility lies in (0, 1] and is 1 if and only if the midpoints coincide |
| GraphIO.EdgeVisibilityBounds | include/scivis/io/graph_io.h:411-418 | edge visibility lies in [0, 1] |
| GraphIO.VisibilityCompatibilityProperties | include/scivis/io/graph_io.h:420-424 | the visibility compatibility is symmetric and lies in [0, 1] |
| GraphLayout.CompatibilityScoreProperties | include/scivis/graph_viser/graph_layout_2D.h:120-123 | the product of the four measures is symmetric and lies in [0, 1] |
| GraphLayout.CompatibilityIgnoresLists | include/scivis/graph_viser/graph_layout_2D.h:120-123 | the score does not depend on the compatibility lists already built |
| GraphLayout.CompatibleInSymmetric | include/scivis/graph_viser/graph_layout_2D.h:120-123 | the compatible-pair relation is symmetric |
| GraphLayout.PartnersMembership | include/scivis/graph_viser/graph_layout_2D.h:112-131 | an index is in an edge's list if and only if it is a different, compatible edge of the graph |
| GraphLayout.PartnersIncreasing | include/scivis/graph_viser/graph_layout_2D.h:112-131 | each list is strictly increasing and holds only valid edge indices |
| GraphLayout.PartnersSymmetric | include/scivis/graph_viser/graph_layout_2D.h:124-129 | j is in i's list if and only if i is in j's list, and no edge lists itself |
| GraphLayout.CompatibilityListsSymmetric | include/scivis/graph_viser/graph_layout_2D.h:112-131 | the lists built from the compatibility scores are mutual and irreflexive |
| GraphLayout.CompatibilityLists | include/scivis/graph_viser/graph_layout_2D.h:112-131 | the double loop appends to every edge's list exactly its compatible partners |
| GraphLayout.IteratedKeepsShape | include/scivis/graph_viser/graph_layout_2D.h:133-171 | an iteration changes only subdivision points, and the edges stay ready for the next iteration |
| GraphLayout.SpringPhase | include/scivis/graph_viser/graph_layout_2D.h:142-144 | the first phase fills every edge's force buffer with its spring forces |
| GraphLayout.ElectrostaticPhase | include/scivis/graph_viser/graph_layout_2D.h:146-155 | the second phase adds the pulls of every compatible edge |
| GraphLayout.GravityPhase | include/scivis/graph_viser/graph_layout_2D.h:157-163 | the third phase adds gravity to every buffer |
| GraphLayout.UpdatePhase | include/scivis/graph_viser/graph_layout_2D.h:166-167 | the last phase moves every edge by its accumulated forces |
| GraphLayout.IterateEdges | include/scivis/graph_viser/graph_layout_2D.h:133-171 | one iteration computes Iterated from the edges |
| GraphLayout.SubdivisionCountUniform | include/scivis/graph_viser/graph_layout_2D.h:181-186 | edges with equal subdivision counts still have equal counts after re-subdividing |
| GraphLayout.SortByWidth | include/scivis/graph_viser/graph_layout_2D.h:198-203 | the edges end up sorted by ascending width and are a permutation of the input |
| GraphLayout.SortedFirstIsLightest | include/scivis/graph_viser/graph_layout_2D.h:204 | after sorting, the first edge is an input edge of minimal width |
| GraphLayout.SortedDivisor | include/scivis/graph_viser/graph_layout_2D.h:204-242 | if the lightest width does not truncate to -1, then neither does the width that the normalisation divides by |
| GraphLayout.WiderProperties | include/scivis/graph_viser/graph_layout_2D.h:206-218 | the weight filter keeps exactly the edges wider than the threshold, in sorted order |
| GraphLayout.KeptProperties | include/scivis/graph_viser/graph_layout_2D.h:206-238 | every filter keeps the edges sorted; the percentage filter keeps a lightest prefix; with no threshold every edge is kept |
| GraphLayout.BumpProperties | include/scivis/graph_viser/graph_layout_2D.h:206-238 | adding an endpoint raises that node's degree by one, creates the node at the origin if it is missing, and leaves every other node alone |
| GraphLayout.AddDegreesDegree | include/scivis/graph_viser/graph_layout_2D.h:206-238 | each node's degree grows by the number of kept edges it ends |
| GraphLayout.AddDegreesKeys | include/scivis/graph_viser/graph_layout_2D.h:206-238 | the node map gains exactly the labels of the kept edges |
| GraphLayout.AddDegreesPositions | include/scivis/graph_viser/graph_layout_2D.h:206-238 | existing nodes keep their position, and new nodes start at the origin |
| GraphLayout.TotalDegreeIncrease | include/scivis/graph_viser/graph_layout_2D.h:206-238 | the degrees of the nodes grow in total by twice the number of kept edges |
| GraphLayout.ScaledWidths | include/scivis/graph_viser/graph_layout_2D.h:240-242 | normalising widths keeps the number of edges |
| GraphLayout.ScaledWidthCanExceedOne | include/scivis/graph_viser/graph_layout_2D.h:204-242 | the divisor is taken from the lightest edge, so widths 1 and 3 give a normalised width of 1.5 |
| GraphLayout.SmoothedEdges | include/scivis/graph_viser/graph_layout_2D.h:188-193 | smoothing the graph keeps the number of edges |
| GraphLayout.Graph.constructor | include/scivis/graph_viser/graph_layout_2D.h:50-69 | a new graph is empty and holds the source's default parameters |
| GraphLayout.Graph.SetNetworkParams | include/scivis/graph_viser/graph_layout_2D.h:81-87 | a positive weight threshold takes precedence over the percentage; otherwise a positive percentage is stored; otherwise nothing changes |
| GraphLayout.Graph.SetAlgorithmParams | include/scivis/graph_viser/graph_layout_2D.h:88-96 | K, cycles, I (also as iter), the compatibility threshold and sigma are stored and nothing else changes |
| GraphLayout.Graph.SetPhysicsParams | include/scivis/graph_viser/graph_layout_2D.h:97-103 | S, the edge distance, the gravity centre and the exponent are stored and nothing else changes |
| GraphLayout.Graph.EnableGravitation | include/scivis/graph_viser/graph_layout_2D.h:104-107 | only the gravity switch turns on |
| GraphLayout.Graph.SetGraphicsParams | include/scivis/graph_viser/graph_layout_2D.h:108-111 | only the edge opacity changes |
| GraphLayout.Graph.BuildCompatibilityLists | include/scivis/graph_viser/graph_layout_2D.h:112-131 | every edge's list gains its compatible partners; nodes and parameters are unchanged |
| GraphLayout.Graph.Iterate | include/scivis/graph_viser/graph_layout_2D.h:133-171 | the edges take one FDEB step, iter drops by one, and the new iter is returned |
| GraphLayout.Graph.UpdateCycle | include/scivis/graph_viser/graph_layout_2D.h:172-179 | S halves; I becomes 2I/3 truncated, and iter takes the same value; cycles drops by one and is returned |
| GraphLayout.Graph.AddSubvisions | include/scivis/graph_viser/graph_layout_2D.h:181-186 | every edge is re-subdivided (1 point from 0, else twice as many), and nothing else changes |
| GraphLayout.Graph.Smooth | include/scivis/graph_viser/graph_layout_2D.h:188-193 | every edge is replaced by its smoothed edge |
| GraphLayout.Graph.ScaleWidths | include/scivis/graph_viser/graph_layout_2D.h:240-242 | every width is multiplied by 1/(wmax + 1) |
| GraphLayout.Graph.Set | include/scivis/graph_viser/graph_layout_2D.h:195-245 | the input array ends up sorted and permuted; the filtered edges are appended, their endpoints gain degree, the widths are normalised, and the compatibility lists are rebuilt |
| GraphViser.MinCoordBounds | include/scivis/graph_viser/graph_renderer.h:70-92 | the minimum fold is at most every node coordinate and is either its start value or some node's coordinate |
| GraphViser.MaxCoordBounds | include/scivis/graph_viser/graph_renderer.h:70-92 | the maximum fold is at least every node coordinate and is either its start value or some node's coordinate |
| GraphViser.UnitInterval | include/scivis/graph_viser/graph_renderer.h:115-128 | normalising a value within a non-empty range gives a number in [0, 1], with 0 at the low end and 1 at the high end |
| GraphViser.CoordFits | include/scivis/graph_viser/graph_renderer.h:115-128 | every node coordinate normalises into [0, 1] |
| GraphViser.AxisAttained | include/scivis/graph_viser/graph_renderer.h:70-92 | with corners starting at FLT_MAX and lowest(), each corner coordinate is attained by some node |
| GraphViser.FitsUnitCube | include/scivis/graph_viser/graph_renderer.h:70-128 | with the corrected corners, every node lands in the unit cube |
| GraphViser.BoxIsTight | include/scivis/graph_viser/graph_renderer.h:70-92 | every face of the corrected box touches a node |
| GraphViser.MaxCornerAsWrittenMissesNodes | include/scivis/graph_viser/graph_renderer.h:74-77 | starting the maximum at FLT_MIN leaves an all-negative graph without a node at 1 |
| GraphViser.Scaled | include/scivis/graph_viser/graph_renderer.h:93-110 | a unit parameter scales a non-negative span to within that span |
| GraphViser.PerGraphParam.constructor | include/scivis/graph_viser/graph_renderer.h:49-67 | a new graph is placed at longitudes ±10, latitudes ±20 and heights 1.1 to 1.3 earth radii, with no children |
| GraphViser.PerGraphParam.Update | include/scivis/graph_viser/graph_renderer.h:68-129 | there is one child per node, at the node's position normalised into the box of all nodes; the box is the corrected one of "## Findings" (maximum starting at FLT_LOWEST, not FLT_MIN) |
| GraphViser.PerGraphParam.BoundingBox | include/scivis/graph_viser/graph_renderer.h:70-92 | the fold loop returns the minimum and maximum corners, with the maximum started at FLT_LOWEST as corrected in "## Findings" (the source starts it at FLT_MIN) |
| GraphViser.PerGraphParam.SphericalInBox | include/scivis/graph_viser/graph_renderer.h:93-110 | a point of the unit cube maps into the graph's longitude, latitude and height ranges |
| GraphViser.PerGraphParam.SetLongitudeRange | include/scivis/graph_viser/graph_renderer.h:130-139 | succeeds if and only if the degrees are in [-180, 180] and increasing; stores radians on success and changes nothing on failure |
| GraphViser.PerGraphParam.SetLatitudeRange | include/scivis/graph_viser/graph_renderer.h:140-149 | succeeds if and only if the degrees are in [-90, 90] and increasing; stores radians on success and changes nothing on failure |
| GraphViser.PerGraphParam.SetHeightFromCenterRange | include/scivis/graph_viser/graph_renderer.h:150-158 | succeeds if and only if 0 <= min < max; stores the range on success and changes nothing on failure |
| GraphViser.PerGraphParam.SetVolumeStartFromLongitudeZero | include/scivis/graph_viser/graph_renderer.h:159-162 | only the flag is set |
| GraphViser.GraphRenderer.constructor | include/scivis/graph_viser/graph_renderer.h:175 | a new renderer holds no graphs |
| GraphViser.GraphRenderer.AddGraph | include/scivis/graph_viser/graph_renderer.h:183-196 | the name maps to a fresh graph with the given nodes and edges, and the other entries are kept |
| GraphViser.GraphRenderer.GetGraph | include/scivis/graph_viser/graph_renderer.h:197-203 | the entry under the name is returned, or null if there is none |
| MarchingSquare.CornerInBounds | include/scivis/scalar_viser/marching_square_renderer.h:288-306 | the four corners of every cell inside the loop bounds are inside the volume |
| MarchingSquare.ReadScalars | include/scivis/scalar_viser/marching_square_renderer.h:301-306 | the four corner samples are read counter-clockwise from (x, y) |
| MarchingSquare.CornerStateSum | include/scivis/scalar_viser/marching_square_renderer.h:307-309 | the state is the sum of 2^k over the corners at or above the iso-value |
| MarchingSquare.CornerStateBits | include/scivis/scalar_viser/marching_square_renderer.h:307-309 | the state is below 16, and bit k is set if and only if corner k is at or above the iso-value |
| MarchingSquare.ClassifyCorners | include/scivis/scalar_viser/marching_square_renderer.h:307-309 | the classification loop computes that state |
| MarchingSquare.MaskEdgesOfTable | include/scivis/scalar_viser/marching_square_renderer.h:236-275 | each of the six edge-pair masks selects the two edges it names |
| MarchingSquare.SegmentMasksHaveTwoEdges | include/scivis/scalar_viser/marching_square_renderer.h:316-349 | every mask in the case table names exactly two distinct edges |
| MarchingSquare.SegmentMasksComplement | include/scivis/scalar_viser/marching_square_renderer.h:316-349 | complementary states have the same segments except the two saddles; states 0 and 15 have none and the saddles have two |
| MarchingSquare.SegmentEndsOfState | include/scivis/scalar_viser/marching_square_renderer.h:316-349 | the switch's segment endpoints match a compact per-state table |
| MarchingSquare.CrossedEdgesOfState | include/scivis/scalar_viser/marching_square_renderer.h:307-349 | an edge is a segment endpoint if and only if its two corners lie on different sides of the iso-value, and no edge is used twice |
| MarchingSquare.SegmentsEndOnCrossedEdges | include/scivis/scalar_viser/marching_square_renderer.h:316-349 | the same holds for the segments the case table emits |
| MarchingSquare.EdgeIdInjective | include/scivis/scalar_viser/marching_square_renderer.h:253-255 | two edge identifiers are equal if and only if they name the same grid edge |
| MarchingSquare.SharedEdgeIds | include/scivis/scalar_viser/marching_square_renderer.h:253-255 | neighbouring cells give their shared edge the same identifier |
| MarchingSquare.EdgeIdDeterminesPoint | include/scivis/scalar_viser/marching_square_renderer.h:253-274 | equal identifiers give the same interpolated point, so reusing a vertex by identifier is sound |
| MarchingSquare.SharedEdgePoints | include/scivis/scalar_viser/marching_square_renderer.h:253-274 | neighbouring cells interpolate the same point on their shared edge |
| MarchingSquare.Omega | include/scivis/scalar_viser/marching_square_renderer.h:311-314 | the omega of an edge is a number exactly when its two corner scalars do not cancel, NaN exactly when both are zero, and otherwise an infinity of the first scalar's sign |
| MarchingSquare.EdgePoint | include/scivis/scalar_viser/marching_square_renderer.h:262-266 | the end point on edge k lies on the bottom, right, top or left side of the cell, offset along that side by the edge's omega |
| MarchingSquare.OmegaInUnit | include/scivis/scalar_viser/marching_square_renderer.h:311-314 | with positive corner scalars every omega is a number in [0, 1] |
| MarchingSquare.EdgePointOffCell | include/scivis/scalar_viser/marching_square_renderer.h:262-266 | where an edge's two scalars cancel, its end point lies at infinity along the edge, or is NaN when both are zero |
| MarchingSquareRenderer.DedupProperties | include/scivis/scalar_viser/marching_square_renderer.h:256-274 | vertex creation keeps exactly the keys seen, each once |
| MarchingSquareRenderer.ContourKeysEven | include/scivis/scalar_viser/marching_square_renderer.h:236-275 | the index list has an even length: whole line segments |
| MarchingSquareRenderer.ContourVertsHeights | include/scivis/scalar_viser/marching_square_renderer.h:282-286 | every vertex lies on one of the requested heights |
| MarchingSquareRenderer.ContourVertsDistinct | include/scivis/scalar_viser/marching_square_renderer.h:282-286 | for distinct heights, no vertex is created twice |
| MarchingSquareRenderer.UseVertex | include/scivis/scalar_viser/marching_square_renderer.h:256-274 | a known edge reuses its vertex, and a new edge appends one; either way the index resolves to the edge's key |
| MarchingSquareRenderer.AddLineSeg | include/scivis/scalar_viser/marching_square_renderer.h:236-275 | the indices of both endpoints are appended and resolve to the mask's edge keys |
| MarchingSquareRenderer.CellContour | include/scivis/scalar_viser/marching_square_renderer.h:288-349 | a cell appends the segments of its state |
| MarchingSquareRenderer.RowContour | include/scivis/scalar_viser/marching_square_renderer.h:288-349 | a row appends the segments of its cells in order |
| MarchingSquareRenderer.ContourSlice | include/scivis/scalar_viser/marching_square_renderer.h:288-349 | a slice appends its deduplicated vertices and the indices of its segments |
| MarchingSquareRenderer.ContourHeight | include/scivis/scalar_viser/marching_square_renderer.h:282-349 | one height adds the vertices and indices of its slice |
| MarchingSquareRenderer.Contours | include/scivis/scalar_viser/marching_square_renderer.h:278-351 | the whole pass yields ContourVerts, and every index resolves to its segment endpoint |
| MarchingSquareRenderer.ContourFacts | include/scivis/scalar_viser/marching_square_renderer.h:278-351 | the output is whole segments, on the requested heights, without repeated vertices |
| MarchingSquareRenderer.DefaultAsWrittenOutOfSync | include/scivis/scalar_viser/marching_square_renderer.h:93-117 | the constructor as written gives the shader other ranges than the fields |
| MarchingSquareRenderer.DefaultInSync | include/scivis/scalar_viser/marching_square_renderer.h:93-96 | the corrected defaults agree and are valid ranges |
| MarchingSquareRenderer.Deg2RadMonotone | include/scivis/scalar_viser/marching_square_renderer.h:372-375 | degree-to-radian conversion preserves order |
| MarchingSquareRenderer.SetLongitudeAsWrittenTakesLatitude | include/scivis/scalar_viser/marching_square_renderer.h:136-147 | after a successful call as written, the longitude uniforms hold the latitude range |
| MarchingSquareRenderer.SetLongitudeAsWrittenBreaksSync | include/scivis/scalar_viser/marching_square_renderer.h:144-145 | from in-sync defaults, asking for longitudes ±30 leaves the shader at -20 degrees |
| MarchingSquareRenderer.SetLongitude | include/scivis/scalar_viser/marching_square_renderer.h:136-147 | succeeds if and only if the degrees are in [-180, 180] and increasing; sets only the longitude; a failure changes nothing |
| MarchingSquareRenderer.SetLatitude | include/scivis/scalar_viser/marching_square_renderer.h:156-167 | succeeds if and only if the degrees are in [-90, 90] and increasing; sets only the latitude; a failure changes nothing |
| MarchingSquareRenderer.SetHeight | include/scivis/scalar_viser/marching_square_renderer.h:176-186 | succeeds if and only if 0 <= min < max; sets only the heights; a failure changes nothing |
| MarchingSquareRenderer.SettersKeepSync | include/scivis/scalar_viser/marching_square_renderer.h:136-186 | the corrected setters keep the shader in sync with the fields and keep valid ranges valid |
| MarchingSquareRenderer.SettersCommute | include/scivis/scalar_viser/marching_square_renderer.h:136-167 | the longitude and latitude setters commute |
| MarchingSquareRenderer.PerVolParam.constructor | include/scivis/scalar_viser/marching_square_renderer.h:83-132 | a new volume holds its data and dimensions, the default placement with the uniforms in sync as corrected in "## Findings" (the source swaps the longitude and latitude uniforms), and no contour |
| MarchingSquareRenderer.PerVolParam.SetLongitudeRange | include/scivis/scalar_viser/marching_square_renderer.h:136-147 | the placement changes as the corrected SetLongitude of "## Findings" does (the source writes the latitudes into the longitude uniforms), and nothing else changes |
| MarchingSquareRenderer.PerVolParam.SetLatitudeRange | include/scivis/scalar_viser/marching_square_renderer.h:156-167 | the placement changes as SetLatitude does and nothing else changes |
| MarchingSquareRenderer.PerVolParam.SetHeightFromCenterRange | include/scivis/scalar_viser/marching_square_renderer.h:176-186 | the placement changes as SetHeight does, and on success the getter returns the new range |
| MarchingSquareRenderer.PerVolParam.SetVolumeStartFromLongitudeZero | include/scivis/scalar_viser/marching_square_renderer.h:193-198 | the flag and its 0/1 uniform are set and nothing else changes |
| MarchingSquareRenderer.PerVolParam.MarchingSquare | include/scivis/scalar_viser/marching_square_renderer.h:207-361 | the vertex and index buffers are replaced by the contours of the chosen volume, and every index is in range |
| MarchingSquareRenderer.MarchingSquareCPURenderer.constructor | include/scivis/scalar_viser/marching_square_renderer.h:382 | a new renderer holds no volumes |
| MarchingSquareRenderer.MarchingSquareCPURenderer.AddVolume | include/scivis/scalar_viser/marching_square_renderer.h:399-418 | the name maps to a fresh volume with the given data and default placement, and other entries are kept |
| MarchingSquareRenderer.MarchingSquareCPURenderer.GetVolume | include/scivis/scalar_viser/marching_square_renderer.h:431-437 | the entry is returned, or null if there is none |
| MarchingSquareRenderer.MarchingSquareCPURenderer.GetVolumeNum | include/scivis/scalar_viser/marching_square_renderer.h:443-446 | the number of volumes is returned |
| IsoplethWidget.PairLinesAppend | include/common_gui/isopleth_widget.h:137-154 | one segment mask adds one line |
| IsoplethWidget.PairLinesCount | include/common_gui/isopleth_widget.h:137-154 | the number of lines is half the number of endpoints |
| IsoplethWidget.StateLinesComplement | include/common_gui/isopleth_widget.h:187-220 | complementary non-saddle states draw the same lines |
| IsoplethWidget.StateLinesCounts | include/common_gui/isopleth_widget.h:187-220 | the uniform states draw nothing and the saddles draw two lines |
| IsoplethWidget.EdgePointOnEdge | include/common_gui/isopleth_widget.h:180-185 | for positive samples, each interpolated point lies on its cell edge |
| IsoplethWidget.AddLineSeg | include/common_gui/isopleth_widget.h:137-154 | the line for a mask joins the two edge points it names |
| IsoplethWidget.CellLineSegs | include/common_gui/isopleth_widget.h:176-220 | a cell draws the lines of its state |
| IsoplethWidget.SliceLines | include/common_gui/isopleth_widget.h:157-175 | the cell loop draws the cells' lines in row-major order |
| IsoplethWidget.Widget.constructor | include/common_gui/isopleth_widget.h:79-90 | a new widget has iso-value -1, raw data, no volume and an empty scene |
| IsoplethWidget.Widget.GetDimension | include/common_gui/isopleth_widget.h:91-94 | returns the volume's dimensions |
| IsoplethWidget.Widget.SetVolume | include/common_gui/isopleth_widget.h:96-113 | stores the data and dimensions, with the current slice set to the depth so that every valid slice redraws |
| IsoplethWidget.Widget.MarchingSquare | include/common_gui/isopleth_widget.h:133-222 | the scene becomes the lines of the current slice |
| IsoplethWidget.Widget.Update | include/common_gui/isopleth_widget.h:115-129 | stores the request, and redraws if and only if something differs |
| MarchingCube.SampleIndex | include/scivis/scalar_viser/marching_cube_renderer.h:282-290 | clamped sampling reads inside the volume, and is the flat index inside bounds |
| MarchingCube.Field | include/scivis/scalar_viser/marching_cube_renderer.h:291-301 | the field has the 8 corner samples |
| MarchingCube.CubeIndexFromBits | include/scivis/scalar_viser/marching_cube_renderer.h:303-314 | each partial index fits its bits, and each bit says whether its corner is below the iso-value |
| MarchingCube.CubeIdx | include/scivis/scalar_viser/marching_cube_renderer.h:303-314 | the cube index is below 256, and bit k is set if and only if corner k is below the iso-value |
| MarchingCube.CubeIdxExtremes | include/scivis/scalar_viser/marching_cube_renderer.h:303-314 | all corners at or above the iso-value give 0; all below give 255 |
| MarchingCube.InterpParam | include/scivis/scalar_viser/marching_cube_renderer.h:391-398 | a bracketed iso-value gives a parameter in [0, 1], which is 0 or 1 exactly at the endpoints |
| MarchingCube.InterpParamBounds | include/scivis/scalar_viser/marching_cube_renderer.h:391-398 | the same facts for the quotient itself |
| MarchingCube.VertInterpOnEdge | include/scivis/scalar_viser/marching_cube_renderer.h:391-398 | the vertex is the first endpoint for flat edges or iso = f0, is the second at iso = f1, and lies on the edge otherwise |
| MarchingCube.VertList | include/scivis/scalar_viser/marching_cube_renderer.h:399-413 | one candidate vertex per cube edge, 12 in all |
| MarchingCube.Sort3 | include/scivis/scalar_viser/marching_cube_renderer.h:430-438 | the three indices are sorted and form a permutation of the input |
| MarchingCube.AddEdges | include/scivis/scalar_viser/marching_cube_renderer.h:430-438 | the triangle's three ordered edges are added to the edge set |
| MarchingCube.FirstNearIn | include/scivis/scalar_viser/marching_cube_renderer.h:328-339 | the first entry of a voxel's list that is a vertex within eps, INVALID exactly when the list holds none |
| MarchingCube.SearchVertIndexInVox | include/scivis/scalar_viser/marching_cube_renderer.h:328-339 | the loop returns FirstNearIn: the first vertex within eps, or INVALID if there is none |
| MarchingCube.NeighbourBefore | include/scivis/scalar_viser/marching_cube_renderer.h:325-363 | every searched neighbour precedes the voxel in scan order |
| MarchingCube.SearchVertIndex | include/scivis/scalar_viser/marching_cube_renderer.h:325-363 | the result is FirstNear over the seven earlier neighbours in the loops' dz, dy, dx order: a found vertex is within eps; search happens only away from the low faces; INVALID means no neighbour has a close vertex |
| MarchingCube.SearchRow | include/scivis/scalar_viser/marching_cube_renderer.h:350-358 | the dx loop returns the first hit of its row, the voxel itself skipped, or lets the scan go on after the row |
| MarchingCube.FirstNearFacts | include/scivis/scalar_viser/marching_cube_renderer.h:341-362 | the scan returns INVALID exactly when every visited voxel is clear; otherwise a near vertex held by a visited voxel whose predecessors in the scan are all clear |
| MarchingCube.NeighbourSearched | include/scivis/scalar_viser/marching_cube_renderer.h:341-358 | the voxels of the loops are exactly the seven neighbours at offsets -1 or 0, the voxel itself excluded |
| MarchingCube.SearchOrderFacts | include/scivis/scalar_viser/marching_cube_renderer.h:341-362 | the scan's result is a near vertex or INVALID, nothing is found on a low face, and INVALID means every neighbour is clear |
| MarchingCube.VoxelCase | include/scivis/scalar_viser/marching_cube_renderer.h:370-390 | the case of a voxel is below 256 |
| MarchingCube.TriangleEdgesAppend | include/scivis/scalar_viser/marching_cube_renderer.h:430-438 | the edges of an extended index list are the old edges plus the new face's |
| MarchingCube.TriangleEdgesOrdered | include/scivis/scalar_viser/marching_cube_renderer.h:430-438 | every edge is ordered and joins listed vertices |
| MarchingCube.FaceVertex | include/scivis/scalar_viser/marching_cube_renderer.h:418-428 | a cached edge vertex is reused; otherwise the candidate is appended and cached, and the list records it |
| MarchingCube.TriangleKeepsMeshOk | include/scivis/scalar_viser/marching_cube_renderer.h:439-463 | adding a triangle keeps indices in range and edges consistent |
| MarchingCube.AddTriangle | include/scivis/scalar_viser/marching_cube_renderer.h:439-463 | adds three indices and keeps the mesh consistent; new vertices come from the candidates, and the list records each at its edge |
| MarchingCube.AddTriangles | include/scivis/scalar_viser/marching_cube_renderer.h:439-463 | a voxel adds exactly the table's number of indices for its case; new vertices come from the candidates, and the list records each at its edge |
| MarchingCube.AddVoxel | include/scivis/scalar_viser/marching_cube_renderer.h:370-465 | one voxel computes its case and emits its triangles; its new vertices are its own candidates, and the table entry it records keeps every index the search found and otherwise names the vertex added at that edge's candidate; no other entry changes |
| MarchingCube.Vox2VertAsWrittenOverflows | include/scivis/scalar_viser/marching_cube_renderer.h:319-323 | a 1×1×2 volume gets a table smaller than its voxel count |
| MarchingCube.Vox2VertAsWrittenFits | include/scivis/scalar_viser/marching_cube_renderer.h:319-323 | the table as written is large enough if and only if dimZ <= dimX |
| MarchingCube.Vox2VertSize | include/scivis/scalar_viser/marching_cube_renderer.h:319-323 | the corrected table has one slot per voxel |
| MarchingCube.EmptyVox | include/scivis/scalar_viser/marching_cube_renderer.h:319-323 | the fresh table has no vertex references |
| MarchingCube.BuildMesh | include/scivis/scalar_viser/marching_cube_renderer.h:366-465 | the voxel loop yields a consistent mesh with, per voxel, the table's number of indices for its case, and every vertex is a candidate of some voxel at the voxel size |
| MarchingCube.FromVoxelStep | include/scivis/scalar_viser/marching_cube_renderer.h:366-465 | the vertices added by a voxel keep every vertex a candidate of a visited voxel |
| MarchingCube.MeshEdgesOrdered | include/scivis/scalar_viser/marching_cube_renderer.h:430-438 | every edge is ordered and joins existing vertices |
| MarchingCube.IndexCountWhole | include/scivis/scalar_viser/marching_cube_renderer.h:439-463 | the index count is a multiple of 3: whole triangles |
| MarchingCube.VoxelSize | include/scivis/scalar_viser/marching_cube_renderer.h:159 | each axis's voxel size is a number exactly when the axis is non-empty, and then times the dimension gives 1; an empty axis gives +inf |
| MarchingCube.PerVolParam.constructor | include/scivis/scalar_viser/marching_cube_renderer.h:138-190 | holds the data and voxel size, the default ranges, and an empty mesh |
| MarchingCube.PerVolParam.SetLongitudeRange | include/scivis/scalar_viser/marching_cube_renderer.h:193-201 | succeeds if and only if the degrees are in [-180, 180] and increasing; sets radians on success; nothing else changes |
| MarchingCube.PerVolParam.SetLatitudeRange | include/scivis/scalar_viser/marching_cube_renderer.h:216-224 | succeeds if and only if the degrees are in [-90, 90] and increasing; sets radians on success; nothing else changes |
| MarchingCube.PerVolParam.SetHeightFromCenterRange | include/scivis/scalar_viser/marching_cube_renderer.h:239-246 | succeeds if and only if 0 <= min < max; nothing else changes |
| MarchingCube.PerVolParam.SetVolumeStartFromLongitudeZero | include/scivis/scalar_viser/marching_cube_renderer.h:259-262 | only the flag changes |
| MarchingCube.PerVolParam.MarchingCube | include/scivis/scalar_viser/marching_cube_renderer.h:270-518 | an unchanged request leaves everything unchanged; otherwise the mesh is rebuilt for the new iso-value and volume |
| MarchingCube.PerVolParam.SetMeshSmoothingType | include/scivis/scalar_viser/marching_cube_renderer.h:520-525 | only the smoothing type changes |
| MarchingCube.MarchingCubeRenderer.constructor | include/scivis/scalar_viser/marching_cube_renderer.h:615 | a new renderer holds no volumes |
| MarchingCube.MarchingCubeRenderer.AddVolume | include/scivis/scalar_viser/marching_cube_renderer.h:632-647 | the name maps to a fresh volume with an empty mesh, and other entries are kept |
| MarchingCube.MarchingCubeRenderer.GetVolume | include/scivis/scalar_viser/marching_cube_renderer.h:664-670 | the entry is returned, or null if there is none |
| MarchingCube.MarchingCubeRenderer.GetVolumeNum | include/scivis/scalar_viser/marching_cube_renderer.h:676-679 | the number of volumes is returned |
| VolIO.Slices | include/scivis/io/vol_io.h:100-111 | a volume is cut into equal slices that concatenate back to it |
| VolIO.SlicesOfConcat | include/scivis/io/vol_io.h:100-111 | cutting concatenated slices gives back the slices |
| VolIO.FlipZ | include/scivis/io/vol_io.h:100-111 | flipping keeps the size |
| VolIO.FlipZSlices | include/scivis/io/vol_io.h:100-111 | flipping reverses the order of the z slices |
| VolIO.FlipZTwice | include/scivis/io/vol_io.h:100-111 | flipping twice restores the volume |
| VolIO.FlipZMiddle | include/scivis/io/vol_io.h:100-111 | an odd depth leaves the middle slice in place |
| VolIO.SwapSlices | include/scivis/io/vol_io.h:104-110 | the swap loop exchanges two equal ranges and nothing else |
| VolIO.FlipZInPlace | include/scivis/io/vol_io.h:100-111 | the in-place loop produces the flipped volume |
| VolIO.Widen | include/scivis/io/vol_io.h:113-119 | widening by a value gives the smallest range holding the old range and the value |
| VolIO.Range | include/scivis/io/vol_io.h:113-119 | the folded range bounds every value |
| VolIO.RangeAppend | include/scivis/io/vol_io.h:113-119 | one more value widens the range by that value |
| VolIO.RangeAttained | include/scivis/io/vol_io.h:113-119 | each bound is a value or still the initial sentinel |
| VolIO.NonNull | include/scivis/io/vol_io.h:113-119 | keeps exactly the values other than the null value |
| VolIO.RangeStep | include/scivis/io/vol_io.h:113-119 | a null value leaves the range alone, and any other value widens it |
| VolIO.AllNullKeepsEmptyRange | include/scivis/io/vol_io.h:113-119 | an all-null volume keeps the empty range |
| VolIO.ReadScalars | include/scivis/io/vol_io.h:94-98 | exactly the voxel count is read, and missing numbers read as 0 |
| VolIO.TXTScalars | include/scivis/io/vol_io.h:78-111 | the loaded data has one value per voxel |
| VolIO.TXTVolume.constructor | include/scivis/io/vol_io.h:125-129 | a new volume is empty with the empty range |
| VolIO.TXTVolume.LoadFromFile | include/scivis/io/vol_io.h:78-122 | an unreadable file gives an empty volume; otherwise the data is read and optionally flipped; the range covers the non-null values |
| VolIO.TXTVolume.FoldValueRange | include/scivis/io/vol_io.h:113-119 | the loop sets the range of the non-null values |
| VolIO.Column | include/scivis/io/vol_io.h:194-204 | a column has at most one value per line |
| VolIO.ColumnsAlign | include/scivis/io/vol_io.h:194-204 | every coordinate column has one entry per value |
| VolIO.Distinct | include/scivis/io/vol_io.h:194-204 | the distinct set is no larger than the column |
| VolIO.LineRead | include/scivis/io/vol_io.h:194-204 | a line with enough fields adds one entry to each column, and a shorter one adds nothing |
| VolIO.DistinctMembers | include/scivis/io/vol_io.h:194-204 | a value is in the distinct set if and only if it is in the column |
| VolIO.DistinctAppend | include/scivis/io/vol_io.h:194-204 | one more entry adds that value to the set |
| VolIO.DimsAtMostValues | include/scivis/io/vol_io.h:211-215 | no dimension exceeds the number of values |
| VolIO.ShortLineSkipped | include/scivis/io/vol_io.h:194 | a line of fewer than 4 numbers is skipped |
| VolIO.FourNumberLineIsNaN | include/scivis/io/vol_io.h:203-204 | a line of exactly 4 numbers stores NaN as its value |
| VolIO.NoDataIsDense | include/scivis/io/vol_io.h:211-215 | a file without data lines has no values and zero dimensions |
| VolIO.NormalizedValueBounds | include/scivis/io/vol_io.h:143-162 | normalisation maps the range onto [0, 1], with 0 below the range and 1 at its top |
| VolIO.NaNNormalizedToLowerBound | include/scivis/io/vol_io.h:150-151 | a NaN entry becomes the raw lower bound of the range, which lies outside the declared [0, 1] whenever the lower bound does |
| VolIO.AdoptedRange | include/scivis/io/vol_io.h:143-162 | a given non-empty range replaces the volume's own range |
| VolIO.NormalizedAll | include/scivis/io/vol_io.h:143-162 | every value is normalised and the count is kept |
| VolIO.LabeledTXTVolume.constructor | include/scivis/io/vol_io.h:221-228 | a new volume is empty with empty ranges |
| VolIO.LabeledTXTVolume.LoadFromFile | include/scivis/io/vol_io.h:165-218 | an unreadable file gives an empty volume; otherwise the values, the coordinate ranges and the dimensions are read |
| VolIO.LabeledTXTVolume.SetDims | include/scivis/io/vol_io.h:211-215 | the dimensions are set, and the volume is dense if and only if it has one value per voxel |
| VolIO.LabeledTXTVolume.ReadLines | include/scivis/io/vol_io.h:178-204 | the line loop gathers the values, each column's range and the distinct coordinates |
| VolIO.LabeledTXTVolume.Normalize | include/scivis/io/vol_io.h:143-162 | the values are normalised by the adopted range, and the stored range becomes [0, 1] |
| VolIO.U8ToNormalizedFloat | include/scivis/io/vol_io.h:237-244 | each byte maps into [0, 1] |
| VolIO.NormalizedFloatToU8 | include/scivis/io/vol_io.h:263-270 | each value maps to the truncation of value × 255 |
| VolIO.U8RoundTrip | include/scivis/io/vol_io.h:237-270 | bytes converted to floats and back are unchanged |
| VolIO.FloatToNormalizedFloat | include/scivis/io/vol_io.h:246-261 | the count is kept |
| VolIO.FloatToNormalizedFloatInverse | include/scivis/io/vol_io.h:246-261 | null values map to the null image; other values map back through the range, and lie in [0, 1] if and only if they lie in the range |
| VolIO.SampleIndex | include/scivis/io/vol_io.h:277-280 | clamped sampling stays inside the volume |
| VolIO.Neighbourhood | include/scivis/io/vol_io.h:272-304 | every voxel has 27 clamped neighbours |
| VolIO.Smoothed | include/scivis/io/vol_io.h:272-304 | smoothing keeps the size |
| VolIO.SmoothConstant | include/scivis/io/vol_io.h:272-304 | a constant volume is a fixed point of smoothing |
| VolIO.FieldIndex | include/scivis/io/vol_io.h:272-304 | the 27 offsets are numbered one-to-one |
| VolIO.SmoothVoxel | include/scivis/io/vol_io.h:272-304 | the inner loops compute the neighbourhood mean |
| VolIO.SmoothedValueAt | include/scivis/io/vol_io.h:272-304 | the smoothed value at a voxel's flat index is its neighbourhood mean |
| VolIO.RoughFloatToSmooth | include/scivis/io/vol_io.h:272-304 | the loop computes the smoothed volume |
| VolOsgIO.Pow2 | include/scivis/io/vol_osg_io.h:57 | powers of two are positive, and at least 2 for a positive exponent |
| VolOsgIO.SrcCoord | include/scivis/io/vol_osg_io.h:70-78 | every texel maps to a source coordinate inside the volume |
| VolOsgIO.SrcCoordUnclamped | include/scivis/io/vol_osg_io.h:58-78 | the mapping is the truncated scale, and the end texels map to the end voxels |
| VolOsgIO.Lo | include/scivis/io/vol_osg_io.h:84-92 | the box reaches at most one voxel below |
| VolOsgIO.Hi | include/scivis/io/vol_osg_io.h:84-92 | the box reaches at most one voxel above, inside the volume |
| VolOsgIO.BoxOf | include/scivis/io/vol_osg_io.h:84-92 | the box is inside the volume and spans 1 to 3 voxels on each axis |
| VolOsgIO.BoxCount | include/scivis/io/vol_osg_io.h:84-103 | a box holds between 1 and 27 voxels, so the average is defined |
| VolOsgIO.Texture | include/scivis/io/vol_osg_io.h:51-114 | the texture has one texel per destination voxel |
| VolOsgIO.TexelValueAt | include/scivis/io/vol_osg_io.h:67-105 | the texel at a flat index is the average of its box |
| VolOsgIO.BoxSumBounds | include/scivis/io/vol_osg_io.h:94-101 | the sum over a box lies between count × lo and count × hi |
| VolOsgIO.MeanBounds | include/scivis/io/vol_osg_io.h:102-103 | a mean lies within the bounds of its terms |
| VolOsgIO.TexelBounds | include/scivis/io/vol_osg_io.h:84-103 | each texel lies within the bounds of the source values |
| VolOsgIO.TextureBounds | include/scivis/io/vol_osg_io.h:51-114 | a normalised volume gives a normalised texture |
| VolOsgIO.BoxAround | include/scivis/io/vol_osg_io.h:70-92 | the computed corners delimit the texel's box |
| VolOsgIO.SumBox | include/scivis/io/vol_osg_io.h:94-101 | the loops compute the box sum and count |
| VolOsgIO.AverageBox | include/scivis/io/vol_osg_io.h:84-103 | the texel value is the box average |
| VolOsgIO.NormalizedFloatToTexture | include/scivis/io/vol_osg_io.h:51-114 | the image is the down-sampled texture of power-of-two size |
| VolOsgIO.FillImage | include/scivis/io/vol_osg_io.h:67-105 | the triple loop fills the image in order |
| TfOsgIO.Bracket | include/scivis/io/tf_osg_io.h:40-48 | the key search stops at the first key at or beyond the scalar |
| TfOsgIO.BracketUnique | include/scivis/io/tf_osg_io.h:40-48 | for increasing keys that key is unique |
| TfOsgIO.TableUpTo | include/scivis/io/tf_osg_io.h:30-52 | the prefix of the table has the requested length |
| TfOsgIO.Table | include/scivis/io/tf_osg_io.h:30-52 | the table has 256 entries |
| TfOsgIO.TableAt | include/scivis/io/tf_osg_io.h:30-52 | each entry is its scalar's interpolated colour |
| TfOsgIO.TableAtKey | include/scivis/io/tf_osg_io.h:30-52 | at a key the entry is the key's colour |
| TfOsgIO.TableBeforeFirst | include/scivis/io/tf_osg_io.h:30-52 | below the first key the entry is the first colour |
| TfOsgIO.TableBetween | include/scivis/io/tf_osg_io.h:30-52 | between two keys the entry mixes their colours linearly |
| TfOsgIO.TableEntryAt | include/scivis/io/tf_osg_io.h:31-50 | the entry formula for a bracketed scalar |
| TfOsgIO.ToTexture | include/scivis/io/tf_osg_io.h:17-61 | the 256-entry table is returned if the keys reach 255, and None otherwise |
| TfOsgIO.Advance | include/scivis/io/tf_osg_io.h:31-48 | one loop step writes the scalar's entry and advances the bracketing keys |
| TfOsgIO.PrefixDifference | include/scivis/io/tf_osg_io.h:97-139 | a difference of prefix sums is the sum of the steps between them |
| TfOsgIO.PrefixOpacityMonotone | include/scivis/io/tf_osg_io.h:97-112 | for non-negative opacities the prefix opacity does not decrease |
| TfOsgIO.Accumulate | include/scivis/io/tf_osg_io.h:97-112 | one step extends the prefix sum |
| TfOsgIO.Integrate | include/scivis/io/tf_osg_io.h:97-112 | the loop computes every prefix sum |
| TfOsgIO.Row | include/scivis/io/tf_osg_io.h:114-139 | a row of the pre-integrated table has the requested length |
| TfOsgIO.Rows | include/scivis/io/tf_osg_io.h:114-139 | n rows hold n × 256 entries |
| TfOsgIO.PreIntegrated | include/scivis/io/tf_osg_io.h:114-139 | the table has 256 × 256 entries |
| TfOsgIO.PreIntegratedAt | include/scivis/io/tf_osg_io.h:114-139 | each entry is the integral for its pair of scalars |
| TfOsgIO.PreIntegratedSymmetric | include/scivis/io/tf_osg_io.h:114-139 | swapping the front and back scalars gives the same entry |
| TfOsgIO.StepSumConstant | include/scivis/io/tf_osg_io.h:97-112 | a constant function accumulates linearly |
| TfOsgIO.PreIntegratedOfConstant | include/scivis/io/tf_osg_io.h:114-139 | a constant function pre-integrates to its premultiplied colour, with opacity 1 - exp(-a) |
| TfOsgIO.SegmentOfConstant | include/scivis/io/tf_osg_io.h:129-136 | the averaging branch gives the same value for a constant function |
| TfOsgIO.ToPreIntegratedTexture | include/scivis/io/tf_osg_io.h:63-149 | the pre-integrated table of the colour table is returned if the keys reach 255, and None otherwise |
| TfOsgIO.FillPreIntegrated | include/scivis/io/tf_osg_io.h:114-139 | the double loop fills the table |
| TfOsgIO.PreIntegratedTexel | include/scivis/io/tf_osg_io.h:120-137 | one texel is the integral over its scalar pair, including the sMin == sMax case |
| TfWidget.Widen | include/common_gui/tf_widget.h:113-124 | the dirty range grows to the smallest valid range holding the scalar, starting from the empty range |
| TfWidget.PrevKey | include/common_gui/tf_widget.h:220-225 | the nearest key at or before the scalar |
| TfWidget.NextKey | include/common_gui/tf_widget.h:229-248 | the nearest key at or after the scalar |
| TfWidget.DenseBetween | include/common_gui/tf_widget.h:229-248 | between adjacent keys the dense table mixes their colours linearly |
| TfWidget.KeysAround | include/common_gui/tf_widget.h:229-248 | a scalar between adjacent keys is bracketed by exactly them |
| TfWidget.DenseLocalBelow | include/common_gui/tf_widget.h:220-248 | entries at or below a key depend only on points at or below it |
| TfWidget.DenseLocalAbove | include/common_gui/tf_widget.h:220-248 | entries at or above a key depend only on points at or above it |
| TfWidget.SpanStart | include/common_gui/tf_widget.h:220-225 | the recompute span starts at a key strictly below a non-zero dirty start |
| TfWidget.SpanEnd | include/common_gui/tf_widget.h:220-225 | the span ends at a key strictly above a dirty end below 255 |
| TfWidget.SpanKeepsDense | include/common_gui/tf_widget.h:220-248 | outside the span, points changed only in the dirty range leave the dense table unchanged |
| TfWidget.Overlay | include/common_gui/tf_widget.h:127-147 | writing points into a 256-slot table keeps its size |
| TfWidget.OverlayAt | include/common_gui/tf_widget.h:127-147 | each slot holds its last written point, or the base value |
| TfWidget.MovedEffects | include/common_gui/tf_widget.h:40-83 | a drag sets the opacity of the target in [0, 1], pins the ends, clears the old slot and changes nothing else |
| TfWidget.MoveAsWrittenLeavesStale | include/common_gui/tf_widget.h:65-80 | with keys at 0, a, b and 255, dragging a past b to c as written marks only c dirty; the recompute span then starts at b, so entries below a keep a's old ramp although a has gone |
| TfWidget.DragAcross | include/common_gui/tf_widget.h:65-81 | a drag of an inner point moves its colour to the target with the new opacity |
| TfWidget.Restored | include/common_gui/tf_widget.h:215-251 | recomputing the span restores the whole dense table |
| TfWidget.TransferFunctionWidget.constructor | include/common_gui/tf_widget.h:94-125 | a new widget has an empty dirty range |
| TfWidget.TransferFunctionWidget.MarkChanged | include/common_gui/tf_widget.h:113-124 | the dirty range widens by the scalar |
| TfWidget.TransferFunctionWidget.SetTransferFunctionPointsData | include/common_gui/tf_widget.h:127-147 | the points are overlaid on a null table and everything becomes dirty |
| TfWidget.TransferFunctionWidget.SetTransferFunctionPointColor | include/common_gui/tf_widget.h:149-155 | one slot changes, the dirty range widens by it, and consistency is kept |
| TfWidget.TransferFunctionWidget.GetTransferFunctionColor | include/common_gui/tf_widget.h:162-166 | after an update the returned colour is the dense value at the scalar |
| TfWidget.TransferFunctionWidget.UpdateTransferFunctionData | include/common_gui/tf_widget.h:215-251 | with nothing dirty nothing changes; otherwise exactly the span is recomputed, and the range resets |
| TfWidget.TransferFunctionWidget.Interpolate | include/common_gui/tf_widget.h:229-248 | the loop writes the dense values between two keys and nothing else |
| TfWidget.TransferFunctionWidget.FillSegment | include/common_gui/tf_widget.h:229-248 | one key interval is filled |
| TfWidget.TransferFunctionWidget.Span | include/common_gui/tf_widget.h:220-225 | the scans find the span's start and end keys |
| TfWidget.TransferFunctionWidget.MovePointAsWritten | include/common_gui/tf_widget.h:40-83 | the points move as Moved, and only the target is marked dirty |
| TfWidget.TransferFunctionWidget.MovePoint | include/common_gui/tf_widget.h:40-83 | the points move as Moved, both the old and the new slot are marked dirty, and consistency is kept |
| TfWidget.TransferFunctionWidget.MovePointData | include/common_gui/tf_widget.h:65-81 | the point table changes as Moved specifies |
| MultiIsosurfaces.SlotValues | include/scivis/scalar_viser/multi_isosurfaces_renderer.h:205-218 | the first isosurfaces fill the slots, and unused slots hold -1 |
| MultiIsosurfaces.FirstNegative | include/scivis/scalar_viser/multi_isosurfaces_renderer.h:219-238 | the scan stops at the first negative slot |
| MultiIsosurfaces.Listed | include/scivis/scalar_viser/multi_isosurfaces_renderer.h:219-238 | the getter lists the non-negative prefix with its colours |
| MultiIsosurfaces.SetGetRoundTrip | include/scivis/scalar_viser/multi_isosurfaces_renderer.h:205-238 | isosurfaces with non-negative values read back as written, truncated to the slot count |
| MultiIsosurfaces.FirstNegativeIs | include/scivis/scalar_viser/multi_isosurfaces_renderer.h:219-238 | the first negative slot is characterised uniquely |
| MultiIsosurfaces.PerVolParam.constructor | include/scivis/scalar_viser/multi_isosurfaces_renderer.h:130-198 | holds the volume, the sample steps 1/dim, the default ranges and the isosurfaces |
| MultiIsosurfaces.PerVolParam.SetIsosurfaces | include/scivis/scalar_viser/multi_isosurfaces_renderer.h:205-218 | the slot values are set, and colours are set for the given isosurfaces only |
| MultiIsosurfaces.PerVolParam.GetIsosurfaces | include/scivis/scalar_viser/multi_isosurfaces_renderer.h:219-238 | returns the listed prefix |
| MultiIsosurfaces.PerVolParam.SetLongitudeRange | include/scivis/scalar_viser/multi_isosurfaces_renderer.h:247-258 | succeeds if and only if the degrees are in [-180, 180] and increasing; nothing else changes |
| MultiIsosurfaces.PerVolParam.SetLatitudeRange | include/scivis/scalar_viser/multi_isosurfaces_renderer.h:274-285 | succeeds if and only if the degrees are in [-90, 90] and increasing; nothing else changes |
| MultiIsosurfaces.PerVolParam.SetHeightFromCenterRange | include/scivis/scalar_viser/multi_isosurfaces_renderer.h:301-312 | succeeds if and only if 0 <= min < max; the sphere radius follows the maximum |
| MultiIsosurfaces.PerVolParam.SetVolumeStartFromLongitudeZero | include/scivis/scalar_viser/multi_isosurfaces_renderer.h:326-330 | the 0/1 uniform is set |
| MultiIsosurfaces.MultiIsosurfacesRenderer.constructor | include/scivis/scalar_viser/multi_isosurfaces_renderer.h:94-95 | a new renderer holds no volumes; the time step defaults to 0.008 equatorial radii and the step count to 100 |
| MultiIsosurfaces.MultiIsosurfacesRenderer.AddVolume | include/scivis/scalar_viser/multi_isosurfaces_renderer.h:403-423 | the name is registered, the other entries and their display flags are kept, and the new display flag is set |
| MultiIsosurfaces.MultiIsosurfacesRenderer.Erase | include/scivis/scalar_viser/multi_isosurfaces_renderer.h:410-412 | the name is removed |
| MultiIsosurfaces.MultiIsosurfacesRenderer.Emplace | include/scivis/scalar_viser/multi_isosurfaces_renderer.h:413-415 | an existing entry is kept, and otherwise a fresh one is added |
| MultiIsosurfaces.MultiIsosurfacesRenderer.DisplayVolume | include/scivis/scalar_viser/multi_isosurfaces_renderer.h:430-442 | exactly the named volume is displayed; the registry is kept and no field other than the display flag changes |
| MultiIsosurfaces.MultiIsosurfacesRenderer.GetVolume | include/scivis/scalar_viser/multi_isosurfaces_renderer.h:458-464 | the entry is returned, or null if there is none |
| MultiIsosurfaces.MultiIsosurfacesRenderer.GetVolumeNum | include/scivis/scalar_viser/multi_isosurfaces_renderer.h:470-473 | the number of volumes is returned |
| MultiIsosurfaces.MultiIsosurfacesRenderer.SetDeltaT | include/scivis/scalar_viser/multi_isosurfaces_renderer.h:480-489 | the getter returns the value that was set |
| MultiIsosurfaces.MultiIsosurfacesRenderer.SetMaxStepCount | include/scivis/scalar_viser/multi_isosurfaces_renderer.h:496-505 | the getter returns the value that was set |
| HeightRenderer.Pred32 | include/scivis/scalar_viser/height_renderer.h:178-180 | unsigned `t - 1` wraps to 2^32 - 1 at 0 |
| HeightRenderer.Cells | include/scivis/scalar_viser/height_renderer.h:178-180 | the number of cells is t - 1, and 0 for t = 0 |
| HeightRenderer.UvRow | include/scivis/scalar_viser/height_renderer.h:151-160 | a row holds one uv per longitude sample |
| HeightRenderer.UvRowsAt | include/scivis/scalar_viser/height_renderer.h:151-160 | the uv of sample (lat, lon) is at lat × t0 + lon |
| HeightRenderer.UvCorners | include/scivis/scalar_viser/height_renderer.h:153-155 | the grid spans uv (0, 0) to (1, 1) |
| HeightRenderer.SingleColumnUvs | include/scivis/scalar_viser/height_renderer.h:153-155 | a single-column grid divides 0 by 0, so its u is NaN |
| HeightRenderer.CellTriangles | include/scivis/scalar_viser/height_renderer.h:167-177 | a cell gives two triangles, 6 indices |
| HeightRenderer.IndexRowsBound | include/scivis/scalar_viser/height_renderer.h:178-180 | the indices of n rows stay below the end of the next row |
| HeightRenderer.IndexRowsAt | include/scivis/scalar_viser/height_renderer.h:178-180 | the triangles of cell (lat, lon) sit at position 6 × (lat × m + lon) |
| HeightRenderer.IndicesFacts | include/scivis/scalar_viser/height_renderer.h:162-180 | the grid has 6 (t0 - 1)(t1 - 1) indices, each naming an existing vertex |
| HeightRenderer.EmptyGridAsWritten | include/scivis/scalar_viser/height_renderer.h:178-179 | with t1 = 0 the code as written has no vertices but about 6 · t0 · 2^32 indices |
| HeightRenderer.HeightMapRenderer.constructor | include/scivis/scalar_viser/height_renderer.h:22-74 | a new renderer has no geometry, pillar mode, a zero height-range uniform, and the start-from-longitude-zero flag off |
| HeightRenderer.HeightMapRenderer.SetRenderParameters | include/scivis/scalar_viser/height_renderer.h:86-98 | the getter returns the parameters, and the uniform follows the height range |
| HeightRenderer.HeightMapRenderer.SetupMap | include/scivis/scalar_viser/height_renderer.h:113-189 | the uv grid, the vertices on the sphere and the triangle indices are rebuilt from the tessellation |
| HeightRenderer.HeightMapRenderer.Grid | include/scivis/scalar_viser/height_renderer.h:151-160 | the vertex loop gives the uv grid and the mapped vertices |
| HeightRenderer.HeightMapRenderer.GridIndices | include/scivis/scalar_viser/height_renderer.h:162-180 | the cell loop gives the index list |
| HeightRenderer.HeightMapRenderer.AddRow | include/scivis/scalar_viser/height_renderer.h:179-180 | one row of cells is appended |
| HeightRenderer.HeightMapRenderer.AddBotSurf | include/scivis/scalar_viser/height_renderer.h:167-177 | one cell's triangles are appended |

## Left out

- Floating point: doubles and floats are reals. Rounding, overflow to infinity, and NaN propagation beyond `Numerics.Div` are not modelled.
- `sqrt`, `exp` and `pow` are parameters. Properties that need them assume only the laws in `Numerics.Lawful`. `Vec2D::normalize` (`atan2`, `cos`, `sin`) is modelled by its exact result.
- File reading is a parameter holding the parsed numbers; an unreadable file is `None`. RAW loading and dumping, and `std::ifstream` parsing, are not modelled.
- Qt painting, scenes, signals and mouse geometry are not modelled. The transfer-function drag takes the scene position (x, y) of the mouse; the Qt event and the point item are not modelled.
- OSG objects are reduced to the values they hold: uniforms, geometry, textures, state sets and scene-graph nodes. Texture setup is not modelled.
- The graph layout's node phase is not part of this model. This covers node movement, `SetNodesNotMoved`, and `Node`'s physical fields other than position and degree. `PointCloud` is not modelled.
- Graph nodes and edges behind `std::shared_ptr` are values, so aliasing between them is not modelled.
- Spherical mapping is abstracted. The rotation matrices (`computeRotMat`) and the trigonometry of `vec3ToSphere` are modelled only as far as `ToSpherical` staying inside the placement ranges. The height map's `toSphere` is a parameter. Sphere shapes, tessellation hints and `SetShading` are not modelled.
- Marching-cube normals and mesh smoothing (Laplacian and curvature) are not modelled; `SetMeshSmoothingType` only records the choice.
- The marching-cube case tables are a parameter, constrained by `MarchingCube.TablesFit`, not the literal 256-row tables.
- `std::sort` is not stable. `GraphLayout.SortByWidth` is an insertion sort, so the order among equal widths may differ.
- The temporary `PerVolParam` that `emplace` constructs and discards when the name already exists has no lasting effect and is not modelled.
- Indeterminate values are not modelled:
  - `isDense` after a failed open;
  - `isoVal` before the first `MarchingCube`;
  - the widget tables before their first fill;
  - the default `MapParameters` and `RenderParameters` floats (the model starts them at zero).
- The `int` latitude index overflow and GLuint/size_t wrap-around for grids above 2^32 vertices are not modelled.
- GraphIO.AddSpringForces: requires a non-zero edge length, where the source would divide by zero and produce inf or NaN.
- GraphIO.SpringApplied: requires a non-zero edge length, for the same reason.
- GraphLayout.Graph.Set: requires a non-empty edge array, because the source reads `myEdges[0]` unchecked. It also requires that the lightest width not truncate to -1, since the source would then multiply every width by 1/0.0. Finally, the percentage filter must not read past the array.
- GraphLayout.Graph.Iterate: requires at least one edge, because the source sizes its force buffers from `edges[0]`. It also requires edges of one subdivision count and of non-zero length (`ReadyToIterate`), where the source would index past a buffer or divide by zero.
- VolOsgIO.NormalizedFloatToTexture: requires log2 destination sizes of at least 1. A size-1 axis makes the source's scale 1/0.
- VolIO.NormalizedFloatToU8: requires values whose ×255 fits a byte, since the C++ cast is undefined outside that range.
- VolIO.RoughFloatToSmooth: requires at least dimX·dimY·dimZ values, which the source assumes without checking. It computes the flat index in unbounded integers, so uint32 wrap-around for volumes above 2^32 voxels is not modelled.
- TfOsgIO.ToTexture: requires strictly increasing keys, the order in which the transfer-function widget hands its points over. When the last key is below 255 the source dereferences the end iterator; the model returns None there.
- TfOsgIO.ToPreIntegratedTexture: requires strictly increasing keys and returns None when the last key is below 255, for the same reasons.
- TfWidget.TransferFunctionWidget.UpdateTransferFunctionData: requires key points at scalars 0 and 255, which the widget pins.
- TfWidget.TransferFunctionWidget.GetTransferFunctionColor: requires the widget's consistency invariant and pinned ends.
- TfWidget.TransferFunctionWidget.MovePoint: returns the new scalar instead of storing it in the Qt point. It also marks the old scalar dirty, the corrected version of "## Findings"; the source marks only the new scalar (TfWidget.MoveAsWrittenLeavesStale).
- IsoplethWidget.Widget.Update: requires a well-formed volume and an in-range slice when a redraw happens, since the source would read out of range otherwise.
- MarchingCube.PerVolParam.MarchingCube: requires, when a rebuild happens, volume data of exactly dimX·dimY·dimZ values. The source would read out of range otherwise. MarchingCube.BuildMesh requires the same.
- MarchingSquareRenderer.PerVolParam.MarchingSquare: requires a well-formed volume and in-range heights, since the source reads out of range otherwise.
- GraphIO.Smooth: requires a non-zero smoothing width. With sigma 0 the source's `gauss_weight` is NaN, so every smoothed point is NaN; the model's points are reals and cannot hold NaN.
- GraphLayout.Graph.Smooth: requires a non-zero `smoothWidth`, which `SetAlgorithmParams` does not check, for the same reason as GraphIO.Smooth.
- GraphIO.ElectrostaticForce: the pull is zero when the points coincide. The source tests only `dlen > eps`, so for a negative eps it computes 0/0 and adds NaN; the model's forces cannot hold NaN.
- GraphIO.AddElectrostaticForces: adds nothing for coinciding points, for the same reason as GraphIO.ElectrostaticForce.
- GraphViser.PerGraphParam.Update: uses the corrected bounding box of "## Findings", whose maximum corner starts at FLT_LOWEST. The source starts it at FLT_MIN, so an axis on which every node is negative gets a wrong maximum (GraphViser.MaxCornerAsWrittenMissesNodes).
- GraphViser.PerGraphParam.BoundingBox: starts the maximum corner at FLT_LOWEST, the corrected version of "## Findings", where the source uses FLT_MIN.
- MarchingSquareRenderer.PerVolParam.constructor: sets the uniforms in sync with the fields, the corrected version of "## Findings". The source gives the latitude uniforms ±10° and the longitude uniforms ±20°, the reverse of the fields (MarchingSquareRenderer.DefaultAsWrittenOutOfSync).
- MarchingSquareRenderer.PerVolParam.SetLongitudeRange: stores the new longitudes in the longitude uniforms, the corrected version of "## Findings". The source stores the latitudes there (MarchingSquareRenderer.SetLongitudeAsWrittenTakesLatitude).
- MarchingCube.BuildMesh: sizes the vertex table with one slot per voxel (dimX·dimY·dimZ), the corrected version of "## Findings". The source sizes it dimX·dimY·dimX and writes past its end when dimZ exceeds dimX (MarchingCube.Vox2VertAsWrittenOverflows).
- HeightRenderer.HeightMapRenderer.SetupMap: loops over `Cells(t)` cells, the corrected version of "## Findings". The source's unsigned `tessel - 1` wraps at 0 and its loops run past every vertex (HeightRenderer.EmptyGridAsWritten).
- HeightRenderer.HeightMapRenderer.GridIndices: uses `Cells` instead of the wrapping `Pred32`, for the same reason as SetupMap.

## Findings

| source | as written | input that shows it | evidently intended | confidence | as-written member | corrected member |
|---|---|---|---|---|---|---|
| include/scivis/scalar_viser/marching_square_renderer.h:144-145 | `SetLongtituteRange` writes the latitude fields into the longitude uniforms | SetLongitudeRange(-30, 30) on in-sync defaults leaves the uniform minimum longitude at -20 degrees while the field is -30 | the longitude uniforms take the new longitudes | not executed | MarchingSquareRenderer.SetLongitudeAsWrittenBreaksSync | MarchingSquareRenderer.SettersKeepSync |
| include/scivis/scalar_viser/marching_square_renderer.h:93-117 | the fields get longitude ±10 and latitude ±20, but the uniforms get latitude ±10 and longitude ±20 | the default constructor | the uniforms start from the fields' values | not executed | MarchingSquareRenderer.DefaultAsWrittenOutOfSync | MarchingSquareRenderer.DefaultInSync |
| include/scivis/scalar_viser/marching_cube_renderer.h:319-323 | `vox2VertIndices` is sized dimX·dimY·dimX | a 1×1×2 volume has 2 voxels but a table of 1 slot, so voxel 1 writes past the end | one slot per voxel, dimX·dimY·dimZ | not executed | MarchingCube.Vox2VertAsWrittenOverflows | MarchingCube.Vox2VertSize |
| include/common_gui/tf_widget.h:65-80 | moving a point marks only the new scalar dirty | keys at 0, a, b and 255, drag a to some c between b and 255: the entries between 0 and a are not recomputed | both the old and the new scalar are marked dirty | not executed | TfWidget.MoveAsWrittenLeavesStale | TfWidget.TransferFunctionWidget.MovePoint |
| include/scivis/scalar_viser/height_renderer.h:178-179 | the cell loops run to the unsigned `tessel - 1` | tessellation (32, 0): no vertices, but 6·31·(2^32 - 1) indices | no cells when a side has no samples | not executed | HeightRenderer.EmptyGridAsWritten | HeightRenderer.IndicesFacts |
| include/scivis/graph_viser/graph_renderer.h:74-77 | the maximum corner starts at FLT_MIN, the smallest positive float | nodes (-1, -1, -1) and (-2, -2, -2): the maximum x stays FLT_MIN, so no node normalises to 1 | start at the lowest float | not executed | GraphViser.MaxCornerAsWrittenMissesNodes | GraphViser.FitsUnitCube |
