// OSGConvertor::RAWVolume::NormalizedFloatToTexture of vol_osg_io.h: a
// normalised volume resampled onto a power-of-two grid, each destination
// voxel taking the mean of a small box of source voxels.  The osg::Image the
// code fills through a pixel cursor is the array this model returns; the
// texture object wrapped around it (filters, wrap modes) is not modelled.
module VolOsgIO {
  import opened Numerics
  import VoxelIndex

  /** 1 << k. */
  function Pow2(k: nat): (p: nat)
    ensures p >= 1 && (k >= 1 ==> p >= 2)
  {
    if k == 0 then 1 else 2 * Pow2(k - 1)
  }

  /** The grid size of the texture: 1 << logDstDim on every axis. */
  function DstDim(logDstDim: (nat, nat, nat)): (nat, nat, nat)
  {
    (Pow2(logDstDim.0), Pow2(logDstDim.1), Pow2(logDstDim.2))
  }

  /** scaleDst2Src on one axis: (srcDim - 1) / (dstDim - 1). */
  function Scale(srcD: nat, dstD: nat): real
    requires 1 <= srcD && 2 <= dstD
  {
    (srcD - 1) as real / (dstD - 1) as real
  }

  /** The source coordinate of destination coordinate c: c * scale truncated
      to an integer, pulled back to srcD - 1 if it falls past the grid. */
  function SrcCoord(c: nat, srcD: nat, dstD: nat): (s: nat)
    requires 1 <= srcD && 2 <= dstD
    ensures s < srcD
  {
    MulMonotone(0.0, c as real, Scale(srcD, dstD));
    var t := TruncToInt(Mul(c as real, Scale(srcD, dstD)));
    if t >= srcD then srcD - 1 else t
  }

  /** In exact arithmetic the pull-back never fires: a destination coordinate
      of the grid scales to at most srcD - 1. */
  lemma SrcCoordUnclamped(c: nat, srcD: nat, dstD: nat)
    requires 1 <= srcD && 2 <= dstD && c < dstD
    ensures SrcCoord(c, srcD, dstD) == TruncToInt(Mul(c as real, Scale(srcD, dstD)))
    ensures c == 0 ==> SrcCoord(c, srcD, dstD) == 0
    ensures c == dstD - 1 ==> SrcCoord(c, srcD, dstD) == srcD - 1
  {
    var s := Scale(srcD, dstD);
    MulMonotone(c as real, (dstD - 1) as real, s);
    assert Mul((dstD - 1) as real, s) == (srcD - 1) as real;
  }

  /** The low end of the box around source coordinate s: one below, unless s is 0. */
  function Lo(s: nat): (lo: nat)
    ensures lo <= s && s - lo <= 1
  {
    if s != 0 then s - 1 else s
  }

  /** The high end of the box: one above, unless s is the last coordinate. */
  function Hi(s: nat, d: nat): (hi: nat)
    requires s < d
    ensures s <= hi < d && hi - s <= 1
  {
    if s == d - 1 then s else s + 1
  }

  /** The sum of source row (y, z) over the n voxels from x0 on. */
  function RowSum(dat: seq<real>, src: (nat, nat, nat), x0: nat, n: nat, y: nat, z: nat): real
    requires VoxelIndex.Size(src.0, src.1, src.2) <= |dat|
    requires x0 + n <= src.0 && y < src.1 && z < src.2
  {
    if n == 0 then 0.0
    else
      VoxelIndex.FlatInBounds(src.0, src.1, src.2, x0 + n - 1, y, z);
      RowSum(dat, src, x0, n - 1, y, z) + dat[VoxelIndex.Flat(src.0, src.1, x0 + n - 1, y, z)]
  }

  /** The sum over the n rows from y0 on of slice z, each over nx voxels from x0 on. */
  function PlaneSum(dat: seq<real>, src: (nat, nat, nat), x0: nat, nx: nat, y0: nat, n: nat, z: nat): real
    requires VoxelIndex.Size(src.0, src.1, src.2) <= |dat|
    requires x0 + nx <= src.0 && y0 + n <= src.1 && z < src.2
  {
    if n == 0 then 0.0
    else PlaneSum(dat, src, x0, nx, y0, n - 1, z) + RowSum(dat, src, x0, nx, y0 + n - 1, z)
  }

  /** The box a destination voxel averages, as its low corner and its extent
      on every axis. */
  datatype Box = Box(x0: nat, nx: nat, y0: nat, ny: nat, z0: nat, nz: nat)
  {
    /** The box lies in a grid of the given dimensions. */
    predicate Inside(src: (nat, nat, nat))
    {
      x0 + nx <= src.0 && y0 + ny <= src.1 && z0 + nz <= src.2
    }

    /** The number of voxels in the box: the final value of cnt. */
    function Count(): nat
    {
      VoxelIndex.Size(nx, ny, nz)
    }
  }

  /** The sum over the first n slices of box b. */
  function BoxSum(dat: seq<real>, src: (nat, nat, nat), b: Box, n: nat): real
    requires VoxelIndex.Size(src.0, src.1, src.2) <= |dat|
    requires b.Inside(src) && n <= b.nz
  {
    if n == 0 then 0.0
    else BoxSum(dat, src, b, n - 1) + PlaneSum(dat, src, b.x0, b.nx, b.y0, b.ny, b.z0 + n - 1)
  }

  /** The box around destination voxel (x, y, z): up to one source voxel
      either side of its source coordinate on every axis, cut at the faces of
      the grid. */
  function BoxOf(src: (nat, nat, nat), dst: (nat, nat, nat), x: nat, y: nat, z: nat): (b: Box)
    requires 1 <= src.0 && 1 <= src.1 && 1 <= src.2
    requires 2 <= dst.0 && 2 <= dst.1 && 2 <= dst.2
    ensures b.Inside(src)
    ensures 1 <= b.nx <= 3 && 1 <= b.ny <= 3 && 1 <= b.nz <= 3
  {
    var sx, sy, sz := SrcCoord(x, src.0, dst.0), SrcCoord(y, src.1, dst.1), SrcCoord(z, src.2, dst.2);
    Box(Lo(sx), Hi(sx, src.0) + 1 - Lo(sx),
        Lo(sy), Hi(sy, src.1) + 1 - Lo(sy),
        Lo(sz), Hi(sz, src.2) + 1 - Lo(sz))
  }

  /** Every box holds between 1 and 27 voxels, so cnt fits its uint8_t and
      the division by it is defined. */
  lemma BoxCount(src: (nat, nat, nat), dst: (nat, nat, nat), x: nat, y: nat, z: nat)
    requires 1 <= src.0 && 1 <= src.1 && 1 <= src.2
    requires 2 <= dst.0 && 2 <= dst.1 && 2 <= dst.2
    ensures 1 <= BoxOf(src, dst, x, y, z).Count() <= 27
  {
    var b := BoxOf(src, dst, x, y, z);
    VoxelIndex.MulLeft(1, b.nx, 1);
    VoxelIndex.MulLeft(1, b.ny, b.nx);
    VoxelIndex.MulLeft(1, b.nz, b.ny * b.nx);
    VoxelIndex.MulLeft(b.ny, 3, b.nx);
    VoxelIndex.MulLeft(b.nx, 3, 3);
    VoxelIndex.MulLeft(b.nz, 3, b.ny * b.nx);
    VoxelIndex.MulLeft(b.ny * b.nx, 9, 3);
  }

  /** The value of destination voxel (x, y, z): the mean of its box. */
  function TexelAt(dat: seq<real>, src: (nat, nat, nat), dst: (nat, nat, nat), x: nat, y: nat, z: nat): real
    requires 1 <= src.0 && 1 <= src.1 && 1 <= src.2
    requires 2 <= dst.0 && 2 <= dst.1 && 2 <= dst.2
    requires VoxelIndex.Size(src.0, src.1, src.2) <= |dat|
  {
    var b := BoxOf(src, dst, x, y, z);
    BoxCount(src, dst, x, y, z);
    BoxSum(dat, src, b, b.nz) / b.Count() as real
  }

  /** Entry j of the image: the texel of the destination voxel j stands for. */
  function TexelValue(dat: seq<real>, src: (nat, nat, nat), dst: (nat, nat, nat), j: nat): real
    requires 1 <= src.0 && 1 <= src.1 && 1 <= src.2
    requires 2 <= dst.0 && 2 <= dst.1 && 2 <= dst.2
    requires VoxelIndex.Size(src.0, src.1, src.2) <= |dat|
  {
    var v := VoxelIndex.Decode(dst.0, dst.1, j);
    TexelAt(dat, src, dst, v.0, v.1, v.2)
  }

  /** The image data NormalizedFloatToTexture produces, in Z-Y-X order. */
  function Texture(dat: seq<real>, src: (nat, nat, nat), dst: (nat, nat, nat)): (img: seq<real>)
    requires 1 <= src.0 && 1 <= src.1 && 1 <= src.2
    requires 2 <= dst.0 && 2 <= dst.1 && 2 <= dst.2
    requires VoxelIndex.Size(src.0, src.1, src.2) <= |dat|
    ensures |img| == VoxelIndex.Size(dst.0, dst.1, dst.2)
  {
    seq(VoxelIndex.Size(dst.0, dst.1, dst.2), j requires 0 <= j => TexelValue(dat, src, dst, j))
  }

  /** Destination voxel (x, y, z) sits at its Z-Y-X index in the image. */
  lemma TexelValueAt(dat: seq<real>, src: (nat, nat, nat), dst: (nat, nat, nat), x: nat, y: nat, z: nat)
    requires 1 <= src.0 && 1 <= src.1 && 1 <= src.2
    requires x < dst.0 && y < dst.1 && z < dst.2 && 2 <= dst.0 && 2 <= dst.1 && 2 <= dst.2
    requires VoxelIndex.Size(src.0, src.1, src.2) <= |dat|
    ensures VoxelIndex.Flat(dst.0, dst.1, x, y, z) < VoxelIndex.Size(dst.0, dst.1, dst.2)
    ensures TexelValue(dat, src, dst, VoxelIndex.Flat(dst.0, dst.1, x, y, z)) == TexelAt(dat, src, dst, x, y, z)
  {
    VoxelIndex.FlatInBounds(dst.0, dst.1, dst.2, x, y, z);
    VoxelIndex.DecodeFlat(dst.0, dst.1, x, y, z);
  }

  /** Every voxel of the source volume lies in [lo, hi]. */
  ghost predicate Bounded(dat: seq<real>, src: (nat, nat, nat), lo: real, hi: real)
  {
    forall j :: 0 <= j < VoxelIndex.Size(src.0, src.1, src.2) ==> j < |dat| && lo <= dat[j] <= hi
  }

  /** One more term within [lo, hi] extends bounds on k - 1 terms to k terms. */
  lemma AddBounds(k: nat, prev: real, add: real, lo: real, hi: real)
    requires k > 0
    requires Mul((k - 1) as real, lo) <= prev <= Mul((k - 1) as real, hi)
    requires lo <= add <= hi
    ensures Mul(k as real, lo) <= prev + add <= Mul(k as real, hi)
  {
    MulDistributes((k - 1) as real, 1.0, lo);
    MulDistributes((k - 1) as real, 1.0, hi);
  }

  lemma {:induction false} RowSumBounds(dat: seq<real>, src: (nat, nat, nat), x0: nat, n: nat, y: nat, z: nat, lo: real, hi: real)
    requires VoxelIndex.Size(src.0, src.1, src.2) <= |dat|
    requires x0 + n <= src.0 && y < src.1 && z < src.2
    requires Bounded(dat, src, lo, hi)
    ensures Mul(n as real, lo) <= RowSum(dat, src, x0, n, y, z) <= Mul(n as real, hi)
  {
    if n > 0 {
      RowSumBounds(dat, src, x0, n - 1, y, z, lo, hi);
      VoxelIndex.FlatInBounds(src.0, src.1, src.2, x0 + n - 1, y, z);
      AddBounds(n, RowSum(dat, src, x0, n - 1, y, z), dat[VoxelIndex.Flat(src.0, src.1, x0 + n - 1, y, z)], lo, hi);
    }
  }

  lemma {:induction false} PlaneSumBounds(dat: seq<real>, src: (nat, nat, nat), x0: nat, nx: nat, y0: nat, n: nat, z: nat, lo: real, hi: real)
    requires VoxelIndex.Size(src.0, src.1, src.2) <= |dat|
    requires x0 + nx <= src.0 && y0 + n <= src.1 && z < src.2
    requires Bounded(dat, src, lo, hi)
    ensures Mul(n as real, Mul(nx as real, lo)) <= PlaneSum(dat, src, x0, nx, y0, n, z)
                                                 <= Mul(n as real, Mul(nx as real, hi))
  {
    if n > 0 {
      PlaneSumBounds(dat, src, x0, nx, y0, n - 1, z, lo, hi);
      RowSumBounds(dat, src, x0, nx, y0 + n - 1, z, lo, hi);
      AddBounds(n, PlaneSum(dat, src, x0, nx, y0, n - 1, z), RowSum(dat, src, x0, nx, y0 + n - 1, z),
                Mul(nx as real, lo), Mul(nx as real, hi));
    }
  }

  lemma {:induction false} BoxSumBounds(dat: seq<real>, src: (nat, nat, nat), b: Box, n: nat, lo: real, hi: real)
    requires VoxelIndex.Size(src.0, src.1, src.2) <= |dat|
    requires b.Inside(src) && n <= b.nz
    requires Bounded(dat, src, lo, hi)
    ensures Mul(n as real, Mul(b.ny as real, Mul(b.nx as real, lo))) <= BoxSum(dat, src, b, n)
                                                                     <= Mul(n as real, Mul(b.ny as real, Mul(b.nx as real, hi)))
  {
    if n > 0 {
      BoxSumBounds(dat, src, b, n - 1, lo, hi);
      PlaneSumBounds(dat, src, b.x0, b.nx, b.y0, b.ny, b.z0 + n - 1, lo, hi);
      AddBounds(n, BoxSum(dat, src, b, n - 1), PlaneSum(dat, src, b.x0, b.nx, b.y0, b.ny, b.z0 + n - 1),
                Mul(b.ny as real, Mul(b.nx as real, lo)), Mul(b.ny as real, Mul(b.nx as real, hi)));
    }
  }

  /** The product of the three extents with v is v times the voxel count. */
  lemma BoxProduct(nx: nat, ny: nat, nz: nat, v: real)
    ensures Mul(nz as real, Mul(ny as real, Mul(nx as real, v))) == Mul(VoxelIndex.Size(nx, ny, nz) as real, v)
  {
    MulAssociates(ny as real, nx as real, v);
    MulAssociates(nz as real, Mul(ny as real, nx as real), v);
    assert Mul(nz as real, Mul(ny as real, nx as real)) == VoxelIndex.Size(nx, ny, nz) as real;
  }

  /** A sum between k * lo and k * hi has its mean over k in [lo, hi]. */
  lemma MeanBounds(k: real, sum: real, lo: real, hi: real)
    requires 0.0 < k && Mul(k, lo) <= sum <= Mul(k, hi)
    ensures lo <= sum / k <= hi
  {
    assert Mul(k, lo) / k == lo && Mul(k, hi) / k == hi;
    assert Mul(k, lo) / k <= sum / k <= Mul(k, hi) / k;
  }

  /** Averaging keeps every texel within the bounds of the source volume: a
      volume normalised to [0, 1] gives a texture in [0, 1], and a constant
      volume gives back its constant. */
  lemma TexelBounds(dat: seq<real>, src: (nat, nat, nat), dst: (nat, nat, nat), x: nat, y: nat, z: nat, lo: real, hi: real)
    requires 1 <= src.0 && 1 <= src.1 && 1 <= src.2
    requires 2 <= dst.0 && 2 <= dst.1 && 2 <= dst.2
    requires VoxelIndex.Size(src.0, src.1, src.2) <= |dat|
    requires Bounded(dat, src, lo, hi)
    ensures lo <= TexelAt(dat, src, dst, x, y, z) <= hi
  {
    var b := BoxOf(src, dst, x, y, z);
    BoxCount(src, dst, x, y, z);
    BoxSumBounds(dat, src, b, b.nz, lo, hi);
    BoxProduct(b.nx, b.ny, b.nz, lo);
    BoxProduct(b.nx, b.ny, b.nz, hi);
    MeanBounds(b.Count() as real, BoxSum(dat, src, b, b.nz), lo, hi);
  }

  /** Every entry of the texture lies in the bounds of the source volume. */
  lemma TextureBounds(dat: seq<real>, src: (nat, nat, nat), dst: (nat, nat, nat), lo: real, hi: real)
    requires 1 <= src.0 && 1 <= src.1 && 1 <= src.2
    requires 2 <= dst.0 && 2 <= dst.1 && 2 <= dst.2
    requires VoxelIndex.Size(src.0, src.1, src.2) <= |dat|
    requires Bounded(dat, src, lo, hi)
    ensures forall j :: 0 <= j < |Texture(dat, src, dst)| ==> lo <= Texture(dat, src, dst)[j] <= hi
  {
    forall j | 0 <= j < |Texture(dat, src, dst)|
      ensures lo <= Texture(dat, src, dst)[j] <= hi
    {
      var v := VoxelIndex.Decode(dst.0, dst.1, j);
      TexelBounds(dat, src, dst, v.0, v.1, v.2, lo, hi);
    }
  }

  /** The box of destination voxel (x, y, z) as the code finds it: the
      truncated source coordinates, the next voxel up unless at the last one,
      then one step down unless at 0. */
  method BoxAround(src: (nat, nat, nat), dst: (nat, nat, nat), x: nat, y: nat, z: nat)
    returns (srcX: nat, srcY: nat, srcZ: nat, srcX1: nat, srcY1: nat, srcZ1: nat)
    requires 1 <= src.0 && 1 <= src.1 && 1 <= src.2
    requires 2 <= dst.0 && 2 <= dst.1 && 2 <= dst.2
    ensures srcX <= srcX1 && srcY <= srcY1 && srcZ <= srcZ1
    ensures BoxOf(src, dst, x, y, z)
         == Box(srcX, srcX1 + 1 - srcX, srcY, srcY1 + 1 - srcY, srcZ, srcZ1 + 1 - srcZ)
  {
    srcX, srcY, srcZ := SrcCoord(x, src.0, dst.0), SrcCoord(y, src.1, dst.1), SrcCoord(z, src.2, dst.2);
    srcX1 := if srcX == src.0 - 1 then srcX else srcX + 1;
    srcY1 := if srcY == src.1 - 1 then srcY else srcY + 1;
    srcZ1 := if srcZ == src.2 - 1 then srcZ else srcZ + 1;
    if srcX != 0 {
      srcX := srcX - 1;
    }
    if srcY != 0 {
      srcY := srcY - 1;
    }
    if srcZ != 0 {
      srcZ := srcZ - 1;
    }
  }

  /** The sum over a box and the number of voxels visited, in the code's
      nested loops. */
  method SumBox(dat: seq<real>, src: (nat, nat, nat), b: Box) returns (sum: real, cnt: nat)
    requires VoxelIndex.Size(src.0, src.1, src.2) <= |dat|
    requires b.Inside(src) && 1 <= b.nx && 1 <= b.ny
    ensures sum == BoxSum(dat, src, b, b.nz)
    ensures cnt == b.Count()
  {
    sum, cnt := 0.0, 0;
    var subZ := b.z0;
    while subZ < b.z0 + b.nz
      invariant b.z0 <= subZ <= b.z0 + b.nz
      invariant sum == BoxSum(dat, src, b, subZ - b.z0)
      invariant cnt == VoxelIndex.Flat(b.nx, b.ny, 0, 0, subZ - b.z0)
    {
      var subY := b.y0;
      while subY < b.y0 + b.ny
        invariant b.y0 <= subY <= b.y0 + b.ny
        invariant sum == BoxSum(dat, src, b, subZ - b.z0) + PlaneSum(dat, src, b.x0, b.nx, b.y0, subY - b.y0, subZ)
        invariant cnt == VoxelIndex.Flat(b.nx, b.ny, 0, subY - b.y0, subZ - b.z0)
      {
        var subX := b.x0;
        while subX < b.x0 + b.nx
          invariant b.x0 <= subX <= b.x0 + b.nx
          invariant sum == BoxSum(dat, src, b, subZ - b.z0) + PlaneSum(dat, src, b.x0, b.nx, b.y0, subY - b.y0, subZ)
                           + RowSum(dat, src, b.x0, subX - b.x0, subY, subZ)
          invariant cnt == VoxelIndex.Flat(b.nx, b.ny, subX - b.x0, subY - b.y0, subZ - b.z0)
        {
          VoxelIndex.FlatInBounds(src.0, src.1, src.2, subX, subY, subZ);
          sum := sum + dat[VoxelIndex.Flat(src.0, src.1, subX, subY, subZ)];
          cnt := cnt + 1;
          subX := subX + 1;
        }
        VoxelIndex.FlatCarry(b.nx, b.ny, subY - b.y0, subZ - b.z0);
        subY := subY + 1;
      }
      VoxelIndex.FlatCarry(b.nx, b.ny, 0, subZ - b.z0);
      subZ := subZ + 1;
    }
    VoxelIndex.FlatCarry(b.nx, b.ny, 0, subZ - b.z0);
  }

  /** The body of the destination loops: the box and the mean over it. */
  method AverageBox(dat: seq<real>, src: (nat, nat, nat), dst: (nat, nat, nat), x: nat, y: nat, z: nat)
    returns (avgV: real)
    requires 1 <= src.0 && 1 <= src.1 && 1 <= src.2
    requires 2 <= dst.0 && 2 <= dst.1 && 2 <= dst.2
    requires VoxelIndex.Size(src.0, src.1, src.2) <= |dat|
    ensures avgV == TexelAt(dat, src, dst, x, y, z)
  {
    var srcX, srcY, srcZ, srcX1, srcY1, srcZ1 := BoxAround(src, dst, x, y, z);
    var b := Box(srcX, srcX1 + 1 - srcX, srcY, srcY1 + 1 - srcY, srcZ, srcZ1 + 1 - srcZ);
    var cnt;
    avgV, cnt := SumBox(dat, src, b);
    BoxCount(src, dst, x, y, z);
    avgV := avgV / cnt as real;
  }

  /** The image holds the texels of the first n destination voxels, and
      zeros after them. */
  ghost predicate FilledUpTo(img: seq<real>, dat: seq<real>, src: (nat, nat, nat), dst: (nat, nat, nat), n: nat)
    requires 1 <= src.0 && 1 <= src.1 && 1 <= src.2
    requires 2 <= dst.0 && 2 <= dst.1 && 2 <= dst.2
    requires VoxelIndex.Size(src.0, src.1, src.2) <= |dat|
  {
    |img| == VoxelIndex.Size(dst.0, dst.1, dst.2) &&
    forall j :: 0 <= j < |img| ==> img[j] == if j < n then TexelValue(dat, src, dst, j) else 0.0
  }

  /** NormalizedFloatToTexture: the image of a 1 << logDstDim grid, filled in
      Z-Y-X order through an advancing pixel cursor.  The source demands a
      non-empty source grid covered by dat and at least two voxels per
      destination axis (scaleDst2Src divides by dstDim - 1). */
  method NormalizedFloatToTexture(dat: seq<real>, srcDim: (nat, nat, nat), logDstDim: (nat, nat, nat))
    returns (img: seq<real>)
    requires 1 <= srcDim.0 && 1 <= srcDim.1 && 1 <= srcDim.2
    requires 1 <= logDstDim.0 && 1 <= logDstDim.1 && 1 <= logDstDim.2
    requires VoxelIndex.Size(srcDim.0, srcDim.1, srcDim.2) <= |dat|
    ensures img == Texture(dat, srcDim, DstDim(logDstDim))
  {
    img := FillImage(dat, srcDim, DstDim(logDstDim));
  }

  /** The destination loops of NormalizedFloatToTexture, over a grid of any
      size of at least two voxels per axis. */
  method FillImage(dat: seq<real>, srcDim: (nat, nat, nat), dstDim: (nat, nat, nat))
    returns (img: seq<real>)
    requires 1 <= srcDim.0 && 1 <= srcDim.1 && 1 <= srcDim.2
    requires 2 <= dstDim.0 && 2 <= dstDim.1 && 2 <= dstDim.2
    requires VoxelIndex.Size(srcDim.0, srcDim.1, srcDim.2) <= |dat|
    ensures img == Texture(dat, srcDim, dstDim)
  {
    var px := new real[VoxelIndex.Size(dstDim.0, dstDim.1, dstDim.2)](_ => 0.0);
    var pxPtr := 0;
    var z := 0;
    while z < dstDim.2
      invariant z <= dstDim.2 && pxPtr == VoxelIndex.Flat(dstDim.0, dstDim.1, 0, 0, z)
      invariant FilledUpTo(px[..], dat, srcDim, dstDim, VoxelIndex.Flat(dstDim.0, dstDim.1, 0, 0, z))
    {
      var y := 0;
      while y < dstDim.1
        invariant y <= dstDim.1 && pxPtr == VoxelIndex.Flat(dstDim.0, dstDim.1, 0, y, z)
        invariant FilledUpTo(px[..], dat, srcDim, dstDim, VoxelIndex.Flat(dstDim.0, dstDim.1, 0, y, z))
      {
        var x := 0;
        while x < dstDim.0
          invariant x <= dstDim.0 && pxPtr == VoxelIndex.Flat(dstDim.0, dstDim.1, x, y, z)
          invariant FilledUpTo(px[..], dat, srcDim, dstDim, VoxelIndex.Flat(dstDim.0, dstDim.1, x, y, z))
        {
          TexelValueAt(dat, srcDim, dstDim, x, y, z);
          var avgV := AverageBox(dat, srcDim, dstDim, x, y, z);
          px[pxPtr] := avgV;
          pxPtr := pxPtr + 1;
          x := x + 1;
        }
        VoxelIndex.FlatCarry(dstDim.0, dstDim.1, y, z);
        y := y + 1;
      }
      VoxelIndex.FlatCarry(dstDim.0, dstDim.1, 0, z);
      z := z + 1;
    }
    VoxelIndex.FlatCarry(dstDim.0, dstDim.1, 0, z);
    img := px[..];
    assert forall j :: 0 <= j < |img| ==> img[j] == Texture(dat, srcDim, dstDim)[j];
  }
}
