// Flat indexing of a three-dimensional grid stored in Z-Y-X order, as every
// volume in the code is: voxel (x, y, z) of a dimX by dimY by dimZ grid sits
// at z * (dimY * dimX) + y * dimX + x.  The renderers, the loaders and the
// texture converters each spell this formula out on their own; here it is
// defined once, together with its inverse.
module VoxelIndex {

  lemma MulLeft(a: nat, b: nat, c: nat)
    requires a <= b
    ensures a * c <= b * c
  {
  }

  lemma LessMul(a: nat, b: nat, d: nat)
    requires a < b
    ensures a * d + d <= b * d
  {
    assert (a + 1) * d == a * d + d;
    MulLeft(a + 1, b, d);
  }

  /** Division by a positive divisor characterised by its remainder. */
  lemma DivUnique(i: nat, d: nat, q: nat, r: nat)
    requires 0 < d && r < d && i == q * d + r
    ensures i / d == q && i % d == r
  {
    var q', r' := i / d, i % d;
    assert q' * d + r' == i;
    if q > q' {
      LessMul(q', q, d);
      assert false;
    } else if q < q' {
      LessMul(q, q', d);
      assert false;
    }
  }

  /** The number of voxels of a grid, multiplied as the code does. */
  function Size(dimX: nat, dimY: nat, dimZ: nat): nat
  {
    dimZ * (dimY * dimX)
  }

  /** The index of voxel (x, y, z). */
  function Flat(dimX: nat, dimY: nat, x: nat, y: nat, z: nat): nat
  {
    z * (dimY * dimX) + y * dimX + x
  }

  /** The voxel a flat index stands for: the slice is the quotient by a
      slice's size, the row and the column come from the remainder. */
  function Decode(dimX: nat, dimY: nat, i: nat): (v: (nat, nat, nat))
    requires dimX > 0 && dimY > 0
  {
    var yx := dimY * dimX;
    var z := i / yx;
    var y := (i % yx) / dimX;
    ((i % yx) % dimX, y, z)
  }

  /** Walking off the end of a row lands on the start of the next row, and
      walking off the last row of a slice on the start of the next slice; so
      visiting z, y, x in nested loops visits the indices in order. */
  lemma FlatCarry(dimX: nat, dimY: nat, y: nat, z: nat)
    ensures Flat(dimX, dimY, dimX, y, z) == Flat(dimX, dimY, 0, y + 1, z)
    ensures Flat(dimX, dimY, 0, dimY, z) == Flat(dimX, dimY, 0, 0, z + 1)
    ensures Flat(dimX, dimY, 0, 0, z) == z * (dimY * dimX)
  {
    assert (y + 1) * dimX == y * dimX + dimX;
    assert (z + 1) * (dimY * dimX) == z * (dimY * dimX) + dimY * dimX;
  }

  /** Every voxel of the grid has an index below the grid's size. */
  lemma {:induction false} FlatInBounds(dimX: nat, dimY: nat, dimZ: nat, x: nat, y: nat, z: nat)
    requires x < dimX && y < dimY && z < dimZ
    ensures Flat(dimX, dimY, x, y, z) < Size(dimX, dimY, dimZ)
  {
    var n := dimY * dimX;
    MulLeft(y, dimY - 1, dimX);
    assert (dimY - 1) * dimX == n - dimX;
    MulLeft(z, dimZ - 1, n);
    assert (dimZ - 1) * n == dimZ * n - n;
  }

  /** Decoding an in-range voxel's index gives the voxel back. */
  lemma {:induction false} DecodeFlat(dimX: nat, dimY: nat, x: nat, y: nat, z: nat)
    requires x < dimX && y < dimY
    ensures Decode(dimX, dimY, Flat(dimX, dimY, x, y, z)) == (x, y, z)
  {
    var n := dimY * dimX;
    var i := Flat(dimX, dimY, x, y, z);
    MulLeft(y, dimY - 1, dimX);
    assert (dimY - 1) * dimX == n - dimX;
    DivUnique(i, n, z, y * dimX + x);
    DivUnique(y * dimX + x, dimX, y, x);
  }

  /** Every index below the size decodes to a voxel of the grid whose index
      it is. */
  lemma {:induction false} FlatDecode(dimX: nat, dimY: nat, dimZ: nat, i: nat)
    requires dimX > 0 && dimY > 0 && i < Size(dimX, dimY, dimZ)
    ensures Decode(dimX, dimY, i).0 < dimX && Decode(dimX, dimY, i).1 < dimY
    ensures Decode(dimX, dimY, i).2 < dimZ
    ensures Flat(dimX, dimY, Decode(dimX, dimY, i).0, Decode(dimX, dimY, i).1, Decode(dimX, dimY, i).2) == i
  {
    var n := dimY * dimX;
    var z := i / n;
    var r := i % n;
    assert i == z * n + r;
    var y := r / dimX;
    assert r == y * dimX + r % dimX;
    if z >= dimZ {
      MulLeft(dimZ, z, n);
      assert false;
    }
    if y >= dimY {
      MulLeft(dimY, y, dimX);
      assert false;
    }
  }
}
