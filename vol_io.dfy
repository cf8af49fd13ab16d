// The volume loaders' post-processing and the volume converters of vol_io.h.
//
// Reading the files is not modelled: a loader receives what its scanf calls
// would have produced (the numbers of a whitespace-separated file, or the
// leading numbers of each line), or None when the file cannot be opened.
// Volumes are stored in Z-Y-X order, a slice (fixed z) holding
// dim[1] * dim[0] consecutive scalars.
module VolIO {
  import opened Numerics
  import VoxelIndex

  /** The value range a loader starts from: (float max, float lowest), so that
      the first value folded in replaces both ends. */
  const EMPTY_RANGE: (real, real) := (FLT_MAX, FLT_LOWEST)

  // ---------------------------------------------------------------------
  // Slices and the Z flip

  /** The scalars of consecutive slices, laid end to end. */
  function Concat(ss: seq<seq<real>>): seq<real>
  {
    if ss == [] then [] else ss[0] + Concat(ss[1..])
  }

  lemma {:induction false} ConcatAppend(a: seq<seq<real>>, b: seq<seq<real>>)
    ensures Concat(a + b) == Concat(a) + Concat(b)
  {
    if a != [] {
      assert (a + b)[0] == a[0] && (a + b)[1..] == a[1..] + b;
      ConcatAppend(a[1..], b);
    } else {
      assert a + b == b;
    }
  }

  /** Every slice of ss holds n scalars. */
  ghost predicate Uniform(ss: seq<seq<real>>, n: nat)
  {
    forall k :: 0 <= k < |ss| ==> |ss[k]| == n
  }

  lemma {:induction false} ConcatLength(ss: seq<seq<real>>, n: nat)
    requires Uniform(ss, n)
    ensures |Concat(ss)| == |ss| * n
  {
    if ss != [] {
      ConcatLength(ss[1..], n);
      assert |ss| * n == (|ss| - 1) * n + n;
    }
  }

  /** The d slices of a volume whose slices hold n scalars each. */
  function Slices(s: seq<real>, n: nat, d: nat): (ss: seq<seq<real>>)
    requires |s| == d * n
    ensures |ss| == d && Uniform(ss, n) && Concat(ss) == s
  {
    if d == 0 then []
    else
      assert d * n == n + (d - 1) * n;
      var rest := Slices(s[n..], n, d - 1);
      assert Concat([s[..n]] + rest) == s[..n] + Concat(rest);
      [s[..n]] + rest
  }

  /** Cutting laid-out slices back into slices gives the slices. */
  lemma {:induction false} SlicesOfConcat(ss: seq<seq<real>>, n: nat)
    requires Uniform(ss, n)
    ensures |Concat(ss)| == |ss| * n && Slices(Concat(ss), n, |ss|) == ss
  {
    ConcatLength(ss, n);
    if ss != [] {
      SlicesOfConcat(ss[1..], n);
      assert Concat(ss)[..n] == ss[0] && Concat(ss)[n..] == Concat(ss[1..]);
    }
  }

  /** The slices in the opposite order. */
  function Reverse(ss: seq<seq<real>>): (r: seq<seq<real>>)
    ensures |r| == |ss|
  {
    seq(|ss|, k requires 0 <= k < |ss| => ss[|ss| - 1 - k])
  }

  /** The volume with the order of its d slices reversed. */
  function FlipZ(s: seq<real>, n: nat, d: nat): (t: seq<real>)
    requires |s| == d * n
    ensures |t| == |s|
  {
    var r := Reverse(Slices(s, n, d));
    ConcatLength(r, n);
    Concat(r)
  }

  /** Slice z of the flipped volume is slice d - 1 - z of the volume. */
  lemma FlipZSlices(s: seq<real>, n: nat, d: nat)
    requires |s| == d * n
    ensures Slices(FlipZ(s, n, d), n, d) == Reverse(Slices(s, n, d))
  {
    SlicesOfConcat(Reverse(Slices(s, n, d)), n);
  }

  /** Flipping twice gives the volume back. */
  lemma FlipZTwice(s: seq<real>, n: nat, d: nat)
    requires |s| == d * n
    ensures FlipZ(FlipZ(s, n, d), n, d) == s
  {
    FlipZSlices(s, n, d);
    var ss := Slices(s, n, d);
    assert Reverse(Reverse(ss)) == ss;
  }

  /** With an odd number of slices the middle one stays where it is. */
  lemma FlipZMiddle(s: seq<real>, n: nat, d: nat)
    requires |s| == d * n && d % 2 == 1
    ensures Slices(FlipZ(s, n, d), n, d)[d / 2] == Slices(s, n, d)[d / 2]
  {
    FlipZSlices(s, n, d);
  }

  /** std::swap_ranges over [p, p + n) and [q, q + n), two disjoint ranges. */
  function SwapRanges(s: seq<real>, p: nat, q: nat, n: nat): (t: seq<real>)
    requires p + n <= q && q + n <= |s|
    ensures |t| == |s|
  {
    seq(|s|, i requires 0 <= i < |s| =>
      if p <= i < p + n then s[i - p + q] else if q <= i < q + n then s[i - q + p] else s[i])
  }

  /** Swapping two equally long pieces of a sequence exchanges them. */
  lemma SwapPieces(s: seq<real>, p: nat, q: nat, n: nat,
                    a: seq<real>, x: seq<real>, b: seq<real>, y: seq<real>, c: seq<real>)
    requires s == a + x + b + y + c
    requires p == |a| && q == |a| + |x| + |b| && n == |x| == |y|
    ensures SwapRanges(s, p, q, n) == a + y + b + x + c
  {
  }

  /** The slices after the first z exchanges of the flipZ loop: slice k and
      slice d - 1 - k have traded places for every k below z. */
  function PartlyReversed(ss: seq<seq<real>>, z: nat): (r: seq<seq<real>>)
    ensures |r| == |ss|
  {
    seq(|ss|, k requires 0 <= k < |ss| =>
      if k < z || |ss| - 1 - k < z then ss[|ss| - 1 - k] else ss[k])
  }

  /** The loop's exchange of slices z and |ss| - 1 - z takes it one step further. */
  lemma PartlyReversedStep(ss: seq<seq<real>>, z: nat)
    requires z < |ss| - 1 - z
    ensures var cur, z1 := PartlyReversed(ss, z), |ss| - 1 - z;
      cur[z := cur[z1]][z1 := cur[z]] == PartlyReversed(ss, z + 1)
  {
  }

  /** Laying out five runs of slices, two of them single slices. */
  lemma ConcatFive(a: seq<seq<real>>, x: seq<real>, b: seq<seq<real>>, y: seq<real>, c: seq<seq<real>>)
    ensures Concat(a + [x] + b + [y] + c) == Concat(a) + x + Concat(b) + y + Concat(c)
  {
    ConcatAppend(a + [x] + b + [y], c);
    ConcatAppend(a + [x] + b, [y]);
    ConcatAppend(a + [x], b);
    ConcatAppend(a, [x]);
    assert Concat([x]) == x && Concat([y]) == y;
  }

  /** Where slices z and z1 start, and that both lie within the volume. */
  lemma SliceOffsets(d: nat, n: nat, z: nat, z1: nat, la: nat, lb: nat, total: nat)
    requires z < z1 < d
    requires la == z * n && lb == (z1 - z - 1) * n && total == d * n
    ensures la == SliceStart(z, n) && la + n + lb == SliceStart(z1, n)
    ensures SliceStart(z, n) + n <= SliceStart(z1, n) && SliceStart(z1, n) + n <= total
  {
    SplitProduct(z, z1 - z - 1, n);
    SplitProduct(z1, d - z1 - 1, n);
  }

  /** (a + 1 + b) * n == a * n + n + b * n. */
  lemma SplitProduct(a: nat, b: nat, n: nat)
    ensures (a + 1 + b) * n == a * n + n + b * n
  {
  }

  /** The index of the first scalar of slice z: the loop's z * dimYxX. */
  function SliceStart(z: nat, n: nat): nat
  {
    z * n
  }

  /** Exchanging elements z and z1 of a sequence, written as five pieces. */
  lemma ExchangedPieces(ss: seq<seq<real>>, z: nat, z1: nat)
    requires z < z1 < |ss|
    ensures ss[z := ss[z1]][z1 := ss[z]] == ss[..z] + [ss[z1]] + ss[z + 1..z1] + [ss[z]] + ss[z1 + 1..]
  {
    var l, r := ss[z := ss[z1]][z1 := ss[z]], ss[..z] + [ss[z1]] + ss[z + 1..z1] + [ss[z]] + ss[z1 + 1..];
    assert |l| == |r|;
    forall i | 0 <= i < |l|
      ensures l[i] == r[i]
    {
      if i < z {
      } else if i == z {
      } else if i < z1 {
        assert r[i] == ss[z + 1..z1][i - z - 1];
      } else if i == z1 {
      } else {
        assert r[i] == ss[z1 + 1..][i - z1 - 1];
      }
    }
  }

  /** One exchange of the loop, on the laid-out slices: swapping the ranges of
      slices z and z1 is laying out the slices with z and z1 exchanged. */
  lemma SwapSliceRanges(ss: seq<seq<real>>, n: nat, z: nat, z1: nat)
    requires Uniform(ss, n) && z < z1 < |ss|
    ensures SliceStart(z, n) + n <= SliceStart(z1, n) && SliceStart(z1, n) + n <= |Concat(ss)|
    ensures SwapRanges(Concat(ss), SliceStart(z, n), SliceStart(z1, n), n)
         == Concat(ss[z := ss[z1]][z1 := ss[z]])
  {
    var a, b, c := ss[..z], ss[z + 1..z1], ss[z1 + 1..];
    var x, y := ss[z], ss[z1];
    assert ss == a + [x] + b + [y] + c;
    ExchangedPieces(ss, z, z1);
    ConcatFive(a, x, b, y, c);
    ConcatFive(a, y, b, x, c);
    PieceOffsets(ss, n, z, z1);
    SwapPieces(Concat(ss), SliceStart(z, n), SliceStart(z1, n), n, Concat(a), x, Concat(b), y, Concat(c));
  }

  /** Where the laid-out pieces around slices z and z1 start and end. */
  lemma PieceOffsets(ss: seq<seq<real>>, n: nat, z: nat, z1: nat)
    requires Uniform(ss, n) && z < z1 < |ss|
    ensures |Concat(ss[..z])| == SliceStart(z, n) && |ss[z]| == n && |ss[z1]| == n
    ensures |Concat(ss[..z])| + n + |Concat(ss[z + 1..z1])| == SliceStart(z1, n)
    ensures SliceStart(z, n) + n <= SliceStart(z1, n) && SliceStart(z1, n) + n <= |Concat(ss)|
  {
    var a, b := ss[..z], ss[z + 1..z1];
    assert |a| == z && |b| == z1 - z - 1;
    assert Uniform(a, n) && Uniform(b, n);
    ConcatLength(a, n);
    ConcatLength(b, n);
    ConcatLength(ss, n);
    SliceOffsets(|ss|, n, z, z1, |Concat(a)|, |Concat(b)|, |Concat(ss)|);
  }

  /** std::swap_ranges(zBeg, zEnd, z1Beg) on the loaded data. */
  method SwapSlices(dat: array<real>, p: nat, q: nat, n: nat)
    requires p + n <= q && q + n <= dat.Length
    modifies dat
    ensures dat[..] == SwapRanges(old(dat[..]), p, q, n)
  {
    var j := 0;
    while j < n
      invariant j <= n
      invariant forall i :: 0 <= i < dat.Length ==>
        dat[i] == (if p <= i < p + j then old(dat[i - p + q])
                   else if q <= i < q + j then old(dat[i - q + p])
                   else old(dat[i]))
    {
      dat[p + j], dat[q + j] := dat[q + j], dat[p + j];
      j := j + 1;
    }
  }

  /** One iteration of the flipZ loop on the laid-out slices: exchanging the
      ranges of slices z and |ss| - 1 - z goes from z exchanges to z + 1. */
  lemma FlipStep(ss: seq<seq<real>>, n: nat, z: nat, z1: nat, cur: seq<real>)
    requires Uniform(ss, n) && z < |ss| / 2 && z1 == |ss| - 1 - z
    requires cur == Concat(PartlyReversed(ss, z))
    ensures SliceStart(z, n) + n <= SliceStart(z1, n) && SliceStart(z1, n) + n <= |cur|
    ensures SwapRanges(cur, SliceStart(z, n), SliceStart(z1, n), n) == Concat(PartlyReversed(ss, z + 1))
  {
    var pr := PartlyReversed(ss, z);
    assert Uniform(pr, n);
    SwapSliceRanges(pr, n, z, z1);
    PartlyReversedStep(ss, z);
  }

  /** After |ss| / 2 exchanges every slice has met its mirror image. */
  lemma FlipDone(ss: seq<seq<real>>)
    ensures PartlyReversed(ss, |ss| / 2) == Reverse(ss)
  {
  }

  /** The flipZ step of the TXT loader, in place: slices z and dim2 - 1 - z
      are exchanged for every z below dim2 / 2. */
  method FlipZInPlace(dat: array<real>, dimYxX: nat, dim2: nat)
    requires dat.Length == dim2 * dimYxX
    modifies dat
    ensures dat[..] == FlipZ(old(dat[..]), dimYxX, dim2)
  {
    ghost var ss := Slices(dat[..], dimYxX, dim2);
    assert PartlyReversed(ss, 0) == ss;
    var z := 0;
    while z < dim2 / 2
      invariant z <= dim2 / 2
      invariant dat[..] == Concat(PartlyReversed(ss, z))
    {
      var z1 := dim2 - 1 - z;
      // z < z1 always holds below dim2 / 2, so the code's `z == z1` test never fires.
      FlipStep(ss, dimYxX, z, z1, dat[..]);
      SwapSlices(dat, SliceStart(z, dimYxX), SliceStart(z1, dimYxX), dimYxX);
      z := z + 1;
    }
    FlipDone(ss);
  }

  // ---------------------------------------------------------------------
  // Value ranges

  /** computeMinMax: lower the low end to v if v is below it, raise the high
      end to v if v is above it (two separate tests, so the first value folded
      into the empty range replaces both ends). */
  function Widen(rng: (real, real), v: real): (r: (real, real))
    ensures r.0 <= v <= r.1 && r.0 <= rng.0 && rng.1 <= r.1
    ensures (r.0 == rng.0 || r.0 == v) && (r.1 == rng.1 || r.1 == v)
  {
    var lo := if rng.0 > v then v else rng.0;
    var hi := if rng.1 < v then v else rng.1;
    (lo, hi)
  }

  /** The range a loader folds out of vals, starting from the empty range. */
  function Range(vals: seq<real>): (r: (real, real))
    ensures r.0 <= FLT_MAX && FLT_LOWEST <= r.1
    ensures forall k :: 0 <= k < |vals| ==> r.0 <= vals[k] <= r.1
  {
    if vals == [] then EMPTY_RANGE else Widen(Range(vals[..|vals| - 1]), vals[|vals| - 1])
  }

  /** Folding in one more value widens the range by it. */
  lemma RangeAppend(vals: seq<real>, v: real)
    ensures Range(vals + [v]) == Widen(Range(vals), v)
  {
    assert (vals + [v])[..|vals|] == vals;
  }

  /** Each end of the range is either still the empty range's end or one of
      the values, so Range(vals).0 is the least of FLT_MAX and the values and
      Range(vals).1 the greatest of FLT_LOWEST and the values. */
  lemma {:induction false} RangeAttained(vals: seq<real>)
    ensures Range(vals).0 == FLT_MAX || Range(vals).0 in vals
    ensures Range(vals).1 == FLT_LOWEST || Range(vals).1 in vals
  {
    if vals != [] {
      var init := vals[..|vals| - 1];
      RangeAttained(init);
      assert vals == init + [vals[|vals| - 1]];
    }
  }

  /** The values of vals other than nullVal, in order. */
  function NonNull(vals: seq<real>, nullVal: real): (r: seq<real>)
    ensures |r| <= |vals|
    ensures forall v :: v in r <==> v in vals && v != nullVal
  {
    if vals == [] then []
    else
      var init, last := vals[..|vals| - 1], vals[|vals| - 1];
      assert vals == init + [last];
      NonNull(init, nullVal) + (if last == nullVal then [] else [last])
  }

  /** One more value of the valRng loop: skipped if null, folded in otherwise. */
  lemma RangeStep(vals: seq<real>, k: nat, nullVal: real)
    requires k < |vals|
    ensures Range(NonNull(vals[..k + 1], nullVal))
         == if vals[k] == nullVal then Range(NonNull(vals[..k], nullVal))
            else Widen(Range(NonNull(vals[..k], nullVal)), vals[k])
  {
    var t, a := vals[..k + 1], NonNull(vals[..k], nullVal);
    assert t[..|t| - 1] == vals[..k] && t[|t| - 1] == vals[k];
    if vals[k] != nullVal {
      var b := a + [vals[k]];
      assert NonNull(t, nullVal) == b;
      assert b[..|b| - 1] == a;
    } else {
      assert NonNull(t, nullVal) == a + [] == a;
    }
  }

  /** A volume holding nothing but nullVal keeps the empty range. */
  lemma {:induction false} AllNullKeepsEmptyRange(vals: seq<real>, nullVal: real)
    requires forall k :: 0 <= k < |vals| ==> vals[k] == nullVal
    ensures Range(NonNull(vals, nullVal)) == EMPTY_RANGE
  {
    if vals != [] {
      AllNullKeepsEmptyRange(vals[..|vals| - 1], nullVal);
    }
  }

  // ---------------------------------------------------------------------
  // Loader::TXTVolume

  /** What the fscanf loop leaves in the zero-filled data: the file's leading
      numbers, and 0 in every slot past the last one. */
  function ReadScalars(nums: seq<real>, voxNum: nat): (dat: seq<real>)
    ensures |dat| == voxNum
    ensures forall i :: 0 <= i < voxNum ==> dat[i] == (if i < |nums| then nums[i] else 0.0)
  {
    seq(voxNum, i requires 0 <= i < voxNum => if i < |nums| then nums[i] else 0.0)
  }

  /** The scalars of a loaded TXT volume: read, then flipped if asked. */
  function TXTScalars(nums: seq<real>, dim: (nat, nat, nat), flipZ: bool): (dat: seq<real>)
    ensures |dat| == VoxelIndex.Size(dim.0, dim.1, dim.2)
  {
    var read := ReadScalars(nums, VoxelIndex.Size(dim.0, dim.1, dim.2));
    if flipZ then FlipZ(read, dim.1 * dim.0, dim.2) else read
  }

  /** A volume of scalars in a text file, with the range of its non-null values. */
  class TXTVolume {
    var valRng: (real, real)
    var dat: array<real>

    /** No data and the empty range. */
    constructor ()
      ensures valRng == EMPTY_RANGE && fresh(dat) && dat.Length == 0
    {
      valRng := EMPTY_RANGE;
      dat := new real[0];
    }

    /** LoadFromFile on the numbers of an opened file (None when fopen fails). */
    static method LoadFromFile(file: Option<seq<real>>, dim: (nat, nat, nat), nullVal: real, flipZ: bool)
      returns (ret: TXTVolume)
      ensures fresh(ret) && fresh(ret.dat)
      ensures file.None? ==> ret.dat.Length == 0 && ret.valRng == EMPTY_RANGE
      ensures file.Some? ==> ret.dat[..] == TXTScalars(file.value, dim, flipZ)
      ensures ret.valRng == Range(NonNull(ret.dat[..], nullVal))
    {
      ret := new TXTVolume();
      if file.None? {
        assert ret.dat[..] == [] && NonNull([], nullVal) == [] && Range([]) == EMPTY_RANGE;
        return;
      }
      var nums := file.value;
      var voxNum := VoxelIndex.Size(dim.0, dim.1, dim.2);
      var dat := new real[voxNum](i => 0.0);
      ret.dat := dat;
      var i := 0;
      while i < voxNum
        invariant i <= voxNum
        invariant forall j :: 0 <= j < voxNum ==> dat[j] == (if j < i && j < |nums| then nums[j] else 0.0)
        modifies dat
      {
        // Once the numbers run out fscanf fails and leaves the slot as it was.
        if i < |nums| {
          dat[i] := nums[i];
        }
        i := i + 1;
      }
      assert dat[..] == ReadScalars(nums, voxNum);
      if flipZ {
        FlipZInPlace(dat, dim.1 * dim.0, dim.2);
      }
      ret.FoldValueRange(nullVal);
    }

    /** The loop after reading: fold every non-null scalar into valRng. */
    method FoldValueRange(nullVal: real)
      requires valRng == EMPTY_RANGE
      modifies this`valRng
      ensures valRng == Range(NonNull(dat[..], nullVal))
    {
      var k := 0;
      while k < dat.Length
        invariant k <= dat.Length
        invariant valRng == Range(NonNull(dat[..k], nullVal))
      {
        var v := dat[k];
        RangeStep(dat[..], k, nullVal);
        assert dat[..][..k + 1] == dat[..k + 1] && dat[..][..k] == dat[..k];
        if v != nullVal {
          if valRng.0 > v {
            valRng := (v, valRng.1);
          }
          if valRng.1 < v {
            valRng := (valRng.0, v);
          }
        }
        k := k + 1;
      }
      assert dat[..k] == dat[..];
    }
  }

  // ---------------------------------------------------------------------
  // Loader::LabeledTXTVolume

  // Each data line of a labeled file is given as the numbers sscanf reads
  // from it: an index, the height, the latitude, the longitude and, when
  // present, the value.  A line with fewer than four numbers is skipped.

  /** Field c of every line holding at least `need` numbers, in line order. */
  function Column(lines: seq<seq<real>>, c: nat, need: nat): (col: seq<real>)
    requires c < need
    ensures |col| <= |lines|
  {
    if lines == [] then []
    else
      var last := lines[|lines| - 1];
      Column(lines[..|lines| - 1], c, need) + (if |last| >= need then [last[c]] else [])
  }

  /** What a line adds to dat: its value, or NaN when it has only four numbers. */
  function Values(lines: seq<seq<real>>): (vals: seq<Float>)
  {
    if lines == [] then []
    else
      var last := lines[|lines| - 1];
      Values(lines[..|lines| - 1])
        + (if |last| < 4 then [] else if |last| >= 5 then [Num(last[4])] else [NaN])
  }

  /** Every line kept contributes one entry to each of the four columns and to dat. */
  lemma {:induction false} ColumnsAlign(lines: seq<seq<real>>, c: nat)
    requires c < 4
    ensures |Column(lines, c, 4)| == |Values(lines)|
  {
    if lines != [] {
      ColumnsAlign(lines[..|lines| - 1], c);
    }
  }

  /** The unordered_set of a column's values. */
  function Distinct(col: seq<real>): (d: set<real>)
    ensures |d| <= |col|
  {
    if col == [] then {}
    else
      var init, last := col[..|col| - 1], col[|col| - 1];
      var d := Distinct(init);
      assert |d + {last}| <= |d| + 1 by {
        if last in d {
          assert d + {last} == d;
        }
      }
      d + {last}
  }

  /** Reading one more line, column by column. */
  lemma LineRead(lines: seq<seq<real>>, f: seq<real>)
    ensures Column(lines + [f], 1, 4) == if |f| >= 4 then Column(lines, 1, 4) + [f[1]] else Column(lines, 1, 4)
    ensures Column(lines + [f], 2, 4) == if |f| >= 4 then Column(lines, 2, 4) + [f[2]] else Column(lines, 2, 4)
    ensures Column(lines + [f], 3, 4) == if |f| >= 4 then Column(lines, 3, 4) + [f[3]] else Column(lines, 3, 4)
    ensures Column(lines + [f], 4, 5) == if |f| >= 5 then Column(lines, 4, 5) + [f[4]] else Column(lines, 4, 5)
    ensures Values(lines + [f]) == Values(lines)
      + (if |f| < 4 then [] else if |f| >= 5 then [Num(f[4])] else [NaN])
  {
    assert (lines + [f])[..|lines|] == lines;
  }

  /** The set holds exactly the column's values. */
  lemma {:induction false} DistinctMembers(col: seq<real>, v: real)
    ensures v in Distinct(col) <==> v in col
  {
    if col != [] {
      var init := col[..|col| - 1];
      DistinctMembers(init, v);
      assert col == init + [col[|col| - 1]];
    }
  }

  /** Reading one more line updates the set and the range of coordinate c. */
  lemma CoordStep(done: seq<seq<real>>, f: seq<real>, c: nat)
    requires c < 4
    ensures var col, col' := Column(done, c, 4), Column(done + [f], c, 4);
      if |f| >= 4 then Distinct(col') == Distinct(col) + {f[c]} && Range(col') == Widen(Range(col), f[c])
      else Distinct(col') == Distinct(col) && Range(col') == Range(col)
  {
    assert (done + [f])[..|done|] == done;
    if |f| >= 4 {
      DistinctAppend(Column(done, c, 4), f[c]);
      RangeAppend(Column(done, c, 4), f[c]);
    } else {
      assert Column(done + [f], c, 4) == Column(done, c, 4);
    }
  }

  /** Reading one more line updates the value range and dat. */
  lemma ValueStep(done: seq<seq<real>>, f: seq<real>)
    ensures var col, col' := Column(done, 4, 5), Column(done + [f], 4, 5);
      Range(col') == if |f| >= 5 then Widen(Range(col), f[4]) else Range(col)
    ensures Values(done + [f]) == Values(done)
      + (if |f| < 4 then [] else if |f| >= 5 then [Num(f[4])] else [NaN])
  {
    LineRead(done, f);
    if |f| >= 5 {
      RangeAppend(Column(done, 4, 5), f[4]);
    }
  }

  /** Adding a value to a column adds it to the column's set. */
  lemma DistinctAppend(col: seq<real>, x: real)
    ensures Distinct(col + [x]) == Distinct(col) + {x}
  {
    assert (col + [x])[..|col|] == col;
  }

  lemma PrefixStep(lines: seq<seq<real>>, j: nat)
    requires j < |lines|
    ensures lines[..j + 1] == lines[..j] + [lines[j]]
  {
  }

  /** The data lines: everything after the header line that getline skips. */
  function DataLines(lines: seq<seq<real>>): seq<seq<real>>
  {
    if lines == [] then [] else lines[1..]
  }

  /** dim: the numbers of distinct longitudes, latitudes and heights. */
  function Dims(lines: seq<seq<real>>): (dim: (nat, nat, nat))
  {
    (|Distinct(Column(lines, 3, 4))|, |Distinct(Column(lines, 2, 4))|, |Distinct(Column(lines, 1, 4))|)
  }

  /** No axis has more distinct positions than there are entries in dat. */
  lemma DimsAtMostValues(lines: seq<seq<real>>)
    ensures var dim := Dims(lines);
      dim.0 <= |Values(lines)| && dim.1 <= |Values(lines)| && dim.2 <= |Values(lines)|
  {
    ColumnsAlign(lines, 1);
    ColumnsAlign(lines, 2);
    ColumnsAlign(lines, 3);
  }

  /** A line with fewer than four numbers changes nothing. */
  lemma ShortLineSkipped(lines: seq<seq<real>>, line: seq<real>, c: nat, need: nat)
    requires |line| < 4 && c < need && 4 <= need
    ensures Values(lines + [line]) == Values(lines)
    ensures Column(lines + [line], c, need) == Column(lines, c, need)
  {
    assert (lines + [line])[..|lines|] == lines;
  }

  /** A line with exactly four numbers adds a NaN to dat and nothing to the
      value column, so it does not touch valRng. */
  lemma FourNumberLineIsNaN(lines: seq<seq<real>>, line: seq<real>)
    requires |line| == 4
    ensures Values(lines + [line]) == Values(lines) + [NaN]
    ensures Column(lines + [line], 4, 5) == Column(lines, 4, 5)
  {
    assert (lines + [line])[..|lines|] == lines;
  }

  /** Without a single line of four numbers every dimension is 0 and the
      volume counts as dense. */
  lemma {:induction false} NoDataIsDense(lines: seq<seq<real>>)
    requires forall k :: 0 <= k < |lines| ==> |lines[k]| < 4
    ensures Values(lines) == [] && Dims(lines) == (0, 0, 0)
  {
    if lines != [] {
      var init := lines[..|lines| - 1];
      NoDataIsDense(init);
      ColumnsAlign(lines, 1);
      ColumnsAlign(lines, 2);
      ColumnsAlign(lines, 3);
    }
  }

  /** The normalised form of one entry of dat, for the range (lo, hi):
      NaN becomes lo itself, anything else (v - lo) / (hi - lo), raised to 0
      if it falls below 0. */
  function NormalizedValue(x: Float, lo: real, hi: real): (y: Float)
  {
    match x
    case NaN => Num(lo)
    case Inf(negative) =>
      // inf - lo is inf; dividing by a width that is negative flips its sign.
      if negative != (hi - lo < 0.0) then Num(0.0) else Inf(false)
    case Num(v) =>
      var q := Div(v - lo, hi - lo);
      if (q.Num? && q.r < 0.0) || (q.Inf? && q.negative) then Num(0.0) else q
  }

  /** With a proper range a finite value lands in [0, 1] exactly when it is at
      most hi, and on 0 exactly when it is at most lo: nothing is clamped from above. */
  lemma NormalizedValueBounds(v: real, lo: real, hi: real)
    requires lo < hi
    ensures NormalizedValue(Num(v), lo, hi).Num?
    ensures NormalizedValue(Num(v), lo, hi).r <= 1.0 <==> v <= hi
    ensures NormalizedValue(Num(v), lo, hi).r == 0.0 <==> v <= lo
    ensures 0.0 <= NormalizedValue(Num(v), lo, hi).r
  {
    var w := hi - lo;
    if v > hi {
      DivAtLeastOne(v - lo, w);
      assert (v - lo) / w != 1.0;
    } else if v > lo {
      DivAtMostOne(v - lo, w);
      DivNonNegative(v - lo, w);
      assert (v - lo) / w != 0.0;
    }
  }

  /** A NaN entry keeps the raw lower bound of the range, although Normalize
      then declares the range to be [0, 1]: the entry lies in [0, 1] exactly
      when lo does, so a negative lower bound leaves it below the declared
      range. */
  lemma NaNNormalizedToLowerBound(lo: real, hi: real)
    ensures NormalizedValue(NaN, lo, hi) == Num(lo)
    ensures 0.0 <= NormalizedValue(NaN, lo, hi).r <= 1.0 <==> 0.0 <= lo <= 1.0
  {
  }

  /** The range Normalize works with: the given one if it is proper, else the
      volume's own. */
  function AdoptedRange(given: Option<(real, real)>, own: (real, real)): (r: (real, real))
    ensures r == own || (given.Some? && r == given.value && r.0 < r.1)
    ensures given.Some? && given.value.0 < given.value.1 ==> r == given.value
  {
    if given.Some? && given.value.1 > given.value.0 then given.value else own
  }

  /** dat after Normalize: every entry normalised for the range (lo, hi). */
  function NormalizedAll(dat: seq<Float>, lo: real, hi: real): (r: seq<Float>)
    ensures |r| == |dat|
  {
    seq(|dat|, i requires 0 <= i < |dat| => NormalizedValue(dat[i], lo, hi))
  }

  /** A volume read from a labeled text file: one value per line with its
      position, the numbers of distinct positions per axis, and the ranges. */
  class LabeledTXTVolume {
    var isDense: bool
    var dim: (nat, nat, nat)
    var valRng: (real, real)
    var lonRng: (real, real)
    var latRng: (real, real)
    var hRng: (real, real)
    var dat: seq<Float>

    /** Zero dimensions, empty ranges, no data; isDense is left unset. */
    constructor ()
      ensures dim == (0, 0, 0) && dat == []
      ensures valRng == EMPTY_RANGE && lonRng == EMPTY_RANGE
      ensures latRng == EMPTY_RANGE && hRng == EMPTY_RANGE
    {
      dim := (0, 0, 0);
      valRng, lonRng, latRng, hRng := EMPTY_RANGE, EMPTY_RANGE, EMPTY_RANGE, EMPTY_RANGE;
      dat := [];
    }

    /** LoadFromFile on the numbers of each line of an opened file (None
        when the file cannot be opened). */
    static method LoadFromFile(file: Option<seq<seq<real>>>) returns (ret: LabeledTXTVolume)
      ensures fresh(ret)
      ensures file.None? ==> ret.dim == (0, 0, 0) && ret.dat == [] && ret.valRng == EMPTY_RANGE
      ensures file.Some? ==> var lines := DataLines(file.value);
        && ret.dat == Values(lines)
        && ret.hRng == Range(Column(lines, 1, 4))
        && ret.latRng == Range(Column(lines, 2, 4))
        && ret.lonRng == Range(Column(lines, 3, 4))
        && ret.valRng == Range(Column(lines, 4, 5))
        && ret.dim == Dims(lines)
        && ret.isDense == (|ret.dat| == VoxelIndex.Size(ret.dim.0, ret.dim.1, ret.dim.2))
    {
      ret := new LabeledTXTVolume();
      if file.None? {
        return;
      }
      var lines := DataLines(file.value);
      var hSets, latSets, lonSets, hRng, latRng, lonRng, valRng, dat := ReadLines(lines);
      ret.hRng, ret.latRng, ret.lonRng, ret.valRng, ret.dat := hRng, latRng, lonRng, valRng, dat;
      ret.SetDims(|lonSets|, |latSets|, |hSets|);
    }

    /** The end of LoadFromFile: dim from the set sizes, and isDense when dat
        holds one entry per grid point. */
    method SetDims(lonNum: nat, latNum: nat, hNum: nat)
      modifies this`dim, this`isDense
      ensures dim == (lonNum, latNum, hNum)
      ensures isDense == (|dat| == VoxelIndex.Size(lonNum, latNum, hNum))
    {
      dim := (lonNum, latNum, hNum);
      isDense := |dat| == VoxelIndex.Size(dim.0, dim.1, dim.2);
    }

    /** The getline loop of LoadFromFile, which fills the three sets, the four
        ranges and dat of a freshly constructed volume, one data line at a time. */
    static method ReadLines(lines: seq<seq<real>>)
      returns (hSets: set<real>, latSets: set<real>, lonSets: set<real>,
               hRng: (real, real), latRng: (real, real), lonRng: (real, real), valRng: (real, real),
               dat: seq<Float>)
      ensures dat == Values(lines)
      ensures hRng == Range(Column(lines, 1, 4)) && hSets == Distinct(Column(lines, 1, 4))
      ensures latRng == Range(Column(lines, 2, 4)) && latSets == Distinct(Column(lines, 2, 4))
      ensures lonRng == Range(Column(lines, 3, 4)) && lonSets == Distinct(Column(lines, 3, 4))
      ensures valRng == Range(Column(lines, 4, 5))
    {
      hSets, latSets, lonSets := {}, {}, {};
      hRng, latRng, lonRng, valRng := EMPTY_RANGE, EMPTY_RANGE, EMPTY_RANGE, EMPTY_RANGE;
      dat := [];
      ghost var done: seq<seq<real>> := [];
      var j := 0;
      while j < |lines|
        invariant j <= |lines| && done == lines[..j]
        invariant dat == Values(done)
        invariant hRng == Range(Column(done, 1, 4)) && hSets == Distinct(Column(done, 1, 4))
        invariant latRng == Range(Column(done, 2, 4)) && latSets == Distinct(Column(done, 2, 4))
        invariant lonRng == Range(Column(done, 3, 4)) && lonSets == Distinct(Column(done, 3, 4))
        invariant valRng == Range(Column(done, 4, 5))
      {
        var f := lines[j];
        CoordStep(done, f, 1);
        CoordStep(done, f, 2);
        CoordStep(done, f, 3);
        ValueStep(done, f);
        if |f| >= 4 {
          hSets := hSets + {f[1]};
          latSets := latSets + {f[2]};
          lonSets := lonSets + {f[3]};
          hRng := Widen(hRng, f[1]);
          latRng := Widen(latRng, f[2]);
          lonRng := Widen(lonRng, f[3]);
          if |f| >= 5 {
            valRng := Widen(valRng, f[4]);
            dat := dat + [Num(f[4])];
          } else {
            dat := dat + [NaN];
          }
        }
        PrefixStep(lines, j);
        done := done + [f];
        j := j + 1;
      }
      assert done == lines;
    }

    /** Normalize: adopt the given range if it is proper, map every entry of
        dat through that range, and declare the range to be [0, 1]. */
    method Normalize(given: Option<(real, real)>)
      modifies this`valRng, this`dat
      ensures valRng == (0.0, 1.0)
      ensures var r := AdoptedRange(given, old(valRng));
        dat == NormalizedAll(old(dat), r.0, r.1)
    {
      if given.Some? && given.value.1 > given.value.0 {
        valRng := given.value;
      }
      var lo, hi := valRng.0, valRng.1;
      var i := 0;
      while i < |dat|
        invariant i <= |dat| == |old(dat)| && valRng == (lo, hi)
        invariant forall k :: 0 <= k < |dat| ==>
          dat[k] == if k < i then NormalizedValue(old(dat)[k], lo, hi) else old(dat)[k]
      {
        dat := dat[i := NormalizedValue(dat[i], lo, hi)];
        i := i + 1;
      }
      valRng := (0.0, 1.0);
    }
  }

  // ---------------------------------------------------------------------
  // Convertor::RAWVolume

  newtype uint8 = x: int | 0 <= x < 256

  /** U8ToNormalizedFloat: every byte divided by 255, which lands in [0, 1]. */
  function U8ToNormalizedFloat(u8Dat: seq<uint8>): (dat: seq<real>)
    ensures |dat| == |u8Dat|
    ensures forall i :: 0 <= i < |dat| ==> 0.0 <= dat[i] <= 1.0
  {
    seq(|u8Dat|, i requires 0 <= i < |u8Dat| => u8Dat[i] as int as real / 255.0)
  }

  /** NormalizedFloatToU8: every value times 255, converted to uint8 by
      truncation; the conversion is defined only for results in (-1, 256). */
  function NormalizedFloatToU8(fDat: seq<real>): (dat: seq<uint8>)
    requires forall i :: 0 <= i < |fDat| ==> -1.0 < fDat[i] * 255.0 < 256.0
    ensures |dat| == |fDat|
    ensures forall i :: 0 <= i < |fDat| && 0.0 <= fDat[i] ==>
      dat[i] as int as real <= fDat[i] * 255.0 < dat[i] as int as real + 1.0
    ensures forall i :: 0 <= i < |fDat| && fDat[i] < 0.0 ==> dat[i] == 0
  {
    seq(|fDat|, i requires 0 <= i < |fDat| => TruncToInt(fDat[i] * 255.0) as uint8)
  }

  /** In exact arithmetic a byte survives the trip to [0, 1] and back. */
  lemma U8RoundTrip(u8Dat: seq<uint8>)
    ensures var f := U8ToNormalizedFloat(u8Dat);
      (forall i :: 0 <= i < |f| ==> -1.0 < f[i] * 255.0 < 256.0) && NormalizedFloatToU8(f) == u8Dat
  {
    var f := U8ToNormalizedFloat(u8Dat);
    forall i | 0 <= i < |f|
      ensures f[i] * 255.0 == u8Dat[i] as int as real
    {
    }
  }

  /** FloatToNormalizedFloat: nullVal becomes nullValMap, every other value v
      becomes (v - lo) / (hi - lo). */
  function FloatToNormalizedFloat(floatDat: seq<real>, valRng: (real, real), nullVal: real, nullValMap: real)
    : (dat: seq<Float>)
    ensures |dat| == |floatDat|
  {
    seq(|floatDat|, i requires 0 <= i < |floatDat| =>
      if floatDat[i] == nullVal then Num(nullValMap) else Div(floatDat[i] - valRng.0, valRng.1 - valRng.0))
  }

  /** With a proper range, a non-null value is recovered from its normalised
      form as lo + d * (hi - lo), and the normalised form lies in [0, 1]
      exactly when the value lies in [lo, hi]; nullVal maps to nullValMap. */
  lemma FloatToNormalizedFloatInverse(floatDat: seq<real>, valRng: (real, real), nullVal: real,
                                      nullValMap: real, i: nat)
    requires valRng.0 < valRng.1 && i < |floatDat|
    ensures var d := FloatToNormalizedFloat(floatDat, valRng, nullVal, nullValMap)[i];
      && d.Num?
      && (floatDat[i] == nullVal ==> d.r == nullValMap)
      && (floatDat[i] != nullVal ==>
            && valRng.0 + d.r * (valRng.1 - valRng.0) == floatDat[i]
            && (0.0 <= d.r <= 1.0 <==> valRng.0 <= floatDat[i] <= valRng.1))
  {
    var v, lo, w := floatDat[i], valRng.0, valRng.1 - valRng.0;
    if v != nullVal {
      assert (v - lo) / w * w == v - lo;
      if v > valRng.1 {
        DivAtLeastOne(v - lo, w);
        assert (v - lo) / w != 1.0;
      } else if v >= lo {
        DivNonNegative(v - lo, w);
        if v > lo {
          DivAtMostOne(v - lo, w);
        }
      }
    }
  }

  /** The neighbour coordinate the smoothing loop asks for: c + d, except
      that a step below 0 stays at 0. */
  function Step(c: nat, d: int): nat
    requires -1 <= d <= 1
  {
    if c == 0 && d < 0 then c else c + d
  }

  /** The sample lambda's index: voxel (x, y, z) with each coordinate clamped
      to dim - 1, which always lies inside the volume. */
  function SampleIndex(dim: (nat, nat, nat), x: nat, y: nat, z: nat): (i: nat)
    requires 0 < dim.0 && 0 < dim.1 && 0 < dim.2
    ensures i < VoxelIndex.Size(dim.0, dim.1, dim.2)
  {
    var cx := if dim.0 - 1 < x then dim.0 - 1 else x;
    var cy := if dim.1 - 1 < y then dim.1 - 1 else y;
    var cz := if dim.2 - 1 < z then dim.2 - 1 else z;
    VoxelIndex.FlatInBounds(dim.0, dim.1, dim.2, cx, cy, cz);
    VoxelIndex.Flat(dim.0, dim.1, cx, cy, cz)
  }

  /** Entry i of the 27-entry field of voxel (x, y, z): the sample at offset
      (dx, dy, dz) = (i % 3 - 1, i / 3 % 3 - 1, i / 9 - 1). */
  function FieldAt(fDat: seq<real>, dim: (nat, nat, nat), x: nat, y: nat, z: nat, i: nat): real
    requires 0 < dim.0 && 0 < dim.1 && 0 < dim.2 && VoxelIndex.Size(dim.0, dim.1, dim.2) <= |fDat|
    requires i < 27
  {
    fDat[SampleIndex(dim, Step(x, i % 3 - 1), Step(y, i / 3 % 3 - 1), Step(z, i / 9 - 1))]
  }

  /** The field of voxel (x, y, z). */
  function Neighbourhood(fDat: seq<real>, dim: (nat, nat, nat), x: nat, y: nat, z: nat): (field: seq<real>)
    requires 0 < dim.0 && 0 < dim.1 && 0 < dim.2 && VoxelIndex.Size(dim.0, dim.1, dim.2) <= |fDat|
    ensures |field| == 27
  {
    seq(27, i requires 0 <= i < 27 => FieldAt(fDat, dim, x, y, z, i))
  }

  function Sum(s: seq<real>): real
  {
    if s == [] then 0.0 else Sum(s[..|s| - 1]) + s[|s| - 1]
  }

  /** The smoothed value of voxel (x, y, z): the mean of its field. */
  function SmoothedAt(fDat: seq<real>, dim: (nat, nat, nat), x: nat, y: nat, z: nat): real
    requires 0 < dim.0 && 0 < dim.1 && 0 < dim.2 && VoxelIndex.Size(dim.0, dim.1, dim.2) <= |fDat|
  {
    Sum(Neighbourhood(fDat, dim, x, y, z)) / 27.0
  }

  /** Entry j of the smoothed volume: the smoothed value of the voxel j
      stands for, and 0 past the grid. */
  function SmoothedValue(fDat: seq<real>, dim: (nat, nat, nat), j: nat): real
    requires VoxelIndex.Size(dim.0, dim.1, dim.2) <= |fDat|
  {
    if 0 < dim.0 && 0 < dim.1 && 0 < dim.2 && j < VoxelIndex.Size(dim.0, dim.1, dim.2) then
      var v := VoxelIndex.Decode(dim.0, dim.1, j);
      SmoothedAt(fDat, dim, v.0, v.1, v.2)
    else 0.0
  }

  /** The volume RoughFloatToSmooth returns. */
  function Smoothed(fDat: seq<real>, dim: (nat, nat, nat)): (r: seq<real>)
    requires VoxelIndex.Size(dim.0, dim.1, dim.2) <= |fDat|
    ensures |r| == |fDat|
  {
    seq(|fDat|, j requires 0 <= j < |fDat| => SmoothedValue(fDat, dim, j))
  }

  lemma {:induction false} SumConstant(s: seq<real>, c: real)
    requires forall k :: 0 <= k < |s| ==> s[k] == c
    ensures Sum(s) == |s| as real * c
  {
    if s != [] {
      SumConstant(s[..|s| - 1], c);
    }
  }

  /** A volume whose every voxel holds c is left as it is by the smoothing. */
  lemma SmoothConstant(fDat: seq<real>, dim: (nat, nat, nat), c: real)
    requires VoxelIndex.Size(dim.0, dim.1, dim.2) <= |fDat|
    requires forall j :: 0 <= j < VoxelIndex.Size(dim.0, dim.1, dim.2) ==> fDat[j] == c
    ensures forall j :: 0 <= j < VoxelIndex.Size(dim.0, dim.1, dim.2) ==> Smoothed(fDat, dim)[j] == c
  {
    forall j | 0 <= j < VoxelIndex.Size(dim.0, dim.1, dim.2)
      ensures Smoothed(fDat, dim)[j] == c
    {
      assert 0 < dim.0 && 0 < dim.1 && 0 < dim.2;
      var v := VoxelIndex.Decode(dim.0, dim.1, j);
      SumConstant(Neighbourhood(fDat, dim, v.0, v.1, v.2), c);
    }
  }

  /** The offsets (dx, dy, dz) of the field loops and the entry they fill. */
  lemma FieldIndex(dz: int, dy: int, dx: int)
    requires -1 <= dz <= 1 && -1 <= dy <= 1 && -1 <= dx <= 1
    ensures var i := (dz + 1) * 9 + (dy + 1) * 3 + (dx + 1);
      0 <= i < 27 && i % 3 - 1 == dx && i / 3 % 3 - 1 == dy && i / 9 - 1 == dz
  {
  }

  /** The body of the voxel loop: fill the 27-entry field, add it up and
      divide by 27. */
  method SmoothVoxel(fDat: seq<real>, dim: (nat, nat, nat), x: nat, y: nat, z: nat) returns (val: real)
    requires 0 < dim.0 && 0 < dim.1 && 0 < dim.2 && VoxelIndex.Size(dim.0, dim.1, dim.2) <= |fDat|
    ensures val == SmoothedAt(fDat, dim, x, y, z)
  {
    var field := new real[27];
    var dz := -1;
    while dz < 2
      invariant -1 <= dz <= 2
      invariant forall i :: 0 <= i < (dz + 1) * 9 ==> field[i] == FieldAt(fDat, dim, x, y, z, i)
    {
      var dy := -1;
      while dy < 2
        invariant -1 <= dy <= 2
        invariant forall i :: 0 <= i < (dz + 1) * 9 + (dy + 1) * 3 ==> field[i] == FieldAt(fDat, dim, x, y, z, i)
      {
        var dx := -1;
        while dx < 2
          invariant -1 <= dx <= 2
          invariant forall i :: 0 <= i < (dz + 1) * 9 + (dy + 1) * 3 + (dx + 1) ==>
            field[i] == FieldAt(fDat, dim, x, y, z, i)
        {
          var i := (dz + 1) * 9 + (dy + 1) * 3 + (dx + 1);
          FieldIndex(dz, dy, dx);
          field[i] := fDat[SampleIndex(dim, Step(x, dx), Step(y, dy), Step(z, dz))];
          dx := dx + 1;
        }
        dy := dy + 1;
      }
      dz := dz + 1;
    }
    assert field[..] == Neighbourhood(fDat, dim, x, y, z);
    val := 0.0;
    var i := 0;
    while i < 27
      invariant i <= 27
      invariant val == Sum(field[..i])
    {
      assert field[..i + 1][..i] == field[..i];
      val := val + field[i];
      i := i + 1;
    }
    assert field[..i] == field[..];
    val := val / 27.0;
  }

  /** out holds the smoothed values below index n and is still zero from n on. */
  ghost predicate SmoothedUpTo(out: seq<real>, fDat: seq<real>, dim: (nat, nat, nat), n: nat)
    requires VoxelIndex.Size(dim.0, dim.1, dim.2) <= |fDat|
  {
    |out| == |fDat| &&
    forall j :: 0 <= j < |out| ==> out[j] == if j < n then SmoothedValue(fDat, dim, j) else 0.0
  }

  /** The voxel the loops are at is the one its index decodes to. */
  lemma SmoothedValueAt(fDat: seq<real>, dim: (nat, nat, nat), x: nat, y: nat, z: nat)
    requires x < dim.0 && y < dim.1 && z < dim.2 && VoxelIndex.Size(dim.0, dim.1, dim.2) <= |fDat|
    ensures VoxelIndex.Flat(dim.0, dim.1, x, y, z) < VoxelIndex.Size(dim.0, dim.1, dim.2)
    ensures SmoothedValue(fDat, dim, VoxelIndex.Flat(dim.0, dim.1, x, y, z)) == SmoothedAt(fDat, dim, x, y, z)
  {
    VoxelIndex.FlatInBounds(dim.0, dim.1, dim.2, x, y, z);
    VoxelIndex.DecodeFlat(dim.0, dim.1, x, y, z);
  }

  /** RoughFloatToSmooth: every voxel replaced by the mean of its 27
      neighbours, a neighbour outside the grid being replaced by the nearest
      voxel inside it. */
  method RoughFloatToSmooth(fDat: seq<real>, dim: (nat, nat, nat)) returns (smoothed: seq<real>)
    requires VoxelIndex.Size(dim.0, dim.1, dim.2) <= |fDat|
    ensures smoothed == Smoothed(fDat, dim)
  {
    var out := new real[|fDat|](j => 0.0);
    var dimYxX := dim.1 * dim.0;
    var z := 0;
    while z < dim.2
      invariant z <= dim.2
      invariant SmoothedUpTo(out[..], fDat, dim, VoxelIndex.Flat(dim.0, dim.1, 0, 0, z))
    {
      var y := 0;
      while y < dim.1
        invariant y <= dim.1
        invariant SmoothedUpTo(out[..], fDat, dim, VoxelIndex.Flat(dim.0, dim.1, 0, y, z))
      {
        var x := 0;
        while x < dim.0
          invariant x <= dim.0
          invariant SmoothedUpTo(out[..], fDat, dim, VoxelIndex.Flat(dim.0, dim.1, x, y, z))
        {
          SmoothedValueAt(fDat, dim, x, y, z);
          var val := SmoothVoxel(fDat, dim, x, y, z);
          out[z * dimYxX + y * dim.0 + x] := val;
          x := x + 1;
        }
        VoxelIndex.FlatCarry(dim.0, dim.1, y, z);
        y := y + 1;
      }
      VoxelIndex.FlatCarry(dim.0, dim.1, 0, z);
      z := z + 1;
    }
    VoxelIndex.FlatCarry(dim.0, dim.1, 0, z);
    smoothed := out[..];
  }
}
