// OSGConvertor::TransferFunctionPoints of tf_osg_io.h: a transfer function
// given as key points (a scalar in 0..255 and a colour) turned into a dense
// 256-entry colour table by linear interpolation, and into the 256 by 256
// pre-integrated table of a front and a back scalar.  The osg::Image each
// texture wraps is the sequence this model returns; filters and wrap modes
// are not modelled, and std::exp is the one of the Libm record.
module TfOsgIO {
  import opened Numerics

  /** A scalar of the transfer function's domain: a uint8_t. */
  type Scalar = x: nat | x < 256

  /** A key point: a scalar and the colour the table takes there. */
  type KeyPoint = (Scalar, Rgba)

  /** The keys are strictly increasing, as every producer of key lists
      (the widget's 256-entry point table read in order) delivers them. */
  ghost predicate Increasing(pnts: seq<KeyPoint>)
  {
    forall i, j :: 0 <= i < j < |pnts| ==> pnts[i].0 < pnts[j].0
  }

  /** Some key lies at or after scalar s. */
  predicate Covers(pnts: seq<KeyPoint>, s: nat)
  {
    |pnts| > 0 && s <= pnts[|pnts| - 1].0
  }

  /** The key list reaches scalar 255, so the walk over the table never runs
      past its last key. */
  predicate Complete(pnts: seq<KeyPoint>)
  {
    Covers(pnts, 255)
  }

  /** The index of the first key at or after s. */
  function Bracket(pnts: seq<KeyPoint>, s: nat, from: nat): (k: nat)
    requires Covers(pnts, s) && from < |pnts|
    requires from > 0 ==> pnts[from - 1].0 < s
    ensures from <= k < |pnts| && s <= pnts[k].0
    ensures k > 0 ==> pnts[k - 1].0 < s
    decreases |pnts| - from
  {
    if s <= pnts[from].0 then from else Bracket(pnts, s, from + 1)
  }

  /** Only one key index brackets a scalar. */
  lemma {:induction false} BracketUnique(pnts: seq<KeyPoint>, s: nat, from: nat, k: nat)
    requires Increasing(pnts) && Covers(pnts, s) && from <= k < |pnts|
    requires from > 0 ==> pnts[from - 1].0 < s
    requires s <= pnts[k].0 && (k > 0 ==> pnts[k - 1].0 < s)
    ensures Bracket(pnts, s, from) == k
    decreases |pnts| - from
  {
    if s > pnts[from].0 {
      BracketUnique(pnts, s, from + 1, k);
    }
  }

  /** The reference definition of table entry s: the colour of a key lying
      at s; before the first key, the first key's colour; between two keys,
      the straight line between their colours. */
  function TableEntry(pnts: seq<KeyPoint>, s: nat): Rgba
    requires Covers(pnts, s)
  {
    var k := Bracket(pnts, s, 0);
    if s == pnts[k].0 || k == 0 then pnts[k].1
    else
      var a, b := pnts[k - 1].0, pnts[k].0;
      Mix(pnts[k - 1].1, pnts[k].1, (s - a) as real / (b - a) as real)
  }

  /** The first n entries of the table. */
  function TableUpTo(pnts: seq<KeyPoint>, n: nat): (tf: seq<Rgba>)
    requires n == 0 || Covers(pnts, n - 1)
    ensures |tf| == n
  {
    if n == 0 then [] else TableUpTo(pnts, n - 1) + [TableEntry(pnts, n - 1)]
  }

  /** The 256-entry table of a complete key list. */
  function Table(pnts: seq<KeyPoint>): (tf: seq<Rgba>)
    requires Complete(pnts)
    ensures |tf| == 256
  {
    TableUpTo(pnts, 256)
  }

  lemma {:induction false} TableUpToAt(pnts: seq<KeyPoint>, n: nat, s: nat)
    requires s < n && Covers(pnts, n - 1)
    ensures TableUpTo(pnts, n)[s] == TableEntry(pnts, s)
  {
    if s < n - 1 {
      TableUpToAt(pnts, n - 1, s);
    }
  }

  /** Entry s of the table is the reference entry at s. */
  lemma TableAt(pnts: seq<KeyPoint>, s: Scalar)
    requires Complete(pnts)
    ensures Table(pnts)[s] == TableEntry(pnts, s)
  {
    TableUpToAt(pnts, 256, s);
  }

  /** At every key the table holds exactly the key's colour. */
  lemma TableAtKey(pnts: seq<KeyPoint>, k: nat)
    requires Increasing(pnts) && Complete(pnts) && k < |pnts|
    ensures Table(pnts)[pnts[k].0] == pnts[k].1
  {
    TableAt(pnts, pnts[k].0);
    BracketUnique(pnts, pnts[k].0, 0, k);
  }

  /** Up to the first key the table holds the first key's colour. */
  lemma TableBeforeFirst(pnts: seq<KeyPoint>, s: Scalar)
    requires Increasing(pnts) && Complete(pnts) && s <= pnts[0].0
    ensures Table(pnts)[s] == pnts[0].1
  {
    TableAt(pnts, s);
    BracketUnique(pnts, s, 0, 0);
  }

  /** Strictly between keys a and b the table mixes their colours with
      weight (s - a) / (b - a). */
  lemma TableBetween(pnts: seq<KeyPoint>, k: nat, s: Scalar)
    requires Increasing(pnts) && Complete(pnts) && 0 < k < |pnts|
    requires pnts[k - 1].0 < s < pnts[k].0
    ensures Table(pnts)[s]
         == Mix(pnts[k - 1].1, pnts[k].1, (s - pnts[k - 1].0) as real / (pnts[k].0 - pnts[k - 1].0) as real)
  {
    TableAt(pnts, s);
    BracketUnique(pnts, s, 0, k);
  }

  /** The table entry at a scalar s whose next key, at or after it, is key k. */
  lemma TableEntryAt(pnts: seq<KeyPoint>, s: nat, k: nat, lft: nat)
    requires Increasing(pnts) && k < |pnts| && s <= pnts[k].0
    requires k > 0 ==> pnts[k - 1].0 < s && lft == k - 1
    requires k == 0 ==> lft == 0
    ensures Covers(pnts, s)
    ensures s == pnts[k].0 ==> TableEntry(pnts, s) == Mix(pnts[lft].1, pnts[k].1, 1.0)
    ensures s != pnts[k].0 ==>
      TableEntry(pnts, s)
        == Mix(pnts[lft].1, pnts[k].1, (s - pnts[lft].0) as real / (if k == 0 then 1.0 else (pnts[k].0 - pnts[lft].0) as real))
  {
    BracketUnique(pnts, s, 0, k);
  }

  /** The interpolation loop of ToTexture (lines 25-51, repeated verbatim in
      ToPreIntgratedTexture at lines 71-97): a walk over the 256 scalars with
      an iterator at the next key and one at the key before it.  Once the
      iterator has passed the last key, the next entry reads through the end
      iterator; the model returns None there.  The image written through the
      pixel cursor is the sequence the entries are appended to. */
  method ToTexture(pnts: seq<KeyPoint>) returns (tf: Option<seq<Rgba>>)
    requires Increasing(pnts)
    ensures Complete(pnts) ==> tf == Some(Table(pnts))
    ensures !Complete(pnts) ==> tf == None
  {
    var px: seq<Rgba> := [];
    var pnt, lftPnt := 0, 0;
    var lft2Rht := 1.0;
    for i := 0 to 256
      invariant Walking(pnts, i, pnt, lftPnt, lft2Rht)
      invariant i == 0 || Covers(pnts, i - 1)
      invariant px == TableUpTo(pnts, i)
    {
      if pnt == |pnts| {
        return None;
      }
      var c;
      c, pnt, lftPnt, lft2Rht := Advance(pnts, i, pnt, lftPnt, lft2Rht);
      px := px + [c];
    }
    tf := Some(px);
  }

  /** The iterators of the walk when it is at scalar i: pnt at the first key
      at or after i (or at the end), lftPnt at the key before it (or at the
      first key), and lft2Rht the distance between their scalars (or 1). */
  predicate Walking(pnts: seq<KeyPoint>, i: nat, pnt: nat, lftPnt: nat, lft2Rht: real)
  {
    && pnt <= |pnts| && lftPnt <= pnt && (pnt > 0 ==> lftPnt == pnt - 1)
    && (pnt < |pnts| ==> i <= pnts[pnt].0)
    && (pnt > 0 ==> pnts[pnt - 1].0 as int + 1 <= i)
    && (pnt == |pnts| ==> i == 0 || (pnt > 0 && i == pnts[pnt - 1].0 as int + 1))
    && lft2Rht == if 0 < pnt < |pnts| then (pnts[pnt].0 - pnts[pnt - 1].0) as real else 1.0
  }

  /** One iteration of the walk before the end: the entry at scalar i, and
      the iterators moved on when i is the scalar of the next key. */
  method Advance(pnts: seq<KeyPoint>, i: Scalar, pnt: nat, lftPnt: nat, lft2Rht: real)
    returns (c: Rgba, pnt': nat, lftPnt': nat, lft2Rht': real)
    requires Increasing(pnts) && Walking(pnts, i, pnt, lftPnt, lft2Rht) && pnt < |pnts|
    ensures Covers(pnts, i) && c == TableEntry(pnts, i)
    ensures Walking(pnts, i + 1, pnt', lftPnt', lft2Rht')
  {
    TableEntryAt(pnts, i, pnt, lftPnt);
    pnt', lftPnt', lft2Rht' := pnt, lftPnt, lft2Rht;
    if i == pnts[pnt].0 {
      c := Mix(pnts[lftPnt].1, pnts[pnt].1, 1.0);
      lftPnt' := pnt;
      pnt' := pnt + 1;
      lft2Rht' := if pnt' < |pnts| then (pnts[pnt'].0 - pnts[lftPnt'].0) as real else 1.0;
    } else {
      c := Mix(pnts[lftPnt].1, pnts[pnt].1, (i - pnts[lftPnt].0) as real / lft2Rht);
    }
  }

  /** The increment of the prefix array between scalars s - 1 and s: the
      mean of the two colours weighted by the mean of the two opacities, and
      that mean opacity itself. */
  function Step(prev: Rgba, cur: Rgba): Rgba
  {
    var a := 0.5 * (prev.a + cur.a);
    Rgba(Mul(0.5 * (prev.r + cur.r), a), Mul(0.5 * (prev.g + cur.g), a), Mul(0.5 * (prev.b + cur.b), a), a)
  }

  /** tfIntDat[s]: the first colour unweighted, then the running sum of the steps. */
  function Prefix(tf: seq<Rgba>, s: nat): Rgba
    requires s < |tf|
  {
    if s == 0 then tf[0] else Prefix(tf, s - 1).Plus(Step(tf[s - 1], tf[s]))
  }

  /** The steps from scalar lo to scalar hi, added up. */
  function StepSum(tf: seq<Rgba>, lo: nat, hi: nat): Rgba
    requires lo <= hi < |tf|
    decreases hi - lo
  {
    if lo == hi then Rgba(0.0, 0.0, 0.0, 0.0) else StepSum(tf, lo, hi - 1).Plus(Step(tf[hi - 1], tf[hi]))
  }

  /** The difference of two prefix entries is the sum of the steps between
      them: the unweighted first entry cancels. */
  lemma {:induction false} PrefixDifference(tf: seq<Rgba>, lo: nat, hi: nat)
    requires lo <= hi < |tf|
    ensures Prefix(tf, hi).Minus(Prefix(tf, lo)) == StepSum(tf, lo, hi)
    decreases hi - lo
  {
    if lo < hi {
      PrefixDifference(tf, lo, hi - 1);
    }
  }

  /** With non-negative opacities the accumulated opacity never decreases. */
  lemma {:induction false} PrefixOpacityMonotone(tf: seq<Rgba>, lo: nat, hi: nat)
    requires lo <= hi < |tf|
    requires forall s :: 0 <= s < |tf| ==> 0.0 <= tf[s].a
    ensures Prefix(tf, lo).a <= Prefix(tf, hi).a
    decreases hi - lo
  {
    if lo < hi {
      PrefixOpacityMonotone(tf, lo, hi - 1);
    }
  }

  /** The body of the prefix loop: the mean opacity of two neighbouring
      colours and their mean colour weighted by it, added to the previous
      entry, give the next. */
  method Accumulate(tf: seq<Rgba>, i: nat, prev: Rgba) returns (next: Rgba)
    requires 0 < i < |tf| && prev == Prefix(tf, i - 1)
    ensures next == Prefix(tf, i)
  {
    var a := 0.5 * (tf[i - 1].a + tf[i].a);
    var r := Mul(0.5 * (tf[i - 1].r + tf[i].r), a);
    var g := Mul(0.5 * (tf[i - 1].g + tf[i].g), a);
    var b := Mul(0.5 * (tf[i - 1].b + tf[i].b), a);
    next := Rgba(prev.r + r, prev.g + g, prev.b + b, prev.a + a);
  }

  /** The prefix loop of ToPreIntgratedTexture, filling tfIntDat in order. */
  method Integrate(tf: seq<Rgba>) returns (tfInt: seq<Rgba>)
    requires 0 < |tf|
    ensures |tfInt| == |tf|
    ensures forall s :: 0 <= s < |tf| ==> tfInt[s] == Prefix(tf, s)
  {
    tfInt := [tf[0]];
    for i := 1 to |tf|
      invariant |tfInt| == i
      invariant forall s :: 0 <= s < i ==> tfInt[s] == Prefix(tf, s)
    {
      var next := Accumulate(tf, i, tfInt[i - 1]);
      tfInt := tfInt + [next];
    }
  }

  /** The pre-integrated colour of the scalar segment from sMin to sMax: on
      a single scalar the colour weighted by its opacity; over a longer
      segment the difference of the prefix entries at its ends divided by its
      length, with the opacity 1 - exp(-(accumulated opacity) / length). */
  function Segment(tf: seq<Rgba>, m: Libm, sMin: Scalar, sMax: Scalar): Rgba
    requires |tf| == 256 && sMin <= sMax
  {
    if sMin == sMax then
      var a := tf[sMin].a;
      Rgba(Mul(tf[sMin].r, a), Mul(tf[sMin].g, a), Mul(tf[sMin].b, a), 1.0 - m.exp(-a))
    else
      var factor := 1.0 / (sMax - sMin) as real;
      var hi, lo := Prefix(tf, sMax), Prefix(tf, sMin);
      Rgba(Mul(hi.r - lo.r, factor), Mul(hi.g - lo.g, factor), Mul(hi.b - lo.b, factor),
           1.0 - m.exp(Mul(lo.a - hi.a, factor)))
  }

  /** Entry (sf, sb) of the pre-integrated table: the segment between the
      smaller and the larger of the two scalars. */
  function PreIntegratedEntry(tf: seq<Rgba>, m: Libm, sf: Scalar, sb: Scalar): Rgba
    requires |tf| == 256
  {
    if sf > sb then Segment(tf, m, sb, sf) else Segment(tf, m, sf, sb)
  }

  /** The first n entries of row sf of the image: back scalars 0 to n - 1. */
  function Row(tf: seq<Rgba>, m: Libm, sf: Scalar, n: nat): (row: seq<Rgba>)
    requires |tf| == 256 && n <= 256
    ensures |row| == n
  {
    if n == 0 then [] else Row(tf, m, sf, n - 1) + [PreIntegratedEntry(tf, m, sf, n - 1)]
  }

  /** The first n rows of the image: front scalars 0 to n - 1. */
  function Rows(tf: seq<Rgba>, m: Libm, n: nat): (rows: seq<Rgba>)
    requires |tf| == 256 && n <= 256
    ensures |rows| == n * 256
  {
    if n == 0 then [] else Rows(tf, m, n - 1) + Row(tf, m, n - 1, 256)
  }

  /** The pre-integrated image: 256 rows of front scalars, each of 256 back scalars. */
  function PreIntegrated(tf: seq<Rgba>, m: Libm): (img: seq<Rgba>)
    requires |tf| == 256
    ensures |img| == 256 * 256
  {
    Rows(tf, m, 256)
  }

  lemma {:induction false} RowAt(tf: seq<Rgba>, m: Libm, sf: Scalar, n: nat, sb: nat)
    requires |tf| == 256 && sb < n <= 256
    ensures Row(tf, m, sf, n)[sb] == PreIntegratedEntry(tf, m, sf, sb)
  {
    if sb < n - 1 {
      RowAt(tf, m, sf, n - 1, sb);
    }
  }

  lemma {:induction false} RowsAt(tf: seq<Rgba>, m: Libm, n: nat, sf: Scalar, sb: Scalar)
    requires |tf| == 256 && sf < n <= 256
    ensures sf * 256 + sb < n * 256
    ensures Rows(tf, m, n)[sf * 256 + sb] == PreIntegratedEntry(tf, m, sf, sb)
  {
    if sf < n - 1 {
      RowsAt(tf, m, n - 1, sf, sb);
    } else {
      RowAt(tf, m, sf, 256, sb);
    }
  }

  /** Entry (sf, sb) sits at position sf * 256 + sb of the image. */
  lemma PreIntegratedAt(tf: seq<Rgba>, m: Libm, sf: Scalar, sb: Scalar)
    requires |tf| == 256
    ensures sf * 256 + sb < 256 * 256
    ensures PreIntegrated(tf, m)[sf * 256 + sb] == PreIntegratedEntry(tf, m, sf, sb)
  {
    RowsAt(tf, m, 256, sf, sb);
  }

  /** The table does not depend on the order of the front and back scalars. */
  lemma PreIntegratedSymmetric(tf: seq<Rgba>, m: Libm, sf: Scalar, sb: Scalar)
    requires |tf| == 256
    ensures sf * 256 + sb < 256 * 256 && sb * 256 + sf < 256 * 256
    ensures PreIntegrated(tf, m)[sf * 256 + sb] == PreIntegrated(tf, m)[sb * 256 + sf]
  {
    PreIntegratedAt(tf, m, sf, sb);
    PreIntegratedAt(tf, m, sb, sf);
  }

  /** A step between two equal colours is the colour weighted by its opacity. */
  lemma StepOfEqual(c: Rgba)
    ensures Step(c, c) == Rgba(Mul(c.r, c.a), Mul(c.g, c.a), Mul(c.b, c.a), c.a)
  {
  }

  /** Over a constant colour the n steps add up to n times the colour
      weighted by its opacity. */
  lemma {:induction false} StepSumConstant(tf: seq<Rgba>, c: Rgba, lo: nat, hi: nat)
    requires lo <= hi < |tf|
    requires forall s :: 0 <= s < |tf| ==> tf[s] == c
    ensures StepSum(tf, lo, hi)
         == Rgba(Mul((hi - lo) as real, Mul(c.r, c.a)), Mul((hi - lo) as real, Mul(c.g, c.a)),
                 Mul((hi - lo) as real, Mul(c.b, c.a)), Mul((hi - lo) as real, c.a))
    decreases hi - lo
  {
    if lo < hi {
      StepSumConstant(tf, c, lo, hi - 1);
      var n := (hi - 1 - lo) as real;
      StepOfEqual(c);
      MulDistributes(n, 1.0, Mul(c.r, c.a));
      MulDistributes(n, 1.0, Mul(c.g, c.a));
      MulDistributes(n, 1.0, Mul(c.b, c.a));
      MulDistributes(n, 1.0, c.a);
    }
  }

  /** Two prefix entries n scalars apart over a constant colour give, scaled
      by 1 / n, the colour weighted by its opacity and the negated opacity. */
  lemma ScaledDifference(lo: Rgba, hi: Rgba, n: real, c: Rgba)
    requires 0.0 < n
    requires hi.Minus(lo) == Rgba(Mul(n, Mul(c.r, c.a)), Mul(n, Mul(c.g, c.a)), Mul(n, Mul(c.b, c.a)), Mul(n, c.a))
    ensures Mul(hi.r - lo.r, 1.0 / n) == Mul(c.r, c.a)
    ensures Mul(hi.g - lo.g, 1.0 / n) == Mul(c.g, c.a)
    ensures Mul(hi.b - lo.b, 1.0 / n) == Mul(c.b, c.a)
    ensures Mul(lo.a - hi.a, 1.0 / n) == -c.a
  {
    assert Mul(Mul(n, c.a), 1.0 / n) == c.a;
    assert Mul(Mul(n, Mul(c.r, c.a)), 1.0 / n) == Mul(c.r, c.a);
    assert Mul(Mul(n, Mul(c.g, c.a)), 1.0 / n) == Mul(c.g, c.a);
    assert Mul(Mul(n, Mul(c.b, c.a)), 1.0 / n) == Mul(c.b, c.a);
    MulDistributes(0.0, Mul(n, c.a), 1.0 / n);
  }

  /** A transfer function of one colour pre-integrates to that colour
      weighted by its opacity over every scalar pair: the off-diagonal entries
      agree with the diagonal ones. */
  lemma PreIntegratedOfConstant(tf: seq<Rgba>, m: Libm, c: Rgba, sf: Scalar, sb: Scalar)
    requires |tf| == 256
    requires forall s :: 0 <= s < |tf| ==> tf[s] == c
    ensures PreIntegratedEntry(tf, m, sf, sb) == Rgba(Mul(c.r, c.a), Mul(c.g, c.a), Mul(c.b, c.a), 1.0 - m.exp(-c.a))
  {
    var sMin, sMax := if sf > sb then sb else sf, if sf > sb then sf else sb;
    SegmentOfConstant(tf, m, c, sMin, sMax);
  }

  lemma SegmentOfConstant(tf: seq<Rgba>, m: Libm, c: Rgba, sMin: Scalar, sMax: Scalar)
    requires |tf| == 256 && sMin <= sMax
    requires forall s :: 0 <= s < |tf| ==> tf[s] == c
    ensures Segment(tf, m, sMin, sMax) == Rgba(Mul(c.r, c.a), Mul(c.g, c.a), Mul(c.b, c.a), 1.0 - m.exp(-c.a))
  {
    if sMin != sMax {
      PrefixDifference(tf, sMin, sMax);
      StepSumConstant(tf, c, sMin, sMax);
      ScaledDifference(Prefix(tf, sMin), Prefix(tf, sMax), (sMax - sMin) as real, c);
    }
  }

  /** ToPreIntgratedTexture: the dense table, its prefix array, and the
      256 by 256 image built from them. */
  method ToPreIntegratedTexture(pnts: seq<KeyPoint>, m: Libm) returns (img: Option<seq<Rgba>>)
    requires Increasing(pnts)
    ensures Complete(pnts) ==> img == Some(PreIntegrated(Table(pnts), m))
    ensures !Complete(pnts) ==> img == None
  {
    var sampled := ToTexture(pnts);
    if sampled == None {
      return None;
    }
    var tfDat := sampled.value;
    var tfIntDat := Integrate(tfDat);
    var px := FillPreIntegrated(tfDat, tfIntDat, m);
    img := Some(px);
  }

  /** The row loops of ToPreIntgratedTexture: the image written front scalar
      by front scalar through an advancing cursor, which appends to it. */
  method FillPreIntegrated(tfDat: seq<Rgba>, tfIntDat: seq<Rgba>, m: Libm) returns (img: seq<Rgba>)
    requires |tfDat| == 256 && |tfIntDat| == 256
    requires forall s :: 0 <= s < 256 ==> tfIntDat[s] == Prefix(tfDat, s)
    ensures img == PreIntegrated(tfDat, m)
  {
    img := [];
    for sf := 0 to 256
      invariant img == Rows(tfDat, m, sf)
    {
      for sb := 0 to 256
        invariant img == Rows(tfDat, m, sf) + Row(tfDat, m, sf, sb)
      {
        var texel := PreIntegratedTexel(tfDat, tfIntDat, m, sf, sb);
        img := img + [texel];
      }
    }
  }

  /** The body of the row loops: one entry of the table from the dense
      table and its prefix array. */
  method PreIntegratedTexel(tfDat: seq<Rgba>, tfIntDat: seq<Rgba>, m: Libm, sf: Scalar, sb: Scalar)
    returns (texel: Rgba)
    requires |tfDat| == 256 && |tfIntDat| == 256
    requires forall s :: 0 <= s < 256 ==> tfIntDat[s] == Prefix(tfDat, s)
    ensures texel == PreIntegratedEntry(tfDat, m, sf, sb)
  {
    var sMin, sMax := sf, sb;
    if sf > sb {
      sMin, sMax := sMax, sMin;
    }
    if sMin == sMax {
      var a := tfDat[sMin].a;
      texel := Rgba(Mul(tfDat[sMin].r, a), Mul(tfDat[sMin].g, a), Mul(tfDat[sMin].b, a), 1.0 - m.exp(-a));
    } else {
      var factor := 1.0 / (sMax - sMin) as real;
      texel := Rgba(Mul(tfIntDat[sMax].r - tfIntDat[sMin].r, factor),
                    Mul(tfIntDat[sMax].g - tfIntDat[sMin].g, factor),
                    Mul(tfIntDat[sMax].b - tfIntDat[sMin].b, factor),
                    1.0 - m.exp(Mul(tfIntDat[sMin].a - tfIntDat[sMax].a, factor)));
    }
  }
}
