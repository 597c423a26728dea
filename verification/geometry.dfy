/** Points, bounding boxes and the normalisation that fits the raw tunnel outline onto the canvas.

    Products of two unknowns are kept inside small lemmas (`MulMonotone`, `MulCongruence`,
    `Fits`) so that the larger proofs only ever combine them linearly. */
module Geometry {

  datatype Point = Point(x: real, y: real)

  function Min(a: real, b: real): real {
    if a <= b then a else b
  }

  function Max(a: real, b: real): real {
    if a <= b then b else a
  }

  function Abs(a: real): real {
    if a < 0.0 then -a else a
  }

  /** Clamps `v` into `[lo, hi]`, as `np.clip` does. */
  function Clip(v: real, lo: real, hi: real): (r: real)
    requires lo <= hi
    ensures lo <= r <= hi
    ensures lo <= v <= hi ==> r == v
    ensures v < lo ==> r == lo
    ensures hi < v ==> r == hi
  {
    Min(Max(v, lo), hi)
  }

  /** Clamping keeps the order of its inputs. */
  lemma ClipMonotone(v: real, w: real, lo: real, hi: real)
    requires lo <= hi && v <= w
    ensures Clip(v, lo, hi) <= Clip(w, lo, hi)
  {
  }

  lemma MulMonotone(k: real, a: real, b: real)
    requires k > 0.0 && a <= b
    ensures a * k <= b * k
  {
    assert b * k - a * k == (b - a) * k;
  }

  /** Equal factors give equal products. */
  lemma MulCongruence(a: real, b: real, k: real)
    requires a == b
    ensures a * k == b * k
  {
  }

  // ---------------------------------------------------------------------------
  // Least and greatest coordinate (`min(axis=0)`, `max(axis=0)`)
  // ---------------------------------------------------------------------------

  /** The position of a least element among the first `n` of `s`. */
  function ArgMinUpTo(s: seq<real>, n: nat): (j: nat)
    requires 0 < n <= |s|
    ensures j < n
  {
    if n == 1 then 0
    else
      var j := ArgMinUpTo(s, n - 1);
      if s[j] <= s[n - 1] then j else n - 1
  }

  /** The position of a greatest element among the first `n` of `s`. */
  function ArgMaxUpTo(s: seq<real>, n: nat): (j: nat)
    requires 0 < n <= |s|
    ensures j < n
  {
    if n == 1 then 0
    else
      var j := ArgMaxUpTo(s, n - 1);
      if s[n - 1] <= s[j] then j else n - 1
  }

  lemma {:induction false} ArgMinUpToIsLeast(s: seq<real>, n: nat)
    requires 0 < n <= |s|
    ensures forall i :: 0 <= i < n ==> s[ArgMinUpTo(s, n)] <= s[i]
  {
    if n > 1 {
      ArgMinUpToIsLeast(s, n - 1);
    }
  }

  lemma {:induction false} ArgMaxUpToIsGreatest(s: seq<real>, n: nat)
    requires 0 < n <= |s|
    ensures forall i :: 0 <= i < n ==> s[i] <= s[ArgMaxUpTo(s, n)]
  {
    if n > 1 {
      ArgMaxUpToIsGreatest(s, n - 1);
    }
  }

  function ArgMin(s: seq<real>): (j: nat)
    requires |s| > 0
    ensures j < |s|
  {
    ArgMinUpTo(s, |s|)
  }

  function ArgMax(s: seq<real>): (j: nat)
    requires |s| > 0
    ensures j < |s|
  {
    ArgMaxUpTo(s, |s|)
  }

  /** The least element of a non-empty sequence. */
  function SeqMin(s: seq<real>): real
    requires |s| > 0
  {
    s[ArgMin(s)]
  }

  /** The greatest element of a non-empty sequence. */
  function SeqMax(s: seq<real>): real
    requires |s| > 0
  {
    s[ArgMax(s)]
  }

  /** How far the greatest element lies above the least one. */
  function Extent(s: seq<real>): real
    requires |s| > 0
  {
    SeqMax(s) - SeqMin(s)
  }

  /** `SeqMin` and `SeqMax` bound every element. */
  lemma SeqBounds(s: seq<real>)
    requires |s| > 0
    ensures forall i :: 0 <= i < |s| ==> SeqMin(s) <= s[i] <= SeqMax(s)
  {
    ArgMinUpToIsLeast(s, |s|);
    ArgMaxUpToIsGreatest(s, |s|);
  }

  /** A lower bound attained at position `a` is the minimum. */
  lemma MinIsAttainedBound(s: seq<real>, m: real, a: nat)
    requires a < |s| && s[a] == m
    requires forall i :: 0 <= i < |s| ==> m <= s[i]
    ensures SeqMin(s) == m
  {
    SeqBounds(s);
  }

  /** An upper bound attained at position `a` is the maximum. */
  lemma MaxIsAttainedBound(s: seq<real>, m: real, a: nat)
    requires a < |s| && s[a] == m
    requires forall i :: 0 <= i < |s| ==> s[i] <= m
    ensures SeqMax(s) == m
  {
    SeqBounds(s);
  }

  // ---------------------------------------------------------------------------
  // Translation and scaling of one coordinate axis
  // ---------------------------------------------------------------------------

  /** Translates every coordinate by `d`. */
  function Shift(s: seq<real>, d: real): (t: seq<real>)
    ensures |t| == |s|
  {
    seq(|s|, i requires 0 <= i < |s| => s[i] + d)
  }

  /** Scales every coordinate by `k` about the origin. */
  function Scale(s: seq<real>, k: real): (t: seq<real>)
    ensures |t| == |s|
  {
    seq(|s|, i requires 0 <= i < |s| => s[i] * k)
  }

  /** A translation carries the extremes along with the other coordinates. */
  lemma ShiftExtremes(s: seq<real>, d: real)
    requires |s| > 0
    ensures SeqMin(Shift(s, d)) == SeqMin(s) + d
    ensures SeqMax(Shift(s, d)) == SeqMax(s) + d
  {
    SeqBounds(s);
    MinIsAttainedBound(Shift(s, d), SeqMin(s) + d, ArgMin(s));
    MaxIsAttainedBound(Shift(s, d), SeqMax(s) + d, ArgMax(s));
  }

  /** A positive scaling carries the least coordinate along with the others. */
  lemma ScaleMin(s: seq<real>, k: real)
    requires |s| > 0 && k > 0.0
    ensures SeqMin(Scale(s, k)) == SeqMin(s) * k
  {
    var t := Scale(s, k);
    var a := ArgMin(s);
    SeqBounds(s);
    forall i | 0 <= i < |s|
      ensures s[a] * k <= t[i]
    {
      MulMonotone(k, s[a], s[i]);
    }
    MinIsAttainedBound(t, s[a] * k, a);
  }

  /** A positive scaling carries the greatest coordinate along with the others. */
  lemma ScaleMax(s: seq<real>, k: real)
    requires |s| > 0 && k > 0.0
    ensures SeqMax(Scale(s, k)) == SeqMax(s) * k
  {
    var t := Scale(s, k);
    var b := ArgMax(s);
    SeqBounds(s);
    forall i | 0 <= i < |s|
      ensures t[i] <= s[b] * k
    {
      MulMonotone(k, s[i], s[b]);
    }
    MaxIsAttainedBound(t, s[b] * k, b);
  }

  /** Shifting by `-lo` and then scaling maps each coordinate `v` to `(v - lo) * k`. */
  lemma ShiftScalePointwise(s: seq<real>, lo: real, k: real)
    ensures forall i :: 0 <= i < |s| ==> Scale(Shift(s, -lo), k)[i] == (s[i] - lo) * k
  {
    var moved := Shift(s, -lo);
    forall i | 0 <= i < |s|
      ensures Scale(moved, k)[i] == (s[i] - lo) * k
    {
      MulCongruence(moved[i], s[i] - lo, k);
    }
  }

  /** Shifting the least coordinate to 0 and scaling leaves the least coordinate at 0. */
  lemma ScaledMinAtOrigin(s: seq<real>, k: real)
    requires |s| > 0 && k > 0.0
    ensures SeqMin(Scale(Shift(s, -SeqMin(s)), k)) == 0.0
  {
    var moved := Shift(s, -SeqMin(s));
    ShiftExtremes(s, -SeqMin(s));
    ScaleMin(moved, k);
    MulCongruence(SeqMin(moved), 0.0, k);
  }

  /** Shifting the least coordinate to 0 and scaling makes the greatest coordinate the scaled extent. */
  lemma ScaledMaxIsExtent(s: seq<real>, k: real)
    requires |s| > 0 && k > 0.0
    ensures SeqMax(Scale(Shift(s, -SeqMin(s)), k)) == Extent(s) * k
  {
    var moved := Shift(s, -SeqMin(s));
    ShiftExtremes(s, -SeqMin(s));
    ScaleMax(moved, k);
    MulCongruence(SeqMax(moved), Extent(s), k);
  }

  /** `t` is `s` scaled by `k`: the offset of every coordinate from the first one is
      multiplied by `k`. */
  predicate AxisImage(t: seq<real>, s: seq<real>, k: real) {
    |t| == |s| > 0 && forall i :: 0 <= i < |s| ==> t[i] - t[0] == (s[i] - s[0]) * k
  }

  /** Products distribute over a difference of offsets from a common `c`. */
  lemma MulOffsets(a: real, b: real, c: real, k: real)
    ensures (a - c) * k - (b - c) * k == (a - b) * k
  {
  }

  /** One axis of `procesar_geometria`: shift the least coordinate to 0, scale by `k`,
      then shift by half of what the scaled extent leaves free on a canvas of size `size`. */
  function FitAxis(s: seq<real>, k: real, size: real): seq<real>
    requires |s| > 0
  {
    var scaled := Scale(Shift(s, -SeqMin(s)), k);
    Shift(scaled, (size - SeqMax(scaled)) / 2.0)
  }

  /** The extent of `t` is that of `s` multiplied by `k`. */
  predicate ExtentScaled(t: seq<real>, s: seq<real>, k: real)
    requires |t| > 0 && |s| > 0
  {
    Extent(t) == Extent(s) * k
  }

  /** The fitted axis has the scaled extent. */
  lemma FitAxisExtent(s: seq<real>, k: real, size: real)
    requires |s| > 0 && k > 0.0
    ensures |FitAxis(s, k, size)| == |s|
    ensures ExtentScaled(FitAxis(s, k, size), s, k)
  {
    var scaled := Scale(Shift(s, -SeqMin(s)), k);
    ScaledMinAtOrigin(s, k);
    ScaledMaxIsExtent(s, k);
    ShiftExtremes(scaled, (size - SeqMax(scaled)) / 2.0);
  }

  /** The fitted axis is centred on the canvas: its extremes lie equally far from either edge. */
  lemma FitAxisCentred(s: seq<real>, k: real, size: real)
    requires |s| > 0 && k > 0.0
    ensures |FitAxis(s, k, size)| == |s|
    ensures SeqMin(FitAxis(s, k, size)) + SeqMax(FitAxis(s, k, size)) == size
  {
    var scaled := Scale(Shift(s, -SeqMin(s)), k);
    ScaledMinAtOrigin(s, k);
    ShiftExtremes(scaled, (size - SeqMax(scaled)) / 2.0);
  }

  /** Moving the origin to `lo` and scaling by `k` gives a scaled copy. */
  lemma ShiftScaleImage(s: seq<real>, lo: real, k: real)
    requires |s| > 0
    ensures AxisImage(Scale(Shift(s, -lo), k), s, k)
  {
    var t := Scale(Shift(s, -lo), k);
    ShiftScalePointwise(s, lo, k);
    forall i | 0 <= i < |s|
      ensures t[i] - t[0] == (s[i] - s[0]) * k
    {
      MulOffsets(s[i], s[0], lo, k);
    }
  }

  /** A translation keeps offsets between coordinates, so a scaled copy stays one. */
  lemma ShiftImage(t: seq<real>, s: seq<real>, k: real, d: real)
    requires AxisImage(t, s, k)
    ensures AxisImage(Shift(t, d), s, k)
  {
  }

  /** Every fitted coordinate is the input coordinate under one scaling. */
  lemma FitAxisPointwise(s: seq<real>, k: real, size: real)
    requires |s| > 0
    ensures AxisImage(FitAxis(s, k, size), s, k)
  {
    var scaled := Scale(Shift(s, -SeqMin(s)), k);
    ShiftScaleImage(s, SeqMin(s), k);
    ShiftImage(scaled, s, k, (size - SeqMax(scaled)) / 2.0);
  }

  // ---------------------------------------------------------------------------
  // Polygons
  // ---------------------------------------------------------------------------

  function Xs(ps: seq<Point>): (xs: seq<real>)
    ensures |xs| == |ps|
  {
    seq(|ps|, i requires 0 <= i < |ps| => ps[i].x)
  }

  function Ys(ps: seq<Point>): (ys: seq<real>)
    ensures |ys| == |ps|
  {
    seq(|ps|, i requires 0 <= i < |ps| => ps[i].y)
  }

  /** Pairs two coordinate sequences of one length into points. */
  function Zip(xs: seq<real>, ys: seq<real>): (ps: seq<Point>)
    requires |xs| == |ys|
    ensures |ps| == |xs| && Xs(ps) == xs && Ys(ps) == ys
  {
    seq(|xs|, i requires 0 <= i < |xs| => Point(xs[i], ys[i]))
  }

  /** Lower-left corner of the axis-aligned bounding box. */
  function BoxMin(ps: seq<Point>): Point
    requires |ps| > 0
  {
    Point(SeqMin(Xs(ps)), SeqMin(Ys(ps)))
  }

  /** Upper-right corner of the axis-aligned bounding box. */
  function BoxMax(ps: seq<Point>): Point
    requires |ps| > 0
  {
    Point(SeqMax(Xs(ps)), SeqMax(Ys(ps)))
  }

  function Width(ps: seq<Point>): real
    requires |ps| > 0
  {
    Extent(Xs(ps))
  }

  function Height(ps: seq<Point>): real
    requires |ps| > 0
  {
    Extent(Ys(ps))
  }

  /** Every point lies in its bounding box. */
  lemma InBox(ps: seq<Point>, i: nat)
    requires i < |ps|
    ensures BoxMin(ps).x <= ps[i].x <= BoxMax(ps).x
    ensures BoxMin(ps).y <= ps[i].y <= BoxMax(ps).y
  {
    SeqBounds(Xs(ps));
    SeqBounds(Ys(ps));
    assert Xs(ps)[i] == ps[i].x && Ys(ps)[i] == ps[i].y;
  }

  /** A polygon whose bounding box has a positive extent on both axes. */
  predicate NonDegenerate(ps: seq<Point>) {
    |ps| > 0 && Width(ps) > 0.0 && Height(ps) > 0.0
  }

  /** A factor no larger than `avail / ext` scales `ext` into `avail`, exactly when equal. */
  lemma Fits(avail: real, ext: real, k: real)
    requires ext > 0.0
    ensures k <= avail / ext ==> ext * k <= avail
    ensures k == avail / ext ==> ext * k == avail
  {
    if k <= avail / ext {
      MulMonotone(ext, k, avail / ext);
    }
  }

  /** Scaling by `k` makes the bounding box fit the canvas less a margin of `padding` on every side. */
  predicate FitsPadded(ps: seq<Point>, k: real, width: real, height: real, padding: real)
    requires |ps| > 0
  {
    Width(ps) * k <= width - 2.0 * padding && Height(ps) * k <= height - 2.0 * padding
  }

  /** The uniform factor of `procesar_geometria`: the smaller of the two per-axis factors, so the
      largest one under which the bounding box fits inside the padding on both axes at once. */
  function ScaleFactor(ps: seq<Point>, width: real, height: real, padding: real): (k: real)
    requires NonDegenerate(ps)
    requires width - 2.0 * padding > 0.0 && height - 2.0 * padding > 0.0
    ensures k > 0.0
    ensures FitsPadded(ps, k, width, height, padding)
    // one side fills its room exactly
    ensures Width(ps) * k == width - 2.0 * padding || Height(ps) * k == height - 2.0 * padding
  {
    var kx := (width - 2.0 * padding) / Width(ps);
    var ky := (height - 2.0 * padding) / Height(ps);
    var k := Min(kx, ky);
    Fits(width - 2.0 * padding, Width(ps), k);
    Fits(height - 2.0 * padding, Height(ps), k);
    k
  }

  /** Multiplying by a positive number keeps a strict order. */
  lemma MulStrict(k: real, a: real, b: real)
    requires k > 0.0 && a < b
    ensures a * k < b * k
  {
    assert b * k - a * k == (b - a) * k;
  }

  /** The reciprocal of a positive number is positive. */
  lemma RecipPositive(k: real)
    requires k > 0.0
    ensures 1.0 / k > 0.0
  {
    assert (1.0 / k) * k == 1.0;
  }

  /** A positive number divided by itself is one. */
  lemma SelfDivide(m: real)
    requires m > 0.0
    ensures m / m == 1.0
  {
    var q := m / m;
    assert q * m == m;
    assert (q - 1.0) * m == 0.0;
  }

  /** Division by a positive number keeps order. */
  lemma DivMonotone(a: real, b: real, k: real)
    requires k > 0.0 && a <= b
    ensures a / k <= b / k
  {
    RecipPositive(k);
    assert a / k == a * (1.0 / k) && b / k == b * (1.0 / k);
    MulMonotone(1.0 / k, a, b);
  }

  /** Offsets scaled by a positive factor keep their strict order. */
  lemma ScaledOffsetOrder(a: real, b: real, c: real, d: real, k: real)
    requires k > 0.0 && c < d && b - a == (d - c) * k
    ensures a < b
  {
    MulStrict(k, 0.0, d - c);
  }

  /** No factor larger than `ScaleFactor` fits: it is the largest one that does. */
  lemma ScaleFactorIsLargest(ps: seq<Point>, width: real, height: real, padding: real, k': real)
    requires NonDegenerate(ps)
    requires width - 2.0 * padding > 0.0 && height - 2.0 * padding > 0.0
    requires k' > ScaleFactor(ps, width, height, padding)
    ensures !FitsPadded(ps, k', width, height, padding)
  {
    var k := ScaleFactor(ps, width, height, padding);
    MulStrict(Width(ps), k, k');
    MulStrict(Height(ps), k, k');
    assert Width(ps) * k == k * Width(ps) && Height(ps) * k == k * Height(ps);
    assert Width(ps) * k' == k' * Width(ps) && Height(ps) * k' == k' * Height(ps);
  }

  /** The box of a zipped pair of axes is made of the axes' extremes. */
  lemma ZipBox(xs: seq<real>, ys: seq<real>)
    requires |xs| > 0 && |ys| == |xs|
    ensures BoxMin(Zip(xs, ys)) == Point(SeqMin(xs), SeqMin(ys))
    ensures BoxMax(Zip(xs, ys)) == Point(SeqMax(xs), SeqMax(ys))
    ensures Width(Zip(xs, ys)) == Extent(xs) && Height(Zip(xs, ys)) == Extent(ys)
  {
    var r := Zip(xs, ys);
    assert Xs(r) == xs && Ys(r) == ys;
  }

  /** `r` is a copy of `ps` scaled by the same `k` on both axes, so a similar figure: the
      offset of every vertex from the first one is multiplied by `k`. */
  predicate Similar(r: seq<Point>, ps: seq<Point>, k: real) {
    && |r| == |ps| > 0
    && forall i :: 0 <= i < |ps| ==>
         r[i].x - r[0].x == (ps[i].x - ps[0].x) * k
         && r[i].y - r[0].y == (ps[i].y - ps[0].y) * k
  }

  /** Two axes, each a scaled copy of the polygon's coordinates, pair into a similar copy of it. */
  lemma ZipSimilar(ps: seq<Point>, xs: seq<real>, ys: seq<real>, k: real)
    requires AxisImage(xs, Xs(ps), k) && AxisImage(ys, Ys(ps), k)
    ensures Similar(Zip(xs, ys), ps, k)
  {
    var r := Zip(xs, ys);
    assert r[0] == Point(xs[0], ys[0]) && Xs(ps)[0] == ps[0].x && Ys(ps)[0] == ps[0].y;
    forall i | 0 <= i < |ps|
      ensures r[i].x - r[0].x == (ps[i].x - ps[0].x) * k
      ensures r[i].y - r[0].y == (ps[i].y - ps[0].y) * k
    {
      assert r[i] == Point(xs[i], ys[i]) && Xs(ps)[i] == ps[i].x && Ys(ps)[i] == ps[i].y;
    }
  }

  /** The bounding box of `r` is that of `ps` scaled by `k` on both sides, so its aspect ratio is kept. */
  predicate BoxScaled(r: seq<Point>, ps: seq<Point>, k: real)
    requires |r| > 0 && |ps| > 0
  {
    ExtentScaled(Xs(r), Xs(ps), k) && ExtentScaled(Ys(r), Ys(ps), k)
  }

  /** A scaled box has its width scaled ... */
  lemma BoxScaledWidth(r: seq<Point>, ps: seq<Point>, k: real)
    requires |r| > 0 && |ps| > 0 && BoxScaled(r, ps, k)
    ensures Width(r) == Width(ps) * k
  {
    assert ExtentScaled(Xs(r), Xs(ps), k);
  }

  /** ... and its height scaled. */
  lemma BoxScaledHeight(r: seq<Point>, ps: seq<Point>, k: real)
    requires |r| > 0 && |ps| > 0 && BoxScaled(r, ps, k)
    ensures Height(r) == Height(ps) * k
  {
    assert ExtentScaled(Ys(r), Ys(ps), k);
  }

  /** Zipped axes whose extents are scaled by `k` make a box whose sides are scaled by `k`. */
  lemma ZipExtents(ps: seq<Point>, xs: seq<real>, ys: seq<real>, k: real)
    requires |ps| > 0 && |xs| == |ps| && |ys| == |ps|
    requires ExtentScaled(xs, Xs(ps), k) && ExtentScaled(ys, Ys(ps), k)
    ensures BoxScaled(Zip(xs, ys), ps, k)
  {
    assert Xs(Zip(xs, ys)) == xs && Ys(Zip(xs, ys)) == ys;
  }

  /** The bounding box of `r` lies inside the canvas less a margin of `padding` on every side. */
  predicate InsidePadding(r: seq<Point>, width: real, height: real, padding: real)
    requires |r| > 0
  {
    && padding <= BoxMin(r).x && BoxMax(r).x <= width - padding
    && padding <= BoxMin(r).y && BoxMax(r).y <= height - padding
  }

  /** The bounding box of `r` has its centre at the centre of the canvas. */
  predicate Centred(r: seq<Point>, width: real, height: real)
    requires |r| > 0
  {
    BoxMin(r).x + BoxMax(r).x == width && BoxMin(r).y + BoxMax(r).y == height
  }

  /** Each axis of a similar copy is a scaled copy of the same axis of the original. */
  lemma SimilarAxes(r: seq<Point>, ps: seq<Point>, k: real)
    requires Similar(r, ps, k)
    ensures AxisImage(Xs(r), Xs(ps), k) && AxisImage(Ys(r), Ys(ps), k)
  {
  }

  /** Scaling by a positive factor keeps the position of a least coordinate ... */
  lemma ImageKeepsLeast(t: seq<real>, s: seq<real>, k: real, lo: nat)
    requires AxisImage(t, s, k) && k > 0.0 && lo < |s|
    requires forall j :: 0 <= j < |s| ==> s[lo] <= s[j]
    ensures SeqMin(t) == t[lo]
  {
    forall j | 0 <= j < |t|
      ensures t[lo] <= t[j]
    {
      MulOffsets(s[j], s[lo], s[0], k);
      MulMonotone(k, 0.0, s[j] - s[lo]);
    }
    MinIsAttainedBound(t, t[lo], lo);
  }

  /** ... and of a greatest one. */
  lemma ImageKeepsGreatest(t: seq<real>, s: seq<real>, k: real, hi: nat)
    requires AxisImage(t, s, k) && k > 0.0 && hi < |s|
    requires forall j :: 0 <= j < |s| ==> s[j] <= s[hi]
    ensures SeqMax(t) == t[hi]
  {
    forall j | 0 <= j < |t|
      ensures t[j] <= t[hi]
    {
      MulOffsets(s[hi], s[j], s[0], k);
      MulMonotone(k, 0.0, s[hi] - s[j]);
    }
    MaxIsAttainedBound(t, t[hi], hi);
  }

  /** Both axes fitted with one factor `k` onto a canvas of `width` by `height`. */
  function FitBoth(ps: seq<Point>, k: real, width: real, height: real): (r: seq<Point>)
    requires |ps| > 0
    ensures |r| == |ps|
  {
    Zip(FitAxis(Xs(ps), k, width), FitAxis(Ys(ps), k, height))
  }

  /** One factor on both axes gives a similar copy of the polygon. */
  lemma FitBothSimilar(ps: seq<Point>, k: real, width: real, height: real)
    requires |ps| > 0
    ensures Similar(FitBoth(ps, k, width, height), ps, k)
  {
    FitAxisPointwise(Xs(ps), k, width);
    FitAxisPointwise(Ys(ps), k, height);
    ZipSimilar(ps, FitAxis(Xs(ps), k, width), FitAxis(Ys(ps), k, height), k);
  }

  /** A positive factor scales both sides of the bounding box by itself. */
  lemma FitBothScaled(ps: seq<Point>, k: real, width: real, height: real)
    requires |ps| > 0 && k > 0.0
    ensures BoxScaled(FitBoth(ps, k, width, height), ps, k)
  {
    FitAxisExtent(Xs(ps), k, width);
    FitAxisExtent(Ys(ps), k, height);
    ZipExtents(ps, FitAxis(Xs(ps), k, width), FitAxis(Ys(ps), k, height), k);
  }

  /** The fitted box is centred on the canvas. */
  lemma FitBothCentred(ps: seq<Point>, k: real, width: real, height: real)
    requires |ps| > 0 && k > 0.0
    ensures Centred(FitBoth(ps, k, width, height), width, height)
  {
    FitAxisCentred(Xs(ps), k, width);
    FitAxisCentred(Ys(ps), k, height);
    ZipBox(FitAxis(Xs(ps), k, width), FitAxis(Ys(ps), k, height));
  }

  /** An axis whose scaled extent fits the room left by the padding is fitted inside the padding. */
  lemma FitAxisInside(s: seq<real>, k: real, size: real, padding: real)
    requires |s| > 0 && k > 0.0 && Extent(s) * k <= size - 2.0 * padding
    ensures |FitAxis(s, k, size)| == |s|
    ensures padding <= SeqMin(FitAxis(s, k, size)) && SeqMax(FitAxis(s, k, size)) <= size - padding
  {
    var scaled := Scale(Shift(s, -SeqMin(s)), k);
    ScaledMinAtOrigin(s, k);
    ScaledMaxIsExtent(s, k);
    ShiftExtremes(scaled, (size - SeqMax(scaled)) / 2.0);
  }

  /** A factor that fits the padded canvas puts the fitted box inside the padding. */
  lemma FitBothInside(ps: seq<Point>, k: real, width: real, height: real, padding: real)
    requires |ps| > 0 && k > 0.0 && FitsPadded(ps, k, width, height, padding)
    ensures InsidePadding(FitBoth(ps, k, width, height), width, height, padding)
  {
    FitAxisInside(Xs(ps), k, width, padding);
    FitAxisInside(Ys(ps), k, height, padding);
    ZipBox(FitAxis(Xs(ps), k, width), FitAxis(Ys(ps), k, height));
  }

  /** `procesar_geometria`: move the box corner to the origin, scale uniformly by the largest
      factor that fits, and centre on the canvas. */
  function Normalize(ps: seq<Point>, width: real, height: real, padding: real): (r: seq<Point>)
    requires NonDegenerate(ps)
    requires width - 2.0 * padding > 0.0 && height - 2.0 * padding > 0.0
    ensures |r| == |ps|
    // one factor on both axes: the outline keeps its shape and its aspect ratio ...
    ensures Similar(r, ps, ScaleFactor(ps, width, height, padding))
    ensures BoxScaled(r, ps, ScaleFactor(ps, width, height, padding))
    // ... it fits inside the padding and is centred on the canvas
    ensures InsidePadding(r, width, height, padding)
    ensures Centred(r, width, height)
  {
    var k := ScaleFactor(ps, width, height, padding);
    FitBothSimilar(ps, k, width, height);
    FitBothScaled(ps, k, width, height);
    FitBothCentred(ps, k, width, height);
    FitBothInside(ps, k, width, height, padding);
    FitBoth(ps, k, width, height)
  }

  // ---------------------------------------------------------------------------
  // A worked case
  // ---------------------------------------------------------------------------

  const UnitSquare: seq<Point> := [Point(0.0, 0.0), Point(1.0, 0.0), Point(1.0, 1.0), Point(0.0, 1.0)]

  /** The unit square has the unit box. */
  lemma UnitSquareBox()
    ensures BoxMin(UnitSquare) == Point(0.0, 0.0) && BoxMax(UnitSquare) == Point(1.0, 1.0)
    ensures NonDegenerate(UnitSquare)
  {
    var xs, ys := Xs(UnitSquare), Ys(UnitSquare);
    assert xs == [0.0, 1.0, 1.0, 0.0] && ys == [0.0, 0.0, 1.0, 1.0];
    forall i | 0 <= i < 4
      ensures 0.0 <= xs[i] <= 1.0 && 0.0 <= ys[i] <= 1.0
    {
    }
    MinIsAttainedBound(xs, 0.0, 0);
    MaxIsAttainedBound(xs, 1.0, 1);
    MinIsAttainedBound(ys, 0.0, 0);
    MaxIsAttainedBound(ys, 1.0, 2);
  }

  /** A centred box of known width and height has known corners. */
  lemma CentredCorners(r: seq<Point>, width: real, height: real, w: real, h: real)
    requires |r| > 0 && Centred(r, width, height) && Width(r) == w && Height(r) == h
    ensures BoxMin(r) == Point((width - w) / 2.0, (height - h) / 2.0)
    ensures BoxMax(r) == Point((width + w) / 2.0, (height + h) / 2.0)
  {
  }

  /** A centred copy of `ps` with its box scaled by `k` has the scaled box's corners. */
  lemma ScaledCentredCorners(r: seq<Point>, ps: seq<Point>, k: real, width: real, height: real)
    requires |r| > 0 && |ps| > 0 && BoxScaled(r, ps, k) && Centred(r, width, height)
    ensures BoxMin(r) == Point((width - Width(ps) * k) / 2.0, (height - Height(ps) * k) / 2.0)
    ensures BoxMax(r) == Point((width + Width(ps) * k) / 2.0, (height + Height(ps) * k) / 2.0)
  {
    BoxScaledWidth(r, ps, k);
    BoxScaledHeight(r, ps, k);
    CentredCorners(r, width, height, Width(ps) * k, Height(ps) * k);
  }

  /** Any outline with the unit box, such as `UnitSquare`, fitted onto a 200 by 200 canvas with a
      20 pixel margin fills exactly `[20, 180]` on both axes. */
  lemma UnitBoxFit(ps: seq<Point>)
    requires |ps| > 0 && BoxMin(ps) == Point(0.0, 0.0) && BoxMax(ps) == Point(1.0, 1.0)
    ensures NonDegenerate(ps)
    ensures var r := Normalize(ps, 200.0, 200.0, 20.0);
      BoxMin(r) == Point(20.0, 20.0) && BoxMax(r) == Point(180.0, 180.0)
  {
    assert Width(ps) == 1.0 && Height(ps) == 1.0;
    assert ScaleFactor(ps, 200.0, 200.0, 20.0) == 160.0;
    ScaledCentredCorners(Normalize(ps, 200.0, 200.0, 20.0), ps, 160.0, 200.0, 200.0);
  }
}
