/** Rejection sampling of `generate_points_in_polygon`: batches of unit draws are stretched over
    the polygon's bounding box, the candidates the polygon contains are kept in order, and the
    first `n` kept points are returned. */
module Sampler {
  import opened Wrappers
  import opened Random
  import opened Geometry

  /** Within the closed axis-aligned box with corners `lo` and `hi`. */
  predicate WithinBox(lo: Point, hi: Point, p: Point) {
    lo.x <= p.x <= hi.x && lo.y <= p.y <= hi.y
  }

  /** Within the half-open box `[lo, hi)` on both axes: where unit draws land. */
  predicate WithinHalfOpenBox(lo: Point, hi: Point, p: Point) {
    lo.x <= p.x < hi.x && lo.y <= p.y < hi.y
  }

  // ---------------------------------------------------------------------------
  // Candidates
  // ---------------------------------------------------------------------------

  /** One candidate: a row of unit draws stretched over the box. */
  function Candidate(lo: Point, hi: Point, d: Draw2): Point {
    Point(d.u * (hi.x - lo.x) + lo.x, d.v * (hi.y - lo.y) + lo.y)
  }

  /** Stretching a unit draw `u` over `[a, b]` lands in `[a, b]`, and below `b` when `a < b`. */
  lemma StretchInRange(u: real, a: real, b: real)
    requires Unit(u) && a <= b
    ensures a <= u * (b - a) + a <= b
    ensures a < b ==> u * (b - a) + a < b
  {
    var w := b - a;
    if w > 0.0 {
      MulMonotone(w, 0.0, u);
      MulStrict(w, u, 1.0);
      assert 0.0 <= u * w < w;
    } else {
      assert u * w == 0.0;
    }
    assert u * (b - a) == u * w;
  }

  /** Every point of `[a, b)` is the stretch of exactly one unit draw, its relative offset. */
  lemma StretchInverse(a: real, b: real, x: real)
    requires a <= x < b
    ensures Unit((x - a) / (b - a)) && (x - a) / (b - a) * (b - a) + a == x
  {
    var w, q := b - a, (x - a) / (b - a);
    assert q * w == x - a;
    if q < 0.0 {
      MulStrict(w, q, 0.0);
      assert false;
    }
    if q >= 1.0 {
      MulMonotone(w, 1.0, q);
      assert false;
    }
  }

  /** A candidate from unit draws lies in the box, and strictly below its upper corner on every
      axis along which the box has positive extent. */
  lemma CandidateInBox(lo: Point, hi: Point, d: Draw2)
    requires Unit2(d) && lo.x <= hi.x && lo.y <= hi.y
    ensures WithinBox(lo, hi, Candidate(lo, hi, d))
    ensures lo.x < hi.x && lo.y < hi.y ==> WithinHalfOpenBox(lo, hi, Candidate(lo, hi, d))
  {
    StretchInRange(d.u, lo.x, hi.x);
    StretchInRange(d.v, lo.y, hi.y);
  }

  /** Conversely, every point of a non-degenerate half-open box is the candidate of some row of
      unit draws: the sampler can reach all of the box. */
  lemma CandidateCoversBox(lo: Point, hi: Point, p: Point)
    requires WithinHalfOpenBox(lo, hi, p)
    ensures var d := Draw2((p.x - lo.x) / (hi.x - lo.x), (p.y - lo.y) / (hi.y - lo.y));
      Unit2(d) && Candidate(lo, hi, d) == p
  {
    StretchInverse(lo.x, hi.x, p.x);
    StretchInverse(lo.y, hi.y, p.y);
  }

  /** One batch of candidates, one per row of draws. */
  function Batch(lo: Point, hi: Point, ds: seq<Draw2>): (cs: seq<Point>)
    ensures |cs| == |ds|
    ensures forall i :: 0 <= i < |ds| ==> cs[i] == Candidate(lo, hi, ds[i])
  {
    seq(|ds|, i requires 0 <= i < |ds| => Candidate(lo, hi, ds[i]))
  }

  /** With unit draws every candidate of a batch lies in the box. */
  lemma BatchInBox(lo: Point, hi: Point, ds: seq<Draw2>)
    ensures AllUnit2(ds) && lo.x <= hi.x && lo.y <= hi.y ==>
      forall c :: c in Batch(lo, hi, ds) ==> WithinBox(lo, hi, c)
  {
    if AllUnit2(ds) && lo.x <= hi.x && lo.y <= hi.y {
      forall i | 0 <= i < |ds|
        ensures WithinBox(lo, hi, Batch(lo, hi, ds)[i])
      {
        CandidateInBox(lo, hi, ds[i]);
      }
    }
  }

  // ---------------------------------------------------------------------------
  // Acceptance
  // ---------------------------------------------------------------------------

  /** The candidates `inside` accepts, in their original order, as `random_points[inside_mask]`
      selects them: every accepted point is an accepted candidate, and every candidate that
      `inside` accepts is kept. */
  function Accept(inside: Point -> bool, cs: seq<Point>): (r: seq<Point>)
    ensures |r| <= |cs|
    ensures forall i :: 0 <= i < |r| ==> inside(r[i]) && r[i] in cs
    ensures forall c :: c in cs && inside(c) ==> c in r
  {
    if |cs| == 0 then
      []
    else
      var rest, last := Accept(inside, cs[..|cs| - 1]), cs[|cs| - 1];
      assert cs == cs[..|cs| - 1] + [last];
      if inside(last) then rest + [last] else rest
  }

  /** Filtering is compositional: accepting two runs of candidates one after the other gives the
      same points as accepting them together. */
  lemma {:induction false} AcceptAppend(inside: Point -> bool, a: seq<Point>, b: seq<Point>)
    ensures Accept(inside, a + b) == Accept(inside, a) + Accept(inside, b)
    decreases |b|
  {
    if |b| == 0 {
      assert a + b == a;
    } else {
      var b' := b[..|b| - 1];
      assert (a + b)[..|a + b| - 1] == a + b';
      assert (a + b)[|a + b| - 1] == b[|b| - 1];
      AcceptAppend(inside, a, b');
    }
  }

  // ---------------------------------------------------------------------------
  // The pool of accepted points
  // ---------------------------------------------------------------------------

  /** Every batch consists of unit draws. */
  predicate AllBatchesUnit(batches: seq<seq<Draw2>>) {
    forall k :: 0 <= k < |batches| ==> AllUnit2(batches[k])
  }

  /** The points kept after the given batches, in the order they were drawn. All of them are
      accepted by `inside`, and with unit draws all lie in the box. */
  function Pool(lo: Point, hi: Point, inside: Point -> bool, batches: seq<seq<Draw2>>): (ps: seq<Point>)
    ensures forall i :: 0 <= i < |ps| ==> inside(ps[i])
    ensures AllBatchesUnit(batches) && lo.x <= hi.x && lo.y <= hi.y ==>
      forall i :: 0 <= i < |ps| ==> WithinBox(lo, hi, ps[i])
  {
    if |batches| == 0 then
      []
    else
      var earlier := batches[..|batches| - 1];
      var latest := Accept(inside, Batch(lo, hi, batches[|batches| - 1]));
      assert AllBatchesUnit(batches) ==> AllBatchesUnit(earlier);
      BatchInBox(lo, hi, batches[|batches| - 1]);
      Pool(lo, hi, inside, earlier) + latest
  }

  /** Drawing more batches only appends: the pool after the first `k` batches is a prefix of the
      pool after all of them. */
  lemma {:induction false} PoolPrefix(lo: Point, hi: Point, inside: Point -> bool, batches: seq<seq<Draw2>>, k: nat)
    requires k <= |batches|
    ensures Pool(lo, hi, inside, batches[..k]) <= Pool(lo, hi, inside, batches)
    decreases |batches| - k
  {
    if k < |batches| {
      var bs := batches[..k + 1];
      assert bs[..|bs| - 1] == batches[..k];
      PoolPrefix(lo, hi, inside, batches, k + 1);
    } else {
      assert batches[..k] == batches;
    }
  }

  /** All candidates of all batches, in order. */
  function Candidates(lo: Point, hi: Point, batches: seq<seq<Draw2>>): seq<Point> {
    if |batches| == 0 then [] else Candidates(lo, hi, batches[..|batches| - 1]) + Batch(lo, hi, batches[|batches| - 1])
  }

  /** The batch structure does not change which points are kept: the pool is exactly the
      accepted subsequence of the whole stream of candidates. */
  lemma {:induction false} PoolIsAcceptedStream(lo: Point, hi: Point, inside: Point -> bool, batches: seq<seq<Draw2>>)
    ensures Pool(lo, hi, inside, batches) == Accept(inside, Candidates(lo, hi, batches))
  {
    if |batches| > 0 {
      var earlier := batches[..|batches| - 1];
      PoolIsAcceptedStream(lo, hi, inside, earlier);
      AcceptAppend(inside, Candidates(lo, hi, earlier), Batch(lo, hi, batches[|batches| - 1]));
    }
  }

  // ---------------------------------------------------------------------------
  // The sampler
  // ---------------------------------------------------------------------------

  /** One batch through the containment test, as the loop `points[inside_mask]` filters it:
      exactly the accepted candidates of the batch, in order. */
  method AcceptBatch(lo: Point, hi: Point, inside: Point -> bool, batch: seq<Draw2>)
    returns (accepted: seq<Point>)
    ensures accepted == Accept(inside, Batch(lo, hi, batch))
  {
    var cands := Batch(lo, hi, batch);
    accepted := [];
    var j := 0;
    while j < |batch|
      invariant 0 <= j <= |batch|
      invariant accepted == Accept(inside, cands[..j])
    {
      var c := Candidate(lo, hi, batch[j]);
      assert cands[..j + 1][..j] == cands[..j];
      if inside(c) {
        accepted := accepted + [c];
      }
      j := j + 1;
    }
    assert cands[..j] == cands;
  }

  /** One more batch appends its accepted candidates to the pool. */
  lemma PoolStep(lo: Point, hi: Point, inside: Point -> bool, batches: seq<seq<Draw2>>, k: nat)
    requires k < |batches|
    ensures Pool(lo, hi, inside, batches[..k + 1])
      == Pool(lo, hi, inside, batches[..k]) + Accept(inside, Batch(lo, hi, batches[k]))
  {
    var bs := batches[..k + 1];
    assert bs[..|bs| - 1] == batches[..k] && bs[|bs| - 1] == batches[k];
  }

  /** Once the pool after `k` batches holds `n` points, its first `n` are those of the whole pool,
      and they inherit the pool's guarantees. */
  lemma PoolTake(lo: Point, hi: Point, inside: Point -> bool, batches: seq<seq<Draw2>>, k: nat, n: nat)
    requires k <= |batches| && n <= |Pool(lo, hi, inside, batches[..k])|
    ensures var all := Pool(lo, hi, inside, batches);
      n <= |all| && all[..n] == Pool(lo, hi, inside, batches[..k])[..n]
  {
    PoolPrefix(lo, hi, inside, batches, k);
  }

  /** `generate_points_in_polygon`: draws batches of `n` candidates in the bounding box of `poly`
      until at least `n` have been accepted, and returns the first `n`. The supplied batches stand
      for the generator; the result is `None` when they run out first, which happens exactly when
      all of them together yield fewer than `n` points. Otherwise the result is the first `n`
      points of the pool, independent of how many batches the loop consumed. */
  method SamplePoints(n: nat, poly: seq<Point>, inside: Point -> bool, batches: seq<seq<Draw2>>)
    returns (r: Option<seq<Point>>)
    requires |poly| > 0
    requires forall k :: 0 <= k < |batches| ==> |batches[k]| == n
    ensures r.None? <==> |Pool(BoxMin(poly), BoxMax(poly), inside, batches)| < n
    ensures r.Some? ==> |r.value| == n && r.value == Pool(BoxMin(poly), BoxMax(poly), inside, batches)[..n]
    ensures r.Some? ==> forall i :: 0 <= i < n ==> inside(r.value[i])
    ensures r.Some? && AllBatchesUnit(batches) ==>
      forall i :: 0 <= i < n ==> WithinBox(BoxMin(poly), BoxMax(poly), r.value[i])
  {
    var lo, hi := BoxMin(poly), BoxMax(poly);
    InBox(poly, 0);
    var points: seq<Point> := [];
    var k := 0;
    while |points| < n
      invariant 0 <= k <= |batches|
      invariant points == Pool(lo, hi, inside, batches[..k])
      decreases |batches| - k
    {
      if k == |batches| {
        assert batches[..k] == batches;
        return None;
      }
      var accepted := AcceptBatch(lo, hi, inside, batches[k]);
      PoolStep(lo, hi, inside, batches, k);
      points := points + accepted;
      k := k + 1;
    }
    PoolTake(lo, hi, inside, batches, k, n);
    return Some(points[..n]);
  }
}
