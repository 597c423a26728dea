/** The particle population of `ParticleFluidSimulator`: its four parallel arrays, the
    pre-populated start (`__init__`) and the respawn at the inlet (`reset_particles`). */
module Particles {
  import opened Wrappers
  import opened Random
  import opened Geometry
  import opened Tunnel
  import opened Sampler

  /** One entry per particle in each of the four arrays. */
  datatype State = State(positions: seq<Point>, velocities: seq<Point>, ages: seq<real>, sizes: seq<real>)

  /** All four arrays describe the same `n` particles. */
  predicate WellFormed(s: State, n: nat) {
    |s.positions| == n && |s.velocities| == n && |s.ages| == n && |s.sizes| == n
  }

  /** The still air particles start in. */
  const Rest := Point(0.0, 0.0)

  // ---------------------------------------------------------------------------
  // The pre-populated start
  // ---------------------------------------------------------------------------

  /** The start from sampled positions and one age draw per particle: at rest, size zero, and an
      age spread over `[0, 5)` when the draws are unit draws. */
  function Prepopulated(points: seq<Point>, ageDraws: seq<real>): (s: State)
    requires |ageDraws| == |points|
    ensures WellFormed(s, |points|) && s.positions == points
    ensures forall i :: 0 <= i < |points| ==> s.velocities[i] == Rest && s.sizes[i] == 0.0
    ensures forall i :: 0 <= i < |points| && Unit(ageDraws[i]) ==> 0.0 <= s.ages[i] < 5.0
  {
    State(points,
          seq(|points|, i => Rest),
          seq(|points|, i requires 0 <= i < |points| => ageDraws[i] * 5.0),
          seq(|points|, i => 0.0))
  }

  /** `__init__`: fills the tunnel `poly` with `cfg.numParticles` sampled points and starts them
      at rest. `None` exactly when the supplied candidate batches run out before enough points
      were accepted; otherwise every particle starts inside the tunnel. */
  method Initialize(cfg: Config, poly: seq<Point>, inside: Point -> bool, batches: seq<seq<Draw2>>, ageDraws: seq<real>)
    returns (r: Option<State>)
    requires |poly| > 0
    requires forall k :: 0 <= k < |batches| ==> |batches[k]| == cfg.numParticles
    requires |ageDraws| == cfg.numParticles
    ensures r.None? <==> |Pool(BoxMin(poly), BoxMax(poly), inside, batches)| < cfg.numParticles
    ensures r.Some? ==> WellFormed(r.value, cfg.numParticles)
    ensures r.Some? ==> r.value.positions == Pool(BoxMin(poly), BoxMax(poly), inside, batches)[..cfg.numParticles]
    ensures r.Some? ==> forall i :: 0 <= i < cfg.numParticles ==>
      inside(r.value.positions[i]) && r.value.velocities[i] == Rest && r.value.sizes[i] == 0.0
    ensures r.Some? ==> forall i :: 0 <= i < cfg.numParticles && Unit(ageDraws[i]) ==>
      0.0 <= r.value.ages[i] < 5.0
  {
    var points := SamplePoints(cfg.numParticles, poly, inside, batches);
    if points.None? {
      return None;
    }
    return Some(Prepopulated(points.value, ageDraws));
  }

  // ---------------------------------------------------------------------------
  // Respawn at the inlet
  // ---------------------------------------------------------------------------

  /** Where a respawned particle is put: at height `ratio` along the inlet, pushed up to five
      pixels downstream by `jitter`. */
  function InletPoint(lm: Landmarks, d: RespawnDraw): Point {
    Point(lm.inletStart.x + d.jitter * 5.0, lm.inletStart.y * (1.0 - d.ratio) + lm.inletEnd.y * d.ratio)
  }

  /** The age a respawned particle restarts with. */
  function RespawnAge(d: RespawnDraw): real {
    d.age * 0.1
  }

  /** Within the five-pixel strip downstream of the inlet, between its two ends. */
  predicate OnInlet(lm: Landmarks, p: Point) {
    lm.inletStart.x <= p.x < lm.inletStart.x + 5.0 && lm.inletStart.y <= p.y <= lm.inletEnd.y
  }

  /** Interpolating between the inlet's ends is stretching the ratio over the inlet. */
  lemma Interpolation(a: real, b: real, r: real)
    ensures a * (1.0 - r) + b * r == r * (b - a) + a
  {
  }

  /** With unit draws a respawned particle lands on the inlet strip, strictly below its upper end
      when the inlet has positive height, and restarts with an age in `[0, 0.1)`. */
  lemma InletPointOnInlet(lm: Landmarks, d: RespawnDraw)
    requires UnitRespawn(d) && lm.inletStart.y <= lm.inletEnd.y
    ensures OnInlet(lm, InletPoint(lm, d))
    ensures lm.inletStart.y < lm.inletEnd.y ==> InletPoint(lm, d).y < lm.inletEnd.y
    ensures 0.0 <= RespawnAge(d) < 0.1
  {
    StretchInRange(d.jitter, lm.inletStart.x, lm.inletStart.x + 5.0);
    Interpolation(lm.inletStart.y, lm.inletEnd.y, d.ratio);
    StretchInRange(d.ratio, lm.inletStart.y, lm.inletEnd.y);
  }

  /** Conversely, every point of the strip below the inlet's upper end is where some unit draw
      respawns a particle. */
  lemma InletPointCovers(lm: Landmarks, p: Point)
    requires lm.inletStart.x <= p.x < lm.inletStart.x + 5.0 && lm.inletStart.y <= p.y < lm.inletEnd.y
    ensures var d := RespawnDraw((p.y - lm.inletStart.y) / (lm.inletEnd.y - lm.inletStart.y), (p.x - lm.inletStart.x) / 5.0, 0.0);
      UnitRespawn(d) && InletPoint(lm, d) == p
  {
    var ratio := (p.y - lm.inletStart.y) / (lm.inletEnd.y - lm.inletStart.y);
    StretchInverse(lm.inletStart.x, lm.inletStart.x + 5.0, p.x);
    StretchInverse(lm.inletStart.y, lm.inletEnd.y, p.y);
    Interpolation(lm.inletStart.y, lm.inletEnd.y, ratio);
  }

  /** Puts particle `i` back at the inlet with the draw `d`. */
  function Put(s: State, lm: Landmarks, i: nat, d: RespawnDraw): State
    requires i < |s.positions| && i < |s.ages|
  {
    State(s.positions[i := InletPoint(lm, d)], s.velocities, s.ages[i := RespawnAge(d)], s.sizes)
  }

  /** No later entry of `idx` repeats the entry at `j`. */
  predicate LastOccurrence(idx: seq<nat>, j: int)
    requires 0 <= j < |idx|
  {
    forall j' :: j < j' < |idx| ==> idx[j'] != idx[j]
  }

  /** `reset_particles`: the particles listed in `idx` are put back at the inlet, the `j`-th of
      them with the `j`-th draw. Nothing happens for an empty list; particles not listed keep
      their position and age; velocities and sizes are untouched. A particle listed twice ends
      up with the draw of its last listing; which value wins for a repeated index is a choice of
      this model, since the indices always come from `np.where` and never repeat. */
  function Respawn(s: State, lm: Landmarks, idx: seq<nat>, draws: seq<RespawnDraw>): (r: State)
    requires |draws| == |idx| && |s.ages| == |s.positions|
    requires forall j :: 0 <= j < |idx| ==> idx[j] < |s.positions|
    ensures |idx| == 0 ==> r == s
    ensures |r.positions| == |s.positions| && |r.ages| == |s.ages|
    ensures r.velocities == s.velocities && r.sizes == s.sizes
    ensures forall i :: 0 <= i < |s.positions| && i !in idx ==>
      r.positions[i] == s.positions[i] && r.ages[i] == s.ages[i]
    ensures forall j :: 0 <= j < |idx| && LastOccurrence(idx, j) ==>
      r.positions[idx[j]] == InletPoint(lm, draws[j]) && r.ages[idx[j]] == RespawnAge(draws[j])
    decreases |idx|
  {
    if |idx| == 0 then
      s
    else
      var r := Respawn(Put(s, lm, idx[0], draws[0]), lm, idx[1..], draws[1..]);
      assert forall j :: 1 <= j < |idx| ==> idx[1..][j - 1] == idx[j];
      assert forall j' :: 0 <= j' < |idx| - 1 ==> idx[1..][j'] == idx[j' + 1];
      r
  }

  /** Every listed particle was put back by one of its listings: the last one. */
  lemma LastListing(idx: seq<nat>, i: nat) returns (j: nat)
    requires i in idx
    ensures j < |idx| && idx[j] == i && LastOccurrence(idx, j)
  {
    j :| j < |idx| && idx[j] == i;
    while j + 1 < |idx| && exists j' :: j < j' < |idx| && idx[j'] == i
      invariant j < |idx| && idx[j] == i
      decreases |idx| - j
    {
      var j' :| j < j' < |idx| && idx[j'] == i;
      j := j';
    }
  }

  /** With unit draws every listed particle ends on the inlet strip with an age in `[0, 0.1)`,
      whichever of its listings put it there. */
  lemma RespawnOnInlet(s: State, lm: Landmarks, idx: seq<nat>, draws: seq<RespawnDraw>)
    requires |draws| == |idx| && |s.ages| == |s.positions|
    requires forall j :: 0 <= j < |idx| ==> idx[j] < |s.positions|
    requires AllUnitRespawn(draws) && lm.inletStart.y <= lm.inletEnd.y
    ensures var r := Respawn(s, lm, idx, draws);
      forall i :: i in idx ==> OnInlet(lm, r.positions[i]) && 0.0 <= r.ages[i] < 0.1
  {
    var r := Respawn(s, lm, idx, draws);
    forall i | i in idx
      ensures OnInlet(lm, r.positions[i]) && 0.0 <= r.ages[i] < 0.1
    {
      var j := LastListing(idx, i);
      InletPointOnInlet(lm, draws[j]);
    }
  }

  /** Listed without repetition, as `np.where` lists them, the `j`-th listed particle gets exactly
      the `j`-th draw. */
  lemma RespawnDistinct(s: State, lm: Landmarks, idx: seq<nat>, draws: seq<RespawnDraw>)
    requires |draws| == |idx| && |s.ages| == |s.positions|
    requires forall j :: 0 <= j < |idx| ==> idx[j] < |s.positions|
    requires forall j, j' :: 0 <= j < j' < |idx| ==> idx[j] != idx[j']
    ensures var r := Respawn(s, lm, idx, draws);
      forall j :: 0 <= j < |idx| ==>
        r.positions[idx[j]] == InletPoint(lm, draws[j]) && r.ages[idx[j]] == RespawnAge(draws[j])
  {
    forall j | 0 <= j < |idx|
      ensures LastOccurrence(idx, j)
    {
    }
  }
}
