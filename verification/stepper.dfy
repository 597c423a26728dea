/** One frame of `ParticleFluidSimulator.update` and the frame loop that drives it. */
module Stepper {
  import opened Random
  import opened Geometry
  import opened Tunnel
  import opened VelocityField
  import opened Particles

  // ---------------------------------------------------------------------------
  // Selecting the particles to reset (`np.where(mask)[0]`)
  // ---------------------------------------------------------------------------

  /** Strictly increasing. */
  predicate Ascending(idx: seq<nat>) {
    forall j, j' :: 0 <= j < j' < |idx| ==> idx[j] < idx[j']
  }

  /** The positions of the `true` entries of `mask`, in increasing order: an index is listed
      exactly when its entry is set, and each at most once. */
  function Where(mask: seq<bool>): (idx: seq<nat>)
    ensures |idx| <= |mask| && Ascending(idx)
    ensures forall j :: 0 <= j < |idx| ==> idx[j] < |mask| && mask[idx[j]]
    ensures forall i :: 0 <= i < |mask| ==> (mask[i] <==> i in idx)
  {
    if |mask| == 0 then
      []
    else
      var n := |mask| - 1;
      var earlier := Where(mask[..n]);
      assert forall i :: 0 <= i < n ==> mask[..n][i] == mask[i];
      if mask[n] then earlier + [n] else earlier
  }

  /** How many entries of `mask` are set. */
  function Count(mask: seq<bool>): nat {
    if |mask| == 0 then 0 else Count(mask[..|mask| - 1]) + (if mask[|mask| - 1] then 1 else 0)
  }

  /** As many particles are listed as the mask selects. */
  lemma {:induction false} WhereCount(mask: seq<bool>)
    ensures |Where(mask)| == Count(mask)
  {
    if |mask| > 0 {
      WhereCount(mask[..|mask| - 1]);
    }
  }

  // ---------------------------------------------------------------------------
  // Render sizes
  // ---------------------------------------------------------------------------

  /** The speed at which particles reach the smallest size. */
  function SpeedScale(cfg: Config): real {
    cfg.baseVelocity * cfg.boostFactor * 1.5
  }

  /** The size a particle is drawn with: the largest at rest, shrinking linearly with speed down
      to the smallest at `SpeedScale` and beyond. */
  function RenderSize(cfg: Config, speed: real): (r: real)
    requires SpeedScale(cfg) != 0.0
    ensures cfg.sizeMin <= cfg.sizeMax ==> cfg.sizeMin <= r <= cfg.sizeMax
    ensures speed == 0.0 ==> r == cfg.sizeMax
    ensures SpeedScale(cfg) > 0.0 && speed >= SpeedScale(cfg) ==> r == cfg.sizeMin
  {
    var c := Clip(speed / SpeedScale(cfg), 0.0, 1.0);
    SizeFacts(cfg, speed, c);
    cfg.sizeMax - (cfg.sizeMax - cfg.sizeMin) * c
  }

  /** The facts behind `RenderSize`, for a generic clipped ratio `c`. */
  lemma SizeFacts(cfg: Config, speed: real, c: real)
    requires SpeedScale(cfg) != 0.0 && c == Clip(speed / SpeedScale(cfg), 0.0, 1.0)
    ensures cfg.sizeMin <= cfg.sizeMax ==> cfg.sizeMin <= cfg.sizeMax - (cfg.sizeMax - cfg.sizeMin) * c <= cfg.sizeMax
    ensures speed == 0.0 ==> c == 0.0
    ensures SpeedScale(cfg) > 0.0 && speed >= SpeedScale(cfg) ==> c == 1.0
  {
    if cfg.sizeMin <= cfg.sizeMax {
      ShrinkBetween(cfg.sizeMin, cfg.sizeMax, c);
    }
    if SpeedScale(cfg) > 0.0 && speed >= SpeedScale(cfg) {
      var k := SpeedScale(cfg);
      DivMonotone(k, speed, k);
      SelfDivide(k);
      assert 1.0 <= speed / k;
    }
  }

  /** Taking a fraction `c` of the span off the top of `[lo, hi]` stays in `[lo, hi]`. */
  lemma ShrinkBetween(lo: real, hi: real, c: real)
    requires lo <= hi && 0.0 <= c <= 1.0
    ensures lo <= hi - (hi - lo) * c <= hi
  {
    Shrink(hi - lo, 0.0, c);
    Shrink(hi - lo, c, 1.0);
  }

  /** A non-negative span times a larger fraction is larger. */
  lemma Shrink(d: real, c: real, c': real)
    requires d >= 0.0 && c <= c'
    ensures d * c <= d * c'
  {
    if d > 0.0 {
      MulMonotone(d, c, c');
    }
  }

  /** Faster particles are drawn no larger. */
  lemma RenderSizeAntitone(cfg: Config, speed: real, speed': real)
    requires SpeedScale(cfg) > 0.0 && cfg.sizeMin <= cfg.sizeMax && speed <= speed'
    ensures RenderSize(cfg, speed') <= RenderSize(cfg, speed)
  {
    var k := SpeedScale(cfg);
    var c, c' := Clip(speed / k, 0.0, 1.0), Clip(speed' / k, 0.0, 1.0);
    DivMonotone(speed, speed', k);
    ClipMonotone(speed / k, speed' / k, 0.0, 1.0);
    ShrinkMore(cfg.sizeMin, cfg.sizeMax, c, c');
    assert RenderSize(cfg, speed) == cfg.sizeMax - (cfg.sizeMax - cfg.sizeMin) * c;
    assert RenderSize(cfg, speed') == cfg.sizeMax - (cfg.sizeMax - cfg.sizeMin) * c';
  }

  /** Taking more of the span off the top leaves less. */
  lemma ShrinkMore(lo: real, hi: real, c: real, c': real)
    requires lo <= hi && c <= c'
    ensures hi - (hi - lo) * c' <= hi - (hi - lo) * c
  {
    Shrink(hi - lo, c, c');
  }

  /** The squared length of a velocity. */
  function SpeedSquared(v: Point): real {
    v.x * v.x + v.y * v.y
  }

  /** `norm` is the Euclidean length: non-negative, and its square is the squared speed. */
  ghost predicate Euclidean(norm: Point -> real) {
    forall v :: norm(v) >= 0.0 && Square(norm(v)) == SpeedSquared(v)
  }

  /** Squares of non-negative numbers keep strict order. */
  lemma SquareStrict(a: real, b: real)
    requires 0.0 <= a < b
    ensures Square(a) < Square(b)
  {
    MulStrict(b, a, b);
    if a > 0.0 {
      MulStrict(a, a, b);
    } else {
      ProductPositive(b, b, Square(b));
    }
  }

  /** A particle at rest is drawn at the largest size. */
  lemma RestingIsLargest(cfg: Config, norm: Point -> real)
    requires SpeedScale(cfg) != 0.0 && Euclidean(norm)
    ensures RenderSize(cfg, norm(Rest)) == cfg.sizeMax
  {
    SquareNonNegative(norm(Rest));
  }

  /** Of two particles, the one with the larger velocity vector is drawn no larger. */
  lemma FasterIsSmaller(cfg: Config, norm: Point -> real, v: Point, w: Point)
    requires SpeedScale(cfg) > 0.0 && cfg.sizeMin <= cfg.sizeMax && Euclidean(norm)
    requires SpeedSquared(v) <= SpeedSquared(w)
    ensures RenderSize(cfg, norm(w)) <= RenderSize(cfg, norm(v))
  {
    if norm(w) < norm(v) {
      SquareStrict(norm(w), norm(v));
      assert false;
    }
    RenderSizeAntitone(cfg, norm(v), norm(w));
  }

  // ---------------------------------------------------------------------------
  // One frame
  // ---------------------------------------------------------------------------

  /** The random draws one frame consumes: two turbulence draws per particle, and a supply of
      respawn draws of which the first one per reset particle is used. */
  datatype Frame = Frame(turbulence: seq<Draw2>, respawn: seq<RespawnDraw>)

  /** Enough draws for `n` particles. */
  predicate FrameFits(f: Frame, n: nat) {
    |f.turbulence| == n && |f.respawn| >= n
  }

  /** Every draw of the frame is a unit draw. */
  predicate UnitFrame(f: Frame) {
    AllUnit2(f.turbulence) && AllUnitRespawn(f.respawn)
  }

  /** What a frame needs to be computable: a time step, an inlet of non-zero height and a
      non-zero speed scale. */
  predicate Ready(cfg: Config, lm: Landmarks) {
    cfg.fps > 0 && lm.HalfInlet() != 0.0 && SpeedScale(cfg) != 0.0
  }

  /** The shipped constants and the landmarks of the shipped outline meet the hypotheses of the
      frame and frame-loop theorems below. */
  lemma SourceReady()
    ensures Ready(SourceConfig, SourceLandmarks())
    ensures SourceLandmarks().inletStart.y <= SourceLandmarks().inletEnd.y
  {
    SourceLandmarksValid();
  }

  /** One explicit Euler step. */
  function Advance(p: Point, v: Point, dt: real): Point {
    Point(p.x + v.x * dt, p.y + v.y * dt)
  }

  /** Left the tunnel, or passed the outlet. */
  predicate Escaped(lm: Landmarks, inside: Point -> bool, p: Point) {
    !inside(p) || p.x > lm.outletX
  }

  /** Inside the tunnel and not past the outlet. */
  predicate Settled(lm: Landmarks, inside: Point -> bool, p: Point) {
    !Escaped(lm, inside, p)
  }

  /** Every particle advanced by its own velocity. */
  function Moved(pos: seq<Point>, vel: seq<Point>, dt: real): seq<Point>
    requires |vel| == |pos|
  {
    seq(|pos|, i requires 0 <= i < |pos| => Advance(pos[i], vel[i], dt))
  }

  /** Every age advanced by one time step. */
  function Aged(ages: seq<real>, dt: real): seq<real> {
    seq(|ages|, i requires 0 <= i < |ages| => ages[i] + dt)
  }

  /** `outside_mask | escaped_mask`, one entry per particle. */
  function ResetMask(lm: Landmarks, inside: Point -> bool, ps: seq<Point>): seq<bool> {
    seq(|ps|, i requires 0 <= i < |ps| => Escaped(lm, inside, ps[i]))
  }

  /** The render size of every particle, from its velocity. */
  function Sizes(cfg: Config, norm: Point -> real, vel: seq<Point>): (sz: seq<real>)
    requires SpeedScale(cfg) != 0.0
    ensures |sz| == |vel|
    ensures cfg.sizeMin <= cfg.sizeMax ==> forall i :: 0 <= i < |vel| ==> cfg.sizeMin <= sz[i] <= cfg.sizeMax
  {
    seq(|vel|, i requires 0 <= i < |vel| => RenderSize(cfg, norm(vel[i])))
  }

  /** The moved state before any reset. */
  function Stepped(cfg: Config, lm: Landmarks, s: State, f: Frame): State
    requires Ready(cfg, lm) && WellFormed(s, |s.positions|) && FrameFits(f, |s.positions|)
  {
    var vel := Field(cfg, lm, s.positions, f.turbulence);
    State(Moved(s.positions, vel, cfg.Dt()), vel, Aged(s.ages, cfg.Dt()), s.sizes)
  }

  /** The particles reset this frame, in increasing order. */
  function ResetList(cfg: Config, lm: Landmarks, inside: Point -> bool, s: State, f: Frame): seq<nat>
    requires Ready(cfg, lm) && WellFormed(s, |s.positions|) && FrameFits(f, |s.positions|)
  {
    Where(ResetMask(lm, inside, Stepped(cfg, lm, s, f).positions))
  }

  /** `update`: sample the velocity field at every particle, move each by one time step, age it
      by one time step, put the particles that left the tunnel or passed the outlet back at the
      inlet, and size every particle by its speed. `inside` stands for the tunnel's containment
      test and `norm` for the length of a velocity vector. */
  function Update(cfg: Config, lm: Landmarks, inside: Point -> bool, norm: Point -> real, s: State, f: Frame): (r: State)
    requires Ready(cfg, lm) && WellFormed(s, |s.positions|) && FrameFits(f, |s.positions|)
    ensures WellFormed(r, |s.positions|)
  {
    var st := Stepped(cfg, lm, s, f);
    var idx := ResetList(cfg, lm, inside, s, f);
    var reset := Respawn(st, lm, idx, f.respawn[..|idx|]);
    State(reset.positions, st.velocities, reset.ages, Sizes(cfg, norm, st.velocities))
  }

  /** What happens to particle `i` in one frame: it gets the field's velocity at its old position
      and a size from that velocity; if its moved position is still settled it keeps that
      position and is one time step older, and otherwise it is put back at the inlet with the
      respawn draw of its rank among the reset particles. */
  lemma UpdateParticle(cfg: Config, lm: Landmarks, inside: Point -> bool, norm: Point -> real, s: State, f: Frame, i: nat)
    requires Ready(cfg, lm) && WellFormed(s, |s.positions|) && FrameFits(f, |s.positions|)
    requires i < |s.positions|
    ensures var r := Update(cfg, lm, inside, norm, s, f);
      var v := FieldAt(cfg, lm, s.positions[i], f.turbulence[i]);
      var p := Advance(s.positions[i], v, cfg.Dt());
      && r.velocities[i] == v
      && r.sizes[i] == RenderSize(cfg, norm(v))
      && (Settled(lm, inside, p) ==> r.positions[i] == p && r.ages[i] == s.ages[i] + cfg.Dt())
      && (Escaped(lm, inside, p) ==>
            exists j :: (0 <= j < |ResetList(cfg, lm, inside, s, f)| &&
              ResetList(cfg, lm, inside, s, f)[j] == i &&
              r.positions[i] == InletPoint(lm, f.respawn[j]) && r.ages[i] == RespawnAge(f.respawn[j])))
  {
    var st := Stepped(cfg, lm, s, f);
    var idx := ResetList(cfg, lm, inside, s, f);
    var mask := ResetMask(lm, inside, st.positions);
    assert mask[i] == Escaped(lm, inside, st.positions[i]);
    RespawnDistinct(st, lm, idx, f.respawn[..|idx|]);
    if Escaped(lm, inside, st.positions[i]) {
      var j :| 0 <= j < |idx| && idx[j] == i;
      assert f.respawn[..|idx|][j] == f.respawn[j];
    }
  }

  /** With unit draws a particle either stays settled where the step took it, one time step
      older, or restarts on the inlet strip (given an upward inlet) with an age in `[0, 0.1)`. */
  lemma ParticleFate(cfg: Config, lm: Landmarks, inside: Point -> bool, norm: Point -> real, s: State, f: Frame, i: nat)
    requires Ready(cfg, lm) && WellFormed(s, |s.positions|) && FrameFits(f, |s.positions|)
    requires i < |s.positions| && UnitFrame(f)
    ensures var r := Update(cfg, lm, inside, norm, s, f);
      var p := Advance(s.positions[i], FieldAt(cfg, lm, s.positions[i], f.turbulence[i]), cfg.Dt());
      && (Settled(lm, inside, p) ==> r.positions[i] == p && r.ages[i] == s.ages[i] + cfg.Dt())
      && (Escaped(lm, inside, p) ==>
            (0.0 <= r.ages[i] < 0.1 && (lm.inletStart.y <= lm.inletEnd.y ==> OnInlet(lm, r.positions[i]))))
  {
    var r := Update(cfg, lm, inside, norm, s, f);
    UpdateParticle(cfg, lm, inside, norm, s, f, i);
    var p := Advance(s.positions[i], FieldAt(cfg, lm, s.positions[i], f.turbulence[i]), cfg.Dt());
    if Escaped(lm, inside, p) {
      var idx := ResetList(cfg, lm, inside, s, f);
      var j :| 0 <= j < |idx| && idx[j] == i &&
        r.positions[i] == InletPoint(lm, f.respawn[j]) && r.ages[i] == RespawnAge(f.respawn[j]);
      assert UnitRespawn(f.respawn[j]);
      if lm.inletStart.y <= lm.inletEnd.y {
        InletPointOnInlet(lm, f.respawn[j]);
      }
    }
  }

  /** The invariant the frame loop keeps: every particle is settled inside the tunnel or sits on
      the inlet strip. */
  predicate InTunnelOrInlet(lm: Landmarks, inside: Point -> bool, s: State) {
    forall i :: 0 <= i < |s.positions| ==> Settled(lm, inside, s.positions[i]) || OnInlet(lm, s.positions[i])
  }

  /** With unit draws and an upward inlet, after any frame every particle is settled or on the
      inlet strip, whatever state the frame started from. */
  lemma UpdateInTunnelOrInlet(cfg: Config, lm: Landmarks, inside: Point -> bool, norm: Point -> real, s: State, f: Frame)
    requires Ready(cfg, lm) && WellFormed(s, |s.positions|) && FrameFits(f, |s.positions|)
    requires UnitFrame(f) && lm.inletStart.y <= lm.inletEnd.y
    ensures InTunnelOrInlet(lm, inside, Update(cfg, lm, inside, norm, s, f))
  {
    var r := Update(cfg, lm, inside, norm, s, f);
    forall i | 0 <= i < |s.positions|
      ensures Settled(lm, inside, r.positions[i]) || OnInlet(lm, r.positions[i])
    {
      ParticleFate(cfg, lm, inside, norm, s, f, i);
    }
  }

  /** Ages never go negative: a frame adds a positive time step or restarts an age in `[0, 0.1)`. */
  predicate AgesNonNegative(s: State) {
    forall i :: 0 <= i < |s.ages| ==> s.ages[i] >= 0.0
  }

  lemma UpdateKeepsAges(cfg: Config, lm: Landmarks, inside: Point -> bool, norm: Point -> real, s: State, f: Frame)
    requires Ready(cfg, lm) && WellFormed(s, |s.positions|) && FrameFits(f, |s.positions|)
    requires UnitFrame(f) && AgesNonNegative(s)
    ensures AgesNonNegative(Update(cfg, lm, inside, norm, s, f))
  {
    var r := Update(cfg, lm, inside, norm, s, f);
    DtPositive(cfg);
    forall i | 0 <= i < |s.positions|
      ensures r.ages[i] >= 0.0
    {
      ParticleFate(cfg, lm, inside, norm, s, f, i);
    }
  }

  // ---------------------------------------------------------------------------
  // The frame loop
  // ---------------------------------------------------------------------------

  /** Every frame carries enough draws for `n` particles. */
  predicate FramesFit(frames: seq<Frame>, n: nat) {
    forall k :: 0 <= k < |frames| ==> FrameFits(frames[k], n)
  }

  predicate UnitFrames(frames: seq<Frame>) {
    forall k :: 0 <= k < |frames| ==> UnitFrame(frames[k])
  }

  /** The main loop without its rendering: one `update` per frame, in order. */
  function Simulate(cfg: Config, lm: Landmarks, inside: Point -> bool, norm: Point -> real, s: State, frames: seq<Frame>): (r: State)
    requires Ready(cfg, lm) && WellFormed(s, |s.positions|) && FramesFit(frames, |s.positions|)
    ensures WellFormed(r, |s.positions|)
    decreases |frames|
  {
    if |frames| == 0 then
      s
    else
      Simulate(cfg, lm, inside, norm, Update(cfg, lm, inside, norm, s, frames[0]), frames[1..])
  }

  /** Running `a` and then `b` is running `a + b`: the loop has no state besides the particles. */
  lemma {:induction false} SimulateAppend(cfg: Config, lm: Landmarks, inside: Point -> bool, norm: Point -> real, s: State, a: seq<Frame>, b: seq<Frame>)
    requires Ready(cfg, lm) && WellFormed(s, |s.positions|)
    requires FramesFit(a, |s.positions|) && FramesFit(b, |s.positions|)
    ensures FramesFit(a + b, |s.positions|)
    ensures Simulate(cfg, lm, inside, norm, s, a + b)
      == Simulate(cfg, lm, inside, norm, Simulate(cfg, lm, inside, norm, s, a), b)
    decreases |a|
  {
    if |a| == 0 {
      assert a + b == b;
    } else {
      assert (a + b)[0] == a[0] && (a + b)[1..] == a[1..] + b;
      SimulateAppend(cfg, lm, inside, norm, Update(cfg, lm, inside, norm, s, a[0]), a[1..], b);
    }
  }

  /** After at least one frame with unit draws, every particle is settled or on the inlet strip,
      and ages that started non-negative stay so. */
  lemma {:induction false} SimulateInvariant(cfg: Config, lm: Landmarks, inside: Point -> bool, norm: Point -> real, s: State, frames: seq<Frame>)
    requires Ready(cfg, lm) && WellFormed(s, |s.positions|) && FramesFit(frames, |s.positions|)
    requires UnitFrames(frames) && lm.inletStart.y <= lm.inletEnd.y
    requires AgesNonNegative(s)
    ensures AgesNonNegative(Simulate(cfg, lm, inside, norm, s, frames))
    ensures |frames| > 0 ==> InTunnelOrInlet(lm, inside, Simulate(cfg, lm, inside, norm, s, frames))
    decreases |frames|
  {
    if |frames| > 0 {
      var next := Update(cfg, lm, inside, norm, s, frames[0]);
      UpdateKeepsAges(cfg, lm, inside, norm, s, frames[0]);
      UpdateInTunnelOrInlet(cfg, lm, inside, norm, s, frames[0]);
      SimulateInvariant(cfg, lm, inside, norm, next, frames[1..]);
    }
  }
}
