/** The analytic velocity field of `get_velocity_field`: an axial flow attenuated away from the
    canvas midline, boosted inside the throat, plus bounded uniform turbulence. */
module VelocityField {
  import opened Geometry
  import opened Random
  import opened Tunnel

  // ---------------------------------------------------------------------------
  // Boundary attenuation
  // ---------------------------------------------------------------------------

  /** Distance from the canvas's horizontal midline, in units of 1.5 inlet half-heights. */
  function RelativeDistance(cfg: Config, lm: Landmarks, y: real): real
    requires lm.HalfInlet() != 0.0
  {
    Abs(y - cfg.height / 2.0) / (lm.HalfInlet() * 1.5)
  }

  function Square(q: real): real {
    q * q
  }

  /** The product of two positive numbers is positive. */
  lemma ProductPositive(a: real, b: real, s: real)
    requires a > 0.0 && b > 0.0 && s == a * b
    ensures s > 0.0
  {
    MulStrict(b, 0.0, a);
  }

  /** Squares are non-negative, and zero only at zero. */
  lemma SquareNonNegative(q: real)
    ensures Square(q) >= 0.0
    ensures q != 0.0 ==> Square(q) > 0.0
  {
    if q > 0.0 {
      ProductPositive(q, q, Square(q));
    } else if q < 0.0 {
      ProductPositive(-q, -q, Square(q));
    }
  }

  /** The attenuation profile at relative distance `q`: one minus its square, clamped to
      `[0.1, 1.0]`. It is one exactly at zero distance and bottoms out at 0.1 exactly where the
      parabola would drop to 0.1 or below. */
  function Attenuation(q: real): (f: real)
    ensures 0.1 <= f <= 1.0
    ensures f == 1.0 <==> q == 0.0
    ensures f == 0.1 <==> Square(q) >= 0.9
  {
    SquareNonNegative(q);
    Clip(1.0 - Square(q), 0.1, 1.0)
  }

  /** The attenuation of the axial flow at height `y`. */
  function BoundaryFactor(cfg: Config, lm: Landmarks, y: real): (f: real)
    requires lm.HalfInlet() != 0.0
    ensures 0.1 <= f <= 1.0
    // full speed exactly on the midline ...
    ensures f == 1.0 <==> y == cfg.height / 2.0
    // ... and the floor exactly where the parabola drops to 0.1 or below
    ensures f == 0.1 <==> Square(RelativeDistance(cfg, lm, y)) >= 0.9
  {
    var q := RelativeDistance(cfg, lm, y);
    assert q == 0.0 <==> Abs(y - cfg.height / 2.0) == 0.0;
    Attenuation(q)
  }

  /** Dividing two distances by the same non-zero number keeps their order in magnitude. */
  lemma DivAbsMonotone(a: real, b: real, d: real)
    requires 0.0 <= a <= b && d != 0.0
    ensures Abs(a / d) <= Abs(b / d)
  {
    if d > 0.0 {
      assert b / d - a / d == (b - a) / d;
    } else {
      assert a / d == -(a / -d) && b / d == -(b / -d);
      assert b / -d - a / -d == (b - a) / -d;
    }
  }

  /** Squares grow with magnitude. */
  lemma SquareMonotone(p: real, q: real)
    requires Abs(p) <= Abs(q)
    ensures Square(p) <= Square(q)
  {
    SquareNonNegative(q);
    if p != 0.0 {
      assert p * p == Abs(p) * Abs(p) && q * q == Abs(q) * Abs(q);
      MulMonotone(Abs(p), Abs(p), Abs(q));
      MulMonotone(Abs(q), Abs(p), Abs(q));
    }
  }

  /** The attenuation profile never grows with distance. */
  lemma AttenuationAntitone(q: real, q': real)
    requires Abs(q) <= Abs(q')
    ensures Attenuation(q') <= Attenuation(q)
  {
    SquareMonotone(q, q');
    ClipMonotone(1.0 - Square(q'), 1.0 - Square(q), 0.1, 1.0);
  }

  /** Farther from the midline the flow is never faster. */
  lemma BoundaryFactorAntitone(cfg: Config, lm: Landmarks, y: real, y': real)
    requires lm.HalfInlet() != 0.0
    requires Abs(y - cfg.height / 2.0) <= Abs(y' - cfg.height / 2.0)
    ensures BoundaryFactor(cfg, lm, y') <= BoundaryFactor(cfg, lm, y)
  {
    DivAbsMonotone(Abs(y - cfg.height / 2.0), Abs(y' - cfg.height / 2.0), lm.HalfInlet() * 1.5);
    AttenuationAntitone(RelativeDistance(cfg, lm, y), RelativeDistance(cfg, lm, y'));
  }

  /** The attenuation is symmetric about the midline. */
  lemma BoundaryFactorSymmetric(cfg: Config, lm: Landmarks, d: real)
    requires lm.HalfInlet() != 0.0
    ensures BoundaryFactor(cfg, lm, cfg.height / 2.0 + d) == BoundaryFactor(cfg, lm, cfg.height / 2.0 - d)
  {
    assert Abs(cfg.height / 2.0 + d - cfg.height / 2.0) == Abs(cfg.height / 2.0 - d - cfg.height / 2.0);
  }

  /** On the centreline there is no attenuation, and at one and a half inlet half-heights from
      it the attenuation has reached its floor. */
  lemma BoundaryFactorExtremes(cfg: Config, lm: Landmarks)
    requires lm.HalfInlet() > 0.0
    ensures BoundaryFactor(cfg, lm, cfg.height / 2.0) == 1.0
    ensures BoundaryFactor(cfg, lm, cfg.height / 2.0 + lm.HalfInlet() * 1.5) == 0.1
    ensures BoundaryFactor(cfg, lm, cfg.height / 2.0 - lm.HalfInlet() * 1.5) == 0.1
  {
    var m := lm.HalfInlet() * 1.5;
    var y := cfg.height / 2.0 + m;
    assert Abs(y - cfg.height / 2.0) == m;
    SelfDivide(m);
    assert RelativeDistance(cfg, lm, y) == 1.0;
    BoundaryFactorSymmetric(cfg, lm, lm.HalfInlet() * 1.5);
  }

  // ---------------------------------------------------------------------------
  // Axial flow and throat boost
  // ---------------------------------------------------------------------------

  /** Strictly between the throat's two x positions. */
  predicate InThroat(lm: Landmarks, p: Point) {
    lm.throatStartX < p.x < lm.throatEndX
  }

  /** The factor the throat applies to the axial flow at `p`. */
  function ThroatFactor(cfg: Config, lm: Landmarks, p: Point): real {
    if InThroat(lm, p) then cfg.boostFactor else 1.0
  }

  /** Scaling a positive `m` by `f` in `[0.1, 1]` gives a `v` between a tenth of `m` and `m`,
      equal to `m` exactly when `f` is one. */
  lemma ScaleByFactor(m: real, f: real, v: real)
    requires m > 0.0 && 0.1 <= f <= 1.0 && v == f * m
    ensures 0.0 < 0.1 * m <= v <= m
    ensures v == m <==> f == 1.0
  {
    MulMonotone(m, 0.1, f);
    MulMonotone(m, f, 1.0);
    if f != 1.0 {
      MulStrict(m, f, 1.0);
    }
  }

  /** What a valid configuration promises of the axial speed `v` at `p`: positive, between a tenth
      of and the full boosted base speed, and equal to the full speed exactly on the midline. */
  predicate AxialRange(cfg: Config, lm: Landmarks, p: Point, v: real) {
    && 0.0 < 0.1 * (cfg.baseVelocity * ThroatFactor(cfg, lm, p)) <= v <= cfg.baseVelocity * ThroatFactor(cfg, lm, p)
    && (v == cfg.baseVelocity * ThroatFactor(cfg, lm, p) <==> p.y == cfg.height / 2.0)
  }

  /** The axial speed is in range for any attenuation `f` in `[0.1, 1]` that is one exactly on the
      midline. */
  lemma AttenuatedInRange(cfg: Config, lm: Landmarks, p: Point, f: real, v: real)
    requires 0.1 <= f <= 1.0 && (f == 1.0 <==> p.y == cfg.height / 2.0)
    requires v == if InThroat(lm, p) then cfg.baseVelocity * f * cfg.boostFactor else cfg.baseVelocity * f
    ensures ValidConfig(cfg) ==> AxialRange(cfg, lm, p, v)
  {
    if ValidConfig(cfg) {
      var m := cfg.baseVelocity * ThroatFactor(cfg, lm, p);
      MulStrict(ThroatFactor(cfg, lm, p), 0.0, cfg.baseVelocity);
      assert v == f * m;
      ScaleByFactor(m, f, v);
    }
  }

  /** The axial speed before turbulence: the base speed attenuated by the distance from the
      midline, then multiplied by the boost inside the throat. */
  function AxialSpeed(cfg: Config, lm: Landmarks, p: Point): (v: real)
    requires lm.HalfInlet() != 0.0
    ensures ValidConfig(cfg) ==> AxialRange(cfg, lm, p, v)
  {
    var f := BoundaryFactor(cfg, lm, p.y);
    var v := cfg.baseVelocity * f;
    var r := if InThroat(lm, p) then v * cfg.boostFactor else v;
    AttenuatedInRange(cfg, lm, p, f, r);
    r
  }

  /** Inside the throat the axial flow is exactly `boostFactor` times the flow at the same height
      outside it. */
  lemma ThroatBoost(cfg: Config, lm: Landmarks, p: Point, q: Point)
    requires lm.HalfInlet() != 0.0
    requires p.y == q.y && InThroat(lm, p) && !InThroat(lm, q)
    ensures AxialSpeed(cfg, lm, p) == cfg.boostFactor * AxialSpeed(cfg, lm, q)
  {
  }

  /** The axial speed in terms of a named boundary factor `f`, so callers need not unfold it. */
  lemma AxialSpeedForm(cfg: Config, lm: Landmarks, p: Point, f: real)
    requires lm.HalfInlet() != 0.0 && f == BoundaryFactor(cfg, lm, p.y)
    ensures AxialSpeed(cfg, lm, p) == if InThroat(lm, p) then cfg.baseVelocity * f * cfg.boostFactor else cfg.baseVelocity * f
  {
  }

  /** More attenuation never gives more speed, inside or outside the throat. */
  lemma AttenuationOrder(cfg: Config, boosted: bool, f: real, f': real, v: real, v': real)
    requires ValidConfig(cfg) && f <= f'
    requires v == if boosted then cfg.baseVelocity * f * cfg.boostFactor else cfg.baseVelocity * f
    requires v' == if boosted then cfg.baseVelocity * f' * cfg.boostFactor else cfg.baseVelocity * f'
    ensures v <= v'
  {
    MulMonotone(cfg.baseVelocity, f, f');
    if boosted {
      MulMonotone(cfg.boostFactor, cfg.baseVelocity * f, cfg.baseVelocity * f');
    }
  }

  /** Within the same zone, the axial flow does not depend on x and never grows away from the
      midline: the centreline is the fastest streamline. */
  lemma AxialSpeedAntitone(cfg: Config, lm: Landmarks, p: Point, q: Point)
    requires ValidConfig(cfg) && lm.HalfInlet() != 0.0
    requires InThroat(lm, p) == InThroat(lm, q)
    requires Abs(q.y - cfg.height / 2.0) <= Abs(p.y - cfg.height / 2.0)
    ensures AxialSpeed(cfg, lm, p) <= AxialSpeed(cfg, lm, q)
  {
    var f, f' := BoundaryFactor(cfg, lm, p.y), BoundaryFactor(cfg, lm, q.y);
    BoundaryFactorAntitone(cfg, lm, q.y, p.y);
    AxialSpeedForm(cfg, lm, p, f);
    AxialSpeedForm(cfg, lm, q, f');
    AttenuationOrder(cfg, InThroat(lm, p), f, f', AxialSpeed(cfg, lm, p), AxialSpeed(cfg, lm, q));
  }

  // ---------------------------------------------------------------------------
  // Turbulence
  // ---------------------------------------------------------------------------

  /** One turbulence component from one unit draw: uniform on `[-turbulence, turbulence)`. */
  lemma CentredUnitRange(u: real, t: real)
    ensures Unit(u) && t > 0.0 ==> -t <= (u - 0.5) * 2.0 * t < t
  {
    if Unit(u) && t > 0.0 {
      MulMonotone(t, -1.0, (u - 0.5) * 2.0);
      MulStrict(t, (u - 0.5) * 2.0, 1.0);
    }
  }

  /** One turbulence component from one unit draw: uniform on `[-turbulence, turbulence)`. */
  function Turbulence(cfg: Config, u: real): (t: real)
    ensures Unit(u) && cfg.turbulence >= 0.0 ==> -cfg.turbulence <= t <= cfg.turbulence
    ensures Unit(u) && cfg.turbulence > 0.0 ==> t < cfg.turbulence
  {
    CentredUnitRange(u, cfg.turbulence);
    (u - 0.5) * 2.0 * cfg.turbulence
  }

  /** Turbulence is symmetric about zero: draws mirrored about one half give opposite kicks, and the
      middle draw gives none. */
  lemma TurbulenceOdd(cfg: Config, d: real)
    ensures Turbulence(cfg, 0.5 + d) == -Turbulence(cfg, 0.5 - d)
    ensures Turbulence(cfg, 0.5) == 0.0
  {
  }

  // ---------------------------------------------------------------------------
  // The field
  // ---------------------------------------------------------------------------

  /** The velocity at `p` given its row of turbulence draws: axial flow plus turbulence in x,
      turbulence alone in y. */
  function FieldAt(cfg: Config, lm: Landmarks, p: Point, d: Draw2): Point
    requires lm.HalfInlet() != 0.0
  {
    Point(AxialSpeed(cfg, lm, p) + Turbulence(cfg, d.u), Turbulence(cfg, d.v))
  }

  /** A velocity that departs from the axial flow at `p` by at most the turbulence strength in
      each component. */
  predicate NearAxial(cfg: Config, lm: Landmarks, p: Point, v: Point)
    requires lm.HalfInlet() != 0.0
  {
    && Abs(v.x - AxialSpeed(cfg, lm, p)) <= cfg.turbulence
    && Abs(v.y) <= cfg.turbulence
  }

  /** `get_velocity_field`: one velocity per position, each from its own row of draws. With unit
      draws every velocity is within the turbulence strength of the axial flow. */
  function Field(cfg: Config, lm: Landmarks, pos: seq<Point>, draws: seq<Draw2>): (vel: seq<Point>)
    requires lm.HalfInlet() != 0.0 && |draws| == |pos|
    ensures |vel| == |pos|
    ensures AllUnit2(draws) && cfg.turbulence >= 0.0 ==>
      forall i :: 0 <= i < |pos| ==> NearAxial(cfg, lm, pos[i], vel[i])
  {
    seq(|pos|, i requires 0 <= i < |pos| => FieldAt(cfg, lm, pos[i], draws[i]))
  }

  /** Particles do not interact: a particle's velocity depends only on its own position and draws. */
  lemma FieldIsLocal(cfg: Config, lm: Landmarks, pos: seq<Point>, draws: seq<Draw2>,
                     pos': seq<Point>, draws': seq<Draw2>, i: int, j: int)
    requires lm.HalfInlet() != 0.0 && |draws| == |pos| && |draws'| == |pos'|
    requires 0 <= i < |pos| && 0 <= j < |pos'|
    requires pos[i] == pos'[j] && draws[i] == draws'[j]
    ensures Field(cfg, lm, pos, draws)[i] == Field(cfg, lm, pos', draws')[j]
  {
  }

  /** Without turbulence the field is steady and purely axial. */
  lemma FieldWithoutTurbulence(cfg: Config, lm: Landmarks, pos: seq<Point>, draws: seq<Draw2>, i: int)
    requires lm.HalfInlet() != 0.0 && |draws| == |pos| && 0 <= i < |pos|
    requires cfg.turbulence == 0.0
    ensures Field(cfg, lm, pos, draws)[i] == Point(AxialSpeed(cfg, lm, pos[i]), 0.0)
  {
  }
}
