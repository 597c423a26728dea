/** The simulation's constants, the raw tunnel outline and the landmarks read off its fitted copy. */
module Tunnel {
  import opened Geometry

  /** The module-level constants of the simulation, as one value. */
  datatype Config = Config(
    width: real,          // canvas width in pixels
    height: real,         // canvas height in pixels
    padding: real,        // margin kept free around the tunnel
    numParticles: nat,
    sizeMin: real,        // render size of the fastest particles
    sizeMax: real,        // render size of resting particles
    baseVelocity: real,   // axial speed on the centreline
    boostFactor: real,    // extra factor inside the throat
    turbulence: real,     // half-width of the turbulence range
    fps: nat)
  {
    /** The time step: one frame. */
    function Dt(): real
      requires fps > 0
    {
      1.0 / fps as real
    }
  }

  /** Time moves forward. */
  lemma DtPositive(cfg: Config)
    requires cfg.fps > 0
    ensures cfg.Dt() > 0.0
  {
    RecipPositive(cfg.fps as real);
  }

  /** The constants the simulation ships with. */
  const SourceConfig := Config(1920.0, 1080.0, 100.0, 5000, 1.0, 6.0, 50.0, 1.0, 10.0, 30)

  /** What the solver needs of its constants: room inside the padding, ordered render sizes,
      positive speeds and frame rate, and a turbulence range that is not reversed. */
  predicate ValidConfig(cfg: Config) {
    && cfg.width - 2.0 * cfg.padding > 0.0
    && cfg.height - 2.0 * cfg.padding > 0.0
    && cfg.sizeMin <= cfg.sizeMax
    && cfg.baseVelocity > 0.0
    && cfg.boostFactor > 0.0
    && cfg.turbulence >= 0.0
    && cfg.fps > 0
  }

  /** The tunnel outline in its own units: inlet on the left, a throat, and an outlet on the right,
      wider than the throat but narrower than the inlet. */
  const RawTunnel: seq<Point> := [
    Point(0.0, 19.5), Point(31.0, 19.5), Point(89.0, 7.5), Point(134.0, 7.5), Point(234.0, 14.0),
    Point(234.0, -14.0), Point(134.0, -7.5), Point(89.0, -7.5), Point(31.0, -19.5), Point(0.0, -19.5)
  ]

  /** The places the solver reads off the fitted outline. */
  datatype Landmarks = Landmarks(
    inletStart: Point,    // lower end of the inlet segment
    inletEnd: Point,      // upper end of the inlet segment
    throatStartX: real,
    throatEndX: real,
    outletX: real)
  {
    /** Half the height of the inlet, the scale of the boundary attenuation. */
    function HalfInlet(): real {
      (inletEnd.y - inletStart.y) / 2.0
    }
  }

  /** Reads the landmarks off the fitted outline at the vertex positions the simulation uses:
      the inlet runs from vertex 9 to vertex 0, the throat from vertex 2 to vertex 3, and the
      outlet is at vertex 5. */
  function ExtractLandmarks(vs: seq<Point>): Landmarks
    requires |vs| >= 10
  {
    Landmarks(vs[9], vs[0], vs[2].x, vs[3].x, vs[5].x)
  }

  // ---------------------------------------------------------------------------
  // The outline the simulation actually uses
  // ---------------------------------------------------------------------------

  /** The raw outline spans 234 units across and 39 units up, from (0, -19.5). */
  lemma RawTunnelBox()
    ensures |RawTunnel| == 10
    ensures BoxMin(RawTunnel) == Point(0.0, -19.5) && BoxMax(RawTunnel) == Point(234.0, 19.5)
    ensures NonDegenerate(RawTunnel)
  {
    var xs, ys := Xs(RawTunnel), Ys(RawTunnel);
    assert xs == [0.0, 31.0, 89.0, 134.0, 234.0, 234.0, 134.0, 89.0, 31.0, 0.0];
    assert ys == [19.5, 19.5, 7.5, 7.5, 14.0, -14.0, -7.5, -7.5, -19.5, -19.5];
    forall i | 0 <= i < |xs|
      ensures 0.0 <= xs[i] <= 234.0 && -19.5 <= ys[i] <= 19.5
    {
      assert xs[i] in xs && ys[i] in ys;
    }
    MinIsAttainedBound(xs, 0.0, 0);
    MaxIsAttainedBound(xs, 234.0, 4);
    MinIsAttainedBound(ys, -19.5, 8);
    MaxIsAttainedBound(ys, 19.5, 0);
  }

  /** The shape the landmark positions presuppose: ten vertices, a vertical inlet edge from
      vertex 9 up to vertex 0 on the far left, spanning the whole height, and the throat
      vertices 2 and 3 strictly between it and the rightmost vertex 5. */
  predicate TunnelShape(ps: seq<Point>) {
    && |ps| == 10
    && (forall j :: 0 <= j < |ps| ==> ps[0].x <= ps[j].x <= ps[5].x && ps[9].y <= ps[j].y <= ps[0].y)
    && ps[9].x == ps[0].x && ps[9].y < ps[0].y
    && ps[0].x < ps[2].x < ps[3].x < ps[5].x
  }

  /** The shipped outline has that shape and a bounding box of positive area. */
  lemma RawTunnelShape()
    ensures TunnelShape(RawTunnel) && NonDegenerate(RawTunnel)
  {
    RawTunnelBox();
    forall j | 0 <= j < |RawTunnel|
      ensures RawTunnel[0].x <= RawTunnel[j].x <= RawTunnel[5].x
      ensures RawTunnel[9].y <= RawTunnel[j].y <= RawTunnel[0].y
    {
      assert RawTunnel[j] in RawTunnel;
    }
  }

  /** In a similar copy of a tunnel-shaped outline, the inlet is the left edge of the box and
      the outlet its right edge ... */
  lemma ShapeKeepsEdges(r: seq<Point>, ps: seq<Point>, k: real)
    requires TunnelShape(ps) && Similar(r, ps, k) && k > 0.0
    ensures r[9].x == r[0].x == BoxMin(r).x && r[5].x == BoxMax(r).x
  {
    SimilarAxes(r, ps, k);
    ImageKeepsLeast(Xs(r), Xs(ps), k, 0);
    ImageKeepsGreatest(Xs(r), Xs(ps), k, 5);
    assert r[9].x - r[0].x == (ps[9].x - ps[0].x) * k;
  }

  /** ... the throat lies strictly between them ... */
  lemma ShapeKeepsThroat(r: seq<Point>, ps: seq<Point>, k: real)
    requires TunnelShape(ps) && Similar(r, ps, k) && k > 0.0
    ensures r[0].x < r[2].x < r[3].x < r[5].x
  {
    ScaledOffsetOrder(r[0].x, r[2].x, ps[0].x, ps[2].x, k);
    MulOffsets(ps[3].x, ps[2].x, ps[0].x, k);
    ScaledOffsetOrder(r[2].x, r[3].x, ps[2].x, ps[3].x, k);
    MulOffsets(ps[5].x, ps[3].x, ps[0].x, k);
    ScaledOffsetOrder(r[3].x, r[5].x, ps[3].x, ps[5].x, k);
  }

  /** ... and the inlet spans the full height of the box. */
  lemma ShapeKeepsInlet(r: seq<Point>, ps: seq<Point>, k: real)
    requires TunnelShape(ps) && Similar(r, ps, k) && k > 0.0
    ensures r[9].y == BoxMin(r).y && r[0].y == BoxMax(r).y && r[9].y < r[0].y
  {
    SimilarAxes(r, ps, k);
    ImageKeepsLeast(Ys(r), Ys(ps), k, 9);
    ImageKeepsGreatest(Ys(r), Ys(ps), k, 0);
    MulOffsets(ps[0].y, ps[9].y, ps[0].y, k);
    ScaledOffsetOrder(r[9].y, r[0].y, ps[9].y, ps[0].y, k);
  }

  /** For any outline of that shape, fitted onto a canvas, the landmarks sit where the solver
      expects them: the inlet is the left edge of the fitted box and spans its full height, so it
      is centred on the canvas and has positive half-height; the outlet is the right edge of the
      box; and the throat lies strictly between them, all inside the padding. */
  lemma FittedLandmarks(ps: seq<Point>, width: real, height: real, padding: real)
    requires TunnelShape(ps) && NonDegenerate(ps)
    requires width - 2.0 * padding > 0.0 && height - 2.0 * padding > 0.0
    ensures var r := Normalize(ps, width, height, padding);
      var lm := ExtractLandmarks(r);
      && lm.inletStart.x == lm.inletEnd.x == BoxMin(r).x
      && lm.outletX == BoxMax(r).x
      && lm.inletStart.y == BoxMin(r).y && lm.inletEnd.y == BoxMax(r).y
      && lm.inletStart.y + lm.inletEnd.y == height
      && lm.HalfInlet() > 0.0
      && padding <= lm.inletStart.x < lm.throatStartX < lm.throatEndX < lm.outletX <= width - padding
  {
    var r := Normalize(ps, width, height, padding);
    var k := ScaleFactor(ps, width, height, padding);
    ShapeKeepsEdges(r, ps, k);
    ShapeKeepsThroat(r, ps, k);
    ShapeKeepsInlet(r, ps, k);
  }

  /** The landmarks the shipped simulation reads off its fitted outline (lines 42 to 46). */
  function SourceLandmarks(): Landmarks {
    RawTunnelShape();
    ExtractLandmarks(Normalize(RawTunnel, SourceConfig.width, SourceConfig.height, SourceConfig.padding))
  }

  /** The shipped constants meet the solver's needs, and so do the landmarks of the shipped
      outline: a positive inlet half-height, an inlet centred on the canvas, and inlet, throat and
      outlet in order from left to right inside the padding. */
  lemma SourceLandmarksValid()
    ensures ValidConfig(SourceConfig)
    ensures var lm := SourceLandmarks();
      && lm.HalfInlet() > 0.0
      && lm.inletStart.x == lm.inletEnd.x
      && lm.inletStart.y + lm.inletEnd.y == SourceConfig.height
      && SourceConfig.padding <= lm.inletStart.x < lm.throatStartX < lm.throatEndX < lm.outletX
      && lm.outletX <= SourceConfig.width - SourceConfig.padding
  {
    RawTunnelShape();
    FittedLandmarks(RawTunnel, SourceConfig.width, SourceConfig.height, SourceConfig.padding);
  }
}
