/** Optional results, for operations that may run out of supplied random draws. */
module Wrappers {

  datatype Option<+T> = None | Some(value: T)
}

/** Random draws are passed in explicitly; each stands for one call of a uniform generator on [0, 1). */
module Random {

  /** A draw of a uniform generator on the half-open unit interval. */
  predicate Unit(u: real) {
    0.0 <= u < 1.0
  }

  /** One row of a two-column uniform draw: one value per coordinate. */
  datatype Draw2 = Draw2(u: real, v: real)

  predicate Unit2(d: Draw2) {
    Unit(d.u) && Unit(d.v)
  }

  predicate AllUnit2(ds: seq<Draw2>) {
    forall i :: 0 <= i < |ds| ==> Unit2(ds[i])
  }

  /** The three draws consumed when one particle is put back at the inlet:
      its position along the inlet, its forward jitter and its new age. */
  datatype RespawnDraw = RespawnDraw(ratio: real, jitter: real, age: real)

  predicate UnitRespawn(d: RespawnDraw) {
    Unit(d.ratio) && Unit(d.jitter) && Unit(d.age)
  }

  predicate AllUnitRespawn(ds: seq<RespawnDraw>) {
    forall i :: 0 <= i < |ds| ==> UnitRespawn(ds[i])
  }
}
