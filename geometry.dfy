/** Plane geometry used by the game systems: 2-D vectors over the reals,
    absolute value, minimum, clamping and the axis-aligned box overlap test. */
module Geometry {

  /** A 2-D vector (a translation, a velocity or a sprite size). */
  datatype Vec2 = Vec2(x: real, y: real)

  function Abs(r: real): (a: real)
    ensures a >= 0.0
    ensures a == r || a == -r
  {
    if r < 0.0 then -r else r
  }

  /** The smaller of two reals, as `f32::min` for numbers that are not NaN. */
  function Min(a: real, b: real): (m: real)
    ensures m <= a && m <= b
    ensures m == a || m == b
  {
    if a <= b then a else b
  }

  /** The larger of two reals. */
  function Max(a: real, b: real): (m: real)
    ensures a <= m && b <= m
    ensures m == a || m == b
  {
    if a <= b then b else a
  }

  /** Rust's `f32::clamp`, which panics unless `lo <= hi`: a value below
      `lo` becomes `lo`, one above `hi` becomes `hi`, any other is kept. */
  function Clamp(v: real, lo: real, hi: real): (r: real)
    requires lo <= hi
    ensures lo <= r <= hi
    ensures lo <= v <= hi ==> r == v
    ensures v < lo ==> r == lo
    ensures hi < v ==> r == hi
  {
    if v < lo then lo else if v > hi then hi else v
  }

  /** Two boxes, each given by its centre and its size, overlap when their
      interiors meet on both axes (strict comparisons, so boxes that only
      touch along an edge do not overlap). */
  predicate Overlaps(aPos: Vec2, aSize: Vec2, bPos: Vec2, bSize: Vec2)
  {
    && aPos.x - aSize.x / 2.0 < bPos.x + bSize.x / 2.0
    && aPos.x + aSize.x / 2.0 > bPos.x - bSize.x / 2.0
    && aPos.y - aSize.y / 2.0 < bPos.y + bSize.y / 2.0
    && aPos.y + aSize.y / 2.0 > bPos.y - bSize.y / 2.0
  }
}
