/**
 * Points and screen rectangles, over exact reals.
 * Cartesian2, Cartesian3 and BoundingRectangle of the engine are only used
 * through addition, scaling, minimum and maximum, so reals model them.
 */
module Geometry {

  /** A screen-space coordinate in pixels. */
  datatype Vec2 = Vec2(x: real, y: real)

  /** A world-space position. */
  datatype Vec3 = Vec3(x: real, y: real, z: real)

  /** A screen rectangle: lower-left corner and extent. */
  datatype Rect = Rect(x: real, y: real, width: real, height: real)

  function Max(a: real, b: real): real { if a < b then b else a }

  function Min(a: real, b: real): real { if a < b then a else b }

  /** Component-wise sum (Cartesian3.add). */
  function Add(a: Vec3, b: Vec3): Vec3 {
    Vec3(a.x + b.x, a.y + b.y, a.z + b.z)
  }

  /** Multiplication by a scalar (Cartesian3.multiplyByScalar). */
  function Scale(a: Vec3, s: real): Vec3 {
    Vec3(a.x * s, a.y * s, a.z * s)
  }

  /** True when `outer` covers `inner`. */
  predicate Encloses(outer: Rect, inner: Rect) {
    outer.x <= inner.x && outer.y <= inner.y &&
    inner.x + inner.width <= outer.x + outer.width &&
    inner.y + inner.height <= outer.y + outer.height
  }

  /**
   * The smallest rectangle covering both arguments (BoundingRectangle.union):
   * it encloses both, and each of its four sides lies on a side of one of them.
   */
  function Union(a: Rect, b: Rect): (r: Rect)
    ensures Encloses(r, a) && Encloses(r, b)
    ensures r.x == a.x || r.x == b.x
    ensures r.y == a.y || r.y == b.y
    ensures r.x + r.width == a.x + a.width || r.x + r.width == b.x + b.width
    ensures r.y + r.height == a.y + a.height || r.y + r.height == b.y + b.height
  {
    var left := Min(a.x, b.x);
    var bottom := Min(a.y, b.y);
    var right := Max(a.x + a.width, b.x + b.width);
    var top := Max(a.y + a.height, b.y + b.height);
    Rect(left, bottom, right - left, top - bottom)
  }
}
