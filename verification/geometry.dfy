/** Vectors, axis-aligned boxes and rectangles, with the two engine
    predicates the game relies on stated as explicit assumptions:
    box overlap is closed-interval overlap on all three axes, and a
    rectangle contains the points of its closed extent. */
module Geometry {
  import opened Base

  datatype Vec3 = Vec3(x: real, y: real, z: real)

  const Zero: Vec3 := Vec3(0.0, 0.0, 0.0)

  function Add(a: Vec3, b: Vec3): Vec3
  {
    Vec3(a.x + b.x, a.y + b.y, a.z + b.z)
  }

  function Sub(a: Vec3, b: Vec3): Vec3
  {
    Vec3(a.x - b.x, a.y - b.y, a.z - b.z)
  }

  function Scale(a: Vec3, k: real): Vec3
  {
    Vec3(a.x * k, a.y * k, a.z * k)
  }

  function Dot(a: Vec3, b: Vec3): real
  {
    a.x * b.x + a.y * b.y + a.z * b.z
  }

  function Cross(a: Vec3, b: Vec3): Vec3
  {
    Vec3(a.y * b.z - a.z * b.y, a.z * b.x - a.x * b.z, a.x * b.y - a.y * b.x)
  }

  function LengthSq(a: Vec3): real
  {
    Dot(a, a)
  }

  /** Squared distance ignoring height. */
  function HorizontalDistSq(a: Vec3, b: Vec3): real
  {
    (a.x - b.x) * (a.x - b.x) + (a.z - b.z) * (a.z - b.z)
  }

  function DistSq(a: Vec3, b: Vec3): real
  {
    LengthSq(Sub(a, b))
  }

  /** Scaling a planar vector of length `len` by `f` gives length f · len. */
  lemma ShrinkPlanar(dx: real, dz: real, f: real, len: real)
    requires len * len == dx * dx + dz * dz
    ensures (dx * f) * (dx * f) + (dz * f) * (dz * f) == (f * len) * (f * len)
  {
    assert (dx * f) * (dx * f) == f * f * (dx * dx);
    assert (dz * f) * (dz * f) == f * f * (dz * dz);
    assert (f * len) * (f * len) == f * f * (len * len);
  }

  /** A level direction of length `len`, scaled by speed / len, moves at
      exactly `speed`. */
  lemma LevelSpeed(d: Vec3, speed: real, len: real)
    requires len > 0.0 && d.y == 0.0 && len * len == LengthSq(d)
    ensures (d.x * (speed / len)) * (d.x * (speed / len)) + (d.z * (speed / len)) * (d.z * (speed / len)) == speed * speed
  {
    var f := speed / len;
    assert len * len == d.x * d.x + d.z * d.z;
    ShrinkPlanar(d.x, d.z, f, len);
    assert f * len == speed;
  }

  /** A step of fraction k from `from` toward `to` leaves the fraction
      1 − k of the way still to go. */
  lemma StepRemainder(from: Vec3, to: Vec3, k: real)
    ensures Sub(to, Add(from, Scale(Sub(to, from), k))) == Scale(Sub(to, from), 1.0 - k)
  {
    var d := Sub(to, from);
    assert d.x * (1.0 - k) == d.x - d.x * k;
    assert d.y * (1.0 - k) == d.y - d.y * k;
    assert d.z * (1.0 - k) == d.z - d.z * k;
  }

  /** Scaling a vector of length `len` by `f` gives length f · len. */
  lemma ShrinkSpatial(d: Vec3, f: real, len: real)
    requires len * len == LengthSq(d)
    ensures LengthSq(Scale(d, f)) == (f * len) * (f * len)
  {
    assert (d.x * f) * (d.x * f) == f * f * (d.x * d.x);
    assert (d.y * f) * (d.y * f) == f * f * (d.y * d.y);
    assert (d.z * f) * (d.z * f) == f * f * (d.z * d.z);
    assert (f * len) * (f * len) == f * f * (len * len);
  }

  /** An axis-aligned box given by its two corners (cocos `AABB`). */
  datatype Box = Box(min: Vec3, max: Vec3)

  /** cocos `AABB::intersects`, assumed to be closed-interval overlap on
      each of the three axes: boxes that only touch do intersect. */
  predicate Intersects(a: Box, b: Box)
  {
    a.min.x <= b.max.x && b.min.x <= a.max.x &&
    a.min.y <= b.max.y && b.min.y <= a.max.y &&
    a.min.z <= b.max.z && b.min.z <= a.max.z
  }

  /** Each minimum is at most the matching maximum. */
  predicate Ordered(b: Box)
  {
    b.min.x <= b.max.x && b.min.y <= b.max.y && b.min.z <= b.max.z
  }

  /** The point lies in the closed box on all three axes. */
  predicate Within(p: Vec3, b: Box)
  {
    b.min.x <= p.x <= b.max.x && b.min.y <= p.y <= b.max.y && b.min.z <= p.z <= b.max.z
  }

  /** `outer` holds `inner` on all three axes. */
  predicate Encloses(outer: Box, inner: Box)
  {
    outer.min.x <= inner.min.x && inner.max.x <= outer.max.x &&
    outer.min.y <= inner.min.y && inner.max.y <= outer.max.y &&
    outer.min.z <= inner.min.z && inner.max.z <= outer.max.z
  }

  /** Moves both corners of a box by `d`. */
  function Translate(b: Box, d: Vec3): Box
  {
    Box(Add(b.min, d), Add(b.max, d))
  }

  /** A cocos `Rect(x, y, width, height)`. */
  datatype Rect = Rect(x: real, y: real, w: real, h: real)

  /** cocos `Rect::containsPoint`, assumed to be the closed rectangle
      `[x, x + w] × [y, y + h]`. */
  predicate ContainsPoint(r: Rect, px: real, py: real)
  {
    r.x <= px <= r.x + r.w && r.y <= py <= r.y + r.h
  }

  /** A terrain triangle with its precomputed XZ bounds. */
  datatype Triangle = Triangle(v0: Vec3, v1: Vec3, v2: Vec3, minX: real, maxX: real, minZ: real, maxZ: real)

  /** A triangle whose stored XZ bounds are ordered. */
  predicate XZOrdered(t: Triangle)
  {
    t.minX <= t.maxX && t.minZ <= t.maxZ
  }

  /** Builds a triangle with bounds taken over its three vertices, as
      the OBJ loader does. */
  function MakeTriangle(a: Vec3, b: Vec3, c: Vec3): (t: Triangle)
    ensures t.v0 == a && t.v1 == b && t.v2 == c
    ensures XZOrdered(t)
    ensures t.minX <= a.x <= t.maxX && t.minX <= b.x <= t.maxX && t.minX <= c.x <= t.maxX
    ensures t.minZ <= a.z <= t.maxZ && t.minZ <= b.z <= t.maxZ && t.minZ <= c.z <= t.maxZ
    ensures t.minX in {a.x, b.x, c.x} && t.maxX in {a.x, b.x, c.x}
    ensures t.minZ in {a.z, b.z, c.z} && t.maxZ in {a.z, b.z, c.z}
  {
    Triangle(a, b, c, Min3(a.x, b.x, c.x), Max3(a.x, b.x, c.x), Min3(a.z, b.z, c.z), Max3(a.z, b.z, c.z))
  }
}
