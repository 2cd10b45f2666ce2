/** The character/enemy box collider (`CharacterCollider`): a local box
    taken from the model (with a per-mesh recompute and a default when the
    model's box is empty), an optional XZ shrink, the world box derived
    from the owner's transform, and the single-axis horizontal push-out. */
module Collider {
  import opened Base
  import opened Geometry

  datatype CharCollider = CharCollider(aabb: Box, worldAABB: Box)

  /** What the collider reads from a 3D model: its own box and the boxes
      of its meshes (after each mesh recomputes its box). */
  datatype Model = Model(aabb: Box, meshBoxes: seq<Box>)

  /** The box used when the model yields no usable box: 50 × 180 × 50
      standing on the origin. */
  const DefaultBox: Box := Box(Vec3(-25.0, 0.0, -25.0), Vec3(25.0, 180.0, 25.0))

  /** cocos `AABB::merge`: the smallest box holding both. */
  function Merge(a: Box, b: Box): (r: Box)
    ensures Encloses(r, a) && Encloses(r, b)
    ensures forall c :: Encloses(c, a) && Encloses(c, b) ==> Encloses(c, r)
  {
    Box(Vec3(Min(a.min.x, b.min.x), Min(a.min.y, b.min.y), Min(a.min.z, b.min.z)),
        Vec3(Max(a.max.x, b.max.x), Max(a.max.y, b.max.y), Max(a.max.z, b.max.z)))
  }

  /** The first mesh box merged with all the later ones: the smallest box
      holding all of them. */
  function MergeAll(first: Box, rest: seq<Box>): (r: Box)
    ensures Encloses(r, first) && forall k :: 0 <= k < |rest| ==> Encloses(r, rest[k])
    ensures forall c :: Encloses(c, first) && (forall k :: 0 <= k < |rest| ==> Encloses(c, rest[k])) ==> Encloses(c, r)
    ensures first.min.x < first.max.x ==> r.min.x < r.max.x
    decreases |rest|
  {
    if |rest| == 0 then first
    else
      var r := MergeAll(Merge(first, rest[0]), rest[1..]);
      assert forall k :: 1 <= k < |rest| ==> rest[k] == rest[1..][k - 1];
      r
  }

  /** An empty or not-yet-computed box (min.x ≥ max.x). */
  predicate Degenerate(b: Box)
  {
    b.min.x >= b.max.x
  }

  /** The local box before shrinking: the model's box; if degenerate, the
      merge of the mesh boxes (unchanged when there are none); if still
      degenerate, the default box. */
  function LocalBox(m: Model): (b: Box)
    ensures !Degenerate(b)
    ensures !Degenerate(m.aabb) ==> b == m.aabb
    ensures Degenerate(m.aabb) && |m.meshBoxes| > 0 && !Degenerate(MergeAll(m.meshBoxes[0], m.meshBoxes[1..])) ==>
              b == MergeAll(m.meshBoxes[0], m.meshBoxes[1..])
    ensures Degenerate(m.aabb) && (|m.meshBoxes| == 0 || Degenerate(MergeAll(m.meshBoxes[0], m.meshBoxes[1..]))) ==> b == DefaultBox
  {
    var first := if !Degenerate(m.aabb) then m.aabb
                 else if |m.meshBoxes| == 0 then m.aabb
                 else MergeAll(m.meshBoxes[0], m.meshBoxes[1..]);
    if Degenerate(first) then DefaultBox else first
  }

  /** When the model's own box is degenerate and some mesh has a box of
      positive width, the local box is the smallest box holding every mesh
      box. */
  lemma LocalBoxHoldsMeshes(m: Model, j: nat)
    requires Degenerate(m.aabb) && j < |m.meshBoxes| && !Degenerate(m.meshBoxes[j])
    ensures forall k :: 0 <= k < |m.meshBoxes| ==> Encloses(LocalBox(m), m.meshBoxes[k])
    ensures forall c :: (forall k :: 0 <= k < |m.meshBoxes| ==> Encloses(c, m.meshBoxes[k])) ==> Encloses(c, LocalBox(m))
  {
    var first, rest := m.meshBoxes[0], m.meshBoxes[1..];
    var r := MergeAll(first, rest);
    assert forall k :: 1 <= k < |m.meshBoxes| ==> m.meshBoxes[k] == rest[k - 1];
    assert Encloses(r, m.meshBoxes[j]);
    assert !Degenerate(r);
  }

  /** The XZ shrink: for 0 < f < 1 the X and Z extents are scaled by f about
      the unchanged centre and Y is left alone; any other factor leaves the
      box as it is. */
  function Shrink(b: Box, f: real): (r: Box)
    ensures !(0.0 < f < 1.0) ==> r == b
    ensures 0.0 < f < 1.0 ==>
              r.min.y == b.min.y && r.max.y == b.max.y &&
              r.min.x + r.max.x == b.min.x + b.max.x && r.min.z + r.max.z == b.min.z + b.max.z &&
              r.max.x - r.min.x == f * (b.max.x - b.min.x) && r.max.z - r.min.z == f * (b.max.z - b.min.z)
  {
    if f < 1.0 && f > 0.0 then
      var cx := (b.min.x + b.max.x) * 0.5;
      var cz := (b.min.z + b.max.z) * 0.5;
      var hw := (b.max.x - b.min.x) * 0.5 * f;
      var hd := (b.max.z - b.min.z) * 0.5 * f;
      Box(Vec3(cx - hw, b.min.y, cz - hd), Vec3(cx + hw, b.max.y, cz + hd))
    else b
  }

  /** `calculateBoundingBox`: no model changes nothing; otherwise the local
      box is chosen and shrunk, and the world box is left for `update`. */
  function CalculateBoundingBox(c: CharCollider, model: Option<Model>, shrink: real): (r: CharCollider)
    ensures model.None? ==> r == c
    ensures model.Some? ==> r.aabb == Shrink(LocalBox(model.value), shrink) && r.worldAABB == c.worldAABB
    ensures model.Some? && 0.0 < shrink ==> r.aabb.min.x < r.aabb.max.x
  {
    if model.None? then c
    else
      var b := LocalBox(model.value);
      var s := Shrink(b, shrink);
      assert 0.0 < shrink < 1.0 ==> s.max.x - s.min.x == shrink * (b.max.x - b.min.x) > 0.0;
      c.(aabb := s)
  }

  /** `update`: without an owner nothing changes; otherwise the world box
      is the owner's transform applied to the local box. The transform
      (`AABB::transform` with the node-to-world matrix) is a parameter. */
  function Update(c: CharCollider, owner: Option<Box -> Box>): (r: CharCollider)
    ensures r.aabb == c.aabb
    ensures owner.None? ==> r == c
    ensures owner.Some? ==> r.worldAABB == owner.value(c.aabb)
  {
    if owner.None? then c else c.(worldAABB := owner.value(c.aabb))
  }

  /** The world box after an update depends on the local box only, not on
      the previous world box. */
  lemma UpdateForgetsWorldBox(c1: CharCollider, c2: CharCollider, xf: Box -> Box)
    requires c1.aabb == c2.aabb
    ensures Update(c1, Some(xf)) == Update(c2, Some(xf))
  {
  }

  /** `checkCollision`: overlap of the world box with the other box, which
      does not depend on which of the two is asking. */
  function CheckCollision(c: CharCollider, other: Box): (r: bool)
    ensures r <==> Intersects(other, c.worldAABB)
  {
    Intersects(c.worldAABB, other)
  }

  /** The corner where two boxes' overlap starts: the larger minimum on
      each axis. */
  function OverlapStart(a: Box, b: Box): Vec3
  {
    Vec3(if a.min.x < b.min.x then b.min.x else a.min.x,
         if a.min.y < b.min.y then b.min.y else a.min.y,
         if a.min.z < b.min.z then b.min.z else a.min.z)
  }

  /** Two ordered boxes collide exactly when they share a point: the start
      of their overlap lies in both when they collide, and any common point
      makes them collide. */
  lemma CollisionSharesPoint(c: CharCollider, other: Box)
    requires Ordered(c.worldAABB) && Ordered(other)
    ensures CheckCollision(c, other) ==>
              Within(OverlapStart(c.worldAABB, other), c.worldAABB) && Within(OverlapStart(c.worldAABB, other), other)
    ensures forall p :: Within(p, c.worldAABB) && Within(p, other) ==> CheckCollision(c, other)
  {
  }

  /** The signed smaller overlap on one axis: the depth past the other
      box's low face when that is smaller, else minus the depth past its
      high face. */
  function MinOverlap(srcMin: real, srcMax: real, otherMin: real, otherMax: real): real
  {
    var o1 := srcMax - otherMin;
    var o2 := otherMax - srcMin;
    if o1 < o2 then o1 else -o2
  }

  /** `getCollisionOffset`: the push that takes the source box (the given
      one, else the world box) out of `other` along one horizontal axis. */
  function CollisionOffset(c: CharCollider, other: Box, source: Option<Box>): (r: Vec3)
    ensures r.y == 0.0
    ensures r.x == 0.0 || r.z == 0.0
    ensures !Intersects(if source.Some? then source.value else c.worldAABB, other) ==> r == Zero
  {
    var src := if source.Some? then source.value else c.worldAABB;
    if !Intersects(src, other) then Zero
    else
      var mx := MinOverlap(src.min.x, src.max.x, other.min.x, other.max.x);
      var mz := MinOverlap(src.min.z, src.max.z, other.min.z, other.max.z);
      if Abs(mx) < Abs(mz) then Vec3(-mx, 0.0, 0.0) else Vec3(0.0, 0.0, -mz)
  }

  /** Pushing the source by the offset makes one of its faces meet the
      other box's opposite face on the chosen axis, and the push is the
      smaller of the two ways out on that axis. */
  lemma OffsetMeetsFace(src: Box, other: Box)
    requires Intersects(src, other)
    ensures var r := CollisionOffset(CharCollider(src, src), other, None);
            var moved := Translate(src, r);
            var mx := MinOverlap(src.min.x, src.max.x, other.min.x, other.max.x);
            var mz := MinOverlap(src.min.z, src.max.z, other.min.z, other.max.z);
            (Abs(mx) < Abs(mz) ==> (moved.max.x == other.min.x || moved.min.x == other.max.x) &&
                                   Abs(r.x) <= src.max.x - other.min.x && Abs(r.x) <= other.max.x - src.min.x) &&
            (Abs(mx) >= Abs(mz) ==> (moved.max.z == other.min.z || moved.min.z == other.max.z) &&
                                    Abs(r.z) <= src.max.z - other.min.z && Abs(r.z) <= other.max.z - src.min.z)
  {
  }

  /** After the push the boxes only touch, so under the closed overlap
      predicate they still count as intersecting. */
  lemma PushedBoxesTouch(src: Box, other: Box)
    requires Intersects(src, other)
    ensures Intersects(Translate(src, CollisionOffset(CharCollider(src, src), other, None)), other)
  {
  }

  /** The push is never longer than the overlap on the other horizontal
      axis: the shorter way out is taken. */
  lemma OffsetIsShorterWay(src: Box, other: Box)
    requires Intersects(src, other)
    ensures var r := CollisionOffset(CharCollider(src, src), other, None);
            var mx := MinOverlap(src.min.x, src.max.x, other.min.x, other.max.x);
            var mz := MinOverlap(src.min.z, src.max.z, other.min.z, other.max.z);
            Abs(r.x) + Abs(r.z) == Min(Abs(mx), Abs(mz))
  {
  }
}
