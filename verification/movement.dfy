/** The gravity and terrain step rule shared by `Enemy` and `Character`
    (`applyGravity`, `applyMovement`): the body moves by its velocity, the
    terrain is probed by a downward ray from 500 units above the new
    position, and the new ground is taken if it rises less than 40 units
    above the old height; a higher rise is a wall that keeps the old XZ. */
module Movement {
  import opened Base
  import opened Geometry
  import Terrain

  datatype Body = Body(pos: Vec3, vel: Vec3, onGround: bool)

  /** What the ground probe found: no terrain collider at all, a collider
      whose ray query missed, or a hit at the given distance along the ray. */
  datatype Ground = NoCollider | Miss | Hit(dist: real)

  const MaxStepHeight: real := 40.0
  const ProbeHeight: real := 500.0

  /** `applyGravity`: skipped while on ground over a terrain collider;
      otherwise the vertical velocity drops by gravity · dt. */
  function ApplyGravity(b: Body, hasTerrain: bool, gravity: real, dt: real): (r: Body)
    ensures r.pos == b.pos && r.onGround == b.onGround
    ensures r.vel.x == b.vel.x && r.vel.z == b.vel.z
    ensures b.onGround && hasTerrain ==> r == b
    ensures !(b.onGround && hasTerrain) && gravity > 0.0 && dt > 0.0 ==> r.vel.y < b.vel.y
  {
    if b.onGround && hasTerrain then b
    else
      var dv := gravity * dt;
      assert gravity > 0.0 && dt > 0.0 ==> dv > 0.0 by {
        if gravity > 0.0 && dt > 0.0 {
          MulPos(0.0, gravity, dt);
        }
      }
      b.(vel := b.vel.(y := b.vel.y - dv))
  }

  /** The height of the ground a hit reports: the ray starts `ProbeHeight`
      above the new position and runs straight down. */
  function GroundY(newPos: Vec3, dist: real): real
  {
    newPos.y + ProbeHeight - dist
  }

  /** `applyMovement` once the new position (old position plus velocity ·
      dt, possibly pushed out of enemies) and the probe result are known. */
  function Settle(b: Body, newPos: Vec3, ground: Ground, dt: real): (r: Body)
    ensures r.vel.x == b.vel.x && r.vel.z == b.vel.z
    ensures ground.NoCollider? ==>
              r.pos.x == newPos.x && r.pos.z == newPos.z && r.pos.y == Max(newPos.y, 0.0) &&
              (newPos.y <= 0.0 ==> r.onGround && r.vel.y == 0.0) &&
              (newPos.y > 0.0 ==> r.onGround == b.onGround && r.vel == b.vel)
    ensures ground.Miss? ==> r.pos == newPos && !r.onGround && r.vel == b.vel
    ensures ground.Hit? && GroundY(newPos, ground.dist) - b.pos.y < MaxStepHeight ==>
              r.pos == newPos.(y := GroundY(newPos, ground.dist)) &&
              (!b.onGround && b.vel.y <= 0.0 ==> r.onGround && r.vel.y == 0.0) &&
              (b.onGround || b.vel.y > 0.0 ==> r.onGround == b.onGround && r.vel == b.vel)
    ensures ground.Hit? && GroundY(newPos, ground.dist) - b.pos.y >= MaxStepHeight ==>
              r.pos.x == b.pos.x && r.pos.z == b.pos.z &&
              r.pos.y == Max(b.pos.y + b.vel.y * dt, GroundY(newPos, ground.dist)) &&
              (b.pos.y + b.vel.y * dt <= GroundY(newPos, ground.dist) ==> r.onGround && r.vel.y == 0.0)
  {
    match ground
    case NoCollider =>
      if newPos.y <= 0.0 then Body(newPos.(y := 0.0), b.vel.(y := 0.0), true)
      else b.(pos := newPos)
    case Miss =>
      b.(pos := newPos, onGround := false)
    case Hit(dist) =>
      var groundY := GroundY(newPos, dist);
      if groundY - b.pos.y < MaxStepHeight then
        var landed := !b.onGround && b.vel.y <= 0.0;
        Body(newPos.(y := groundY), if landed then b.vel.(y := 0.0) else b.vel, b.onGround || landed)
      else
        var fy := b.pos.y + b.vel.y * dt;
        if fy <= groundY then Body(b.pos.(y := groundY), b.vel.(y := 0.0), true)
        else b.(pos := b.pos.(y := fy))
  }

  /** A rising body over terrain gains no height: with the ground under
      the new position at the body's own height, the body is put back on
      that ground whatever its upward velocity, keeping its velocity and
      its grounded flag. On flat terrain a jump therefore never leaves the
      ground, while gravity drains the upward velocity frame by frame. */
  lemma RisingBodySnapsToGround(b: Body, newPos: Vec3, dist: real, dt: real)
    requires b.vel.y > 0.0 && GroundY(newPos, dist) == b.pos.y
    ensures var r := Settle(b, newPos, Hit(dist), dt);
            r.pos.y == b.pos.y && r.vel == b.vel && r.onGround == b.onGround
  {
  }

  /** After any terrain hit the body ends on or above the reported ground,
      and without a collider it ends on or above y = 0. */
  lemma NeverBelowGround(b: Body, newPos: Vec3, ground: Ground, dt: real)
    ensures ground.Hit? ==> Settle(b, newPos, ground, dt).pos.y >= GroundY(newPos, ground.dist)
    ensures ground.NoCollider? ==> Settle(b, newPos, ground, dt).pos.y >= 0.0
  {
  }

  /** A wall never lets the body through horizontally, and a step never
      lifts it by 40 units or more above where it was. */
  lemma StepOrWall(b: Body, newPos: Vec3, dist: real, dt: real)
    ensures var r := Settle(b, newPos, Hit(dist), dt);
            (r.pos.x != b.pos.x || r.pos.z != b.pos.z ==> r.pos.y - b.pos.y < MaxStepHeight) &&
            (r.pos.y - b.pos.y >= MaxStepHeight ==> r.pos.x == b.pos.x && r.pos.z == b.pos.z)
  {
  }

  /** The new position before any push-out: old position plus velocity · dt. */
  function Advance(b: Body, dt: real): (p: Vec3)
    ensures Sub(p, b.pos) == Scale(b.vel, dt)
  {
    Add(b.pos, Scale(b.vel, dt))
  }

  /** The probe ray from 500 units above a position, pointing down. */
  function ProbeRay(p: Vec3): (ray: Terrain.Ray)
    ensures ray.origin.x == p.x && ray.origin.z == p.z && ray.origin.y == p.y + ProbeHeight
    ensures ray.direction == Vec3(0.0, -1.0, 0.0)
  {
    Terrain.Ray(Add(p, Vec3(0.0, ProbeHeight, 0.0)), Vec3(0.0, -1.0, 0.0))
  }

  /** Runs the terrain ray query for a new position. */
  method Probe(terrain: Option<Terrain.Collider>, newPos: Vec3) returns (g: Ground)
    requires terrain.Some? ==> Terrain.WellIndexed(terrain.value)
    ensures terrain.None? <==> g.NoCollider?
    ensures g.Hit? ==> g.dist > 0.0 && GroundY(newPos, g.dist) < newPos.y + ProbeHeight
    ensures terrain.Some? && Terrain.OriginCell(terrain.value, ProbeRay(newPos).origin).None? ==> g.Miss?
  {
    if terrain.None? {
      return NoCollider;
    }
    var hit := Terrain.RayIntersects(terrain.value, ProbeRay(newPos));
    if hit.Some? {
      g := Hit(hit.value);
    } else {
      g := Miss;
    }
  }
}
