/** The area manager (`AreaManager`): two combat areas given as rectangles
    on the ground plane (x, z) and two teleport points. The player's
    position is classified as teleport point, combat area or none;
    near a teleport point the player may teleport to the other one and may
    heal. Distances are compared through their squares: for a length
    d ≥ 0, d < 100 exactly when d * d < 100 * 100 (`DistanceViaSquare`). */
module Areas {
  import opened Base
  import opened Geometry

  datatype AreaType = NoArea | NormalMonster | BossArea | TeleportPoint

  datatype Area = Area(name: string, kind: AreaType, bounds: Rect)
  datatype Teleport = Teleport(name: string, pos: Vec3)
  datatype Manager = Manager(areas: seq<Area>, points: seq<Teleport>)

  /** The interaction distance around a teleport point. */
  const InteractionDistance: real := 100.0

  const PointA: Vec3 := Vec3(300.0, -20.0, 800.0)
  const PointB: Vec3 := Vec3(0.0, 0.0, -960.0)

  /** `init`: the monster area, then the boss area; teleport point A (the
      spawn), then B (the boss gate). */
  function Init(): (m: Manager)
    ensures |m.areas| == 2 && |m.points| == 2
    ensures m.areas[0].kind == NormalMonster && m.areas[1].kind == BossArea
    ensures m.points[0].pos == PointA && m.points[1].pos == PointB
  {
    Manager([Area("NormalMonsterArea", NormalMonster, Rect(-100.0, -900.0, 1000.0, 1000.0)),
             Area("BossArea", BossArea, Rect(-1200.0, -400.0, 2000.0, 2000.0))],
            [Teleport("Point_A_Spawn", PointA), Teleport("Point_B_BossGate", PointB)])
  }

  /** Within the interaction distance of `q`. */
  predicate Near(p: Vec3, q: Vec3)
  {
    DistSq(p, q) < InteractionDistance * InteractionDistance
  }

  /** Comparing a distance d ≥ 0 with the interaction distance is the same
      as comparing d * d with its square. */
  lemma DistanceViaSquare(p: Vec3, q: Vec3, d: real)
    requires d >= 0.0 && d * d == DistSq(p, q)
    ensures d < InteractionDistance <==> Near(p, q)
  {
    if d >= InteractionDistance {
      SquareAtLeast(InteractionDistance, d);
    } else {
      SquareBelow(d, InteractionDistance);
    }
  }

  /** Squaring keeps a strict order between non-negative reals:
      k * k - d * d = (k - d)(k + d) > 0. */
  lemma SquareBelow(d: real, k: real)
    requires 0.0 <= d < k
    ensures d * d < k * k
  {
    MulPos(0.0, k - d, k + d);
    assert (k - d) * (k + d) == k * k - d * d;
  }

  /** Squaring keeps a non-strict order between positive reals:
      d * d - k * k = (d - k)(d + k) >= 0. */
  lemma SquareAtLeast(k: real, d: real)
    requires 0.0 < k <= d
    ensures k * k <= d * d
  {
    MulPos(0.0, d - k, d + k);
    assert (d - k) * (d + k) == d * d - k * k;
  }

  /** The scan of `isNearTeleportPoint` from index `i` on. */
  function FirstNear(points: seq<Teleport>, p: Vec3, i: nat): (r: int)
    requires i <= |points|
    ensures r == -1 || i <= r < |points|
    ensures r >= 0 ==> Near(p, points[r].pos) && forall j :: i <= j < r ==> !Near(p, points[j].pos)
    ensures r == -1 ==> forall j :: i <= j < |points| ==> !Near(p, points[j].pos)
    decreases |points| - i
  {
    if i == |points| then -1
    else if Near(p, points[i].pos) then i
    else FirstNear(points, p, i + 1)
  }

  /** `isNearTeleportPoint`: whether some point is near, and the lowest
      index of one (−1 when none is). */
  function IsNearTeleportPoint(m: Manager, p: Vec3): (r: (bool, int))
    ensures r.0 <==> exists j :: 0 <= j < |m.points| && Near(p, m.points[j].pos)
    ensures r.0 ==> 0 <= r.1 < |m.points| && Near(p, m.points[r.1].pos) &&
                    forall j :: 0 <= j < r.1 ==> !Near(p, m.points[j].pos)
    ensures !r.0 ==> r.1 == -1
  {
    var i := FirstNear(m.points, p, 0);
    (i >= 0, i)
  }

  /** The first area whose rectangle holds the ground position, in list
      order. */
  function FirstArea(areas: seq<Area>, p: Vec3): (r: AreaType)
    ensures (r == NoArea && forall j :: 0 <= j < |areas| ==> !ContainsPoint(areas[j].bounds, p.x, p.z)) ||
            exists j :: 0 <= j < |areas| && ContainsPoint(areas[j].bounds, p.x, p.z) && r == areas[j].kind &&
                        forall k :: 0 <= k < j ==> !ContainsPoint(areas[k].bounds, p.x, p.z)
    decreases |areas|
  {
    if |areas| == 0 then NoArea
    else if ContainsPoint(areas[0].bounds, p.x, p.z) then areas[0].kind
    else FirstArea(areas[1..], p)
  }

  /** `getCurrentAreaType`: near a teleport point wins; then the first area
      holding the position; else none. */
  function CurrentAreaType(m: Manager, p: Vec3): (r: AreaType)
    ensures IsNearTeleportPoint(m, p).0 ==> r == TeleportPoint
    ensures !IsNearTeleportPoint(m, p).0 ==> r == FirstArea(m.areas, p)
  {
    if IsNearTeleportPoint(m, p).0 then TeleportPoint else FirstArea(m.areas, p)
  }

  /** In the initial layout, the classification of every position: the
      teleport points, then the monster rectangle, then the boss
      rectangle. A position in both rectangles counts as a monster area,
      because that area is listed first. */
  lemma InitClassifies(p: Vec3)
    ensures var m := Init();
            var inMonster := -100.0 <= p.x <= 900.0 && -900.0 <= p.z <= 100.0;
            var inBoss := -1200.0 <= p.x <= 800.0 && -400.0 <= p.z <= 1600.0;
            CurrentAreaType(m, p) ==
              if Near(p, PointA) || Near(p, PointB) then TeleportPoint
              else if inMonster then NormalMonster
              else if inBoss then BossArea
              else NoArea
  {
    var m := Init();
    var n := IsNearTeleportPoint(m, p);
    if !n.0 {
      assert !Near(p, m.points[0].pos) && !Near(p, m.points[1].pos);
      assert m.areas[1..][1..] == [];
    } else {
      assert Near(p, m.points[n.1].pos);
    }
  }

  /** The origin lies in both rectangles and away from both teleport
      points, and counts as a monster area. */
  lemma OverlapIsMonsterArea()
    ensures CurrentAreaType(Init(), Zero) == NormalMonster
  {
    InitClassifies(Zero);
  }

  /** `teleport`: near point i the player moves to the other point (from 0
      to 1, from any other to 0), and the background music switches to
      the track of the destination; away from every point nothing
      happens. Returns the new position and the track started. */
  function DoTeleport(m: Manager, pos: Vec3): (r: (Vec3, Option<string>))
    requires |m.points| >= 2
    ensures !IsNearTeleportPoint(m, pos).0 ==> r == (pos, None)
    ensures IsNearTeleportPoint(m, pos).0 ==>
              var target := if IsNearTeleportPoint(m, pos).1 == 0 then 1 else 0;
              r.0 == m.points[target].pos &&
              r.1 == Some(if target == 0 then "Audio/game_bgm1.mp3" else "Audio/game_bgm2.mp3")
  {
    var n := IsNearTeleportPoint(m, pos);
    if !n.0 then (pos, None)
    else
      var target := if n.1 == 0 then 1 else 0;
      (m.points[target].pos, Some(if target == 0 then "Audio/game_bgm1.mp3" else "Audio/game_bgm2.mp3"))
  }

  /** In the initial layout teleporting is an A ↔ B swap: from near A the
      player lands on B, and teleporting again from there lands on A. */
  lemma TeleportRoundTrip(p: Vec3)
    requires Near(p, PointA)
    ensures DoTeleport(Init(), p).0 == PointB
    ensures DoTeleport(Init(), DoTeleport(Init(), p).0).0 == PointA
  {
    TeleportFromA(p);
    TeleportFromB();
  }

  lemma TeleportFromA(p: Vec3)
    requires Near(p, PointA)
    ensures DoTeleport(Init(), p).0 == PointB
  {
    var m := Init();
    assert Near(p, m.points[0].pos);
    assert IsNearTeleportPoint(m, p) == (true, 0);
  }

  lemma TeleportFromB()
    ensures DoTeleport(Init(), PointB).0 == PointA
  {
    NearestFromB();
  }

  /** At B, the first point near is B itself, at index 1. */
  lemma NearestFromB()
    ensures IsNearTeleportPoint(Init(), PointB) == (true, 1)
  {
    var ps := Init().points;
    PointsApart();
    assert ps[0].pos == PointA && ps[1].pos == PointB;
    SecondIsFirstNear(ps, PointB);
  }

  /** Of two points, the second is the first one near when only it is. */
  lemma SecondIsFirstNear(ps: seq<Teleport>, p: Vec3)
    requires |ps| == 2 && !Near(p, ps[0].pos) && Near(p, ps[1].pos)
    ensures FirstNear(ps, p, 0) == 1
  {
    assert FirstNear(ps, p, 1) == 1;
  }

  /** B is out of A's reach, and every point is within its own. */
  lemma PointsApart()
    ensures !Near(PointB, PointA) && Near(PointB, PointB)
  {
    assert Sub(PointB, PointA) == Vec3(-300.0, 20.0, -1760.0);
    assert DistSq(PointB, PointA) == 90000.0 + 400.0 + 3097600.0;
    assert Sub(PointB, PointB) == Zero;
  }

  /** `canHeal`: exactly near a teleport point. */
  function CanHeal(m: Manager, p: Vec3): (r: bool)
    ensures r <==> exists j :: 0 <= j < |m.points| && Near(p, m.points[j].pos)
  {
    IsNearTeleportPoint(m, p).0
  }

  /** In the initial layout, healing is allowed exactly where the
      position classifies as a teleport point, and there teleporting
      moves the player to one of the two points. */
  lemma InitHealsAtTeleport(p: Vec3)
    ensures CanHeal(Init(), p) <==> CurrentAreaType(Init(), p) == TeleportPoint
    ensures CanHeal(Init(), p) ==> DoTeleport(Init(), p).0 in {PointA, PointB}
  {
    InitClassifies(p);
    var m := Init();
    if CanHeal(m, p) {
      assert Near(p, m.points[0].pos) || Near(p, m.points[1].pos);
    }
  }
}
