/** The per-frame decision rules of the ordinary enemy states (`Idle`,
    `Patrol`, `Chase`, `Attack`, `Hit`, `Dead`, `Return`). Each `onUpdate`
    is a pure function from the state's own data and what the enemy senses
    to the state's new data, the enemy's new position, whether a melee
    strike is resolved, and the state names it asks the machine for, in
    the order it asks. Square roots are not available, so each distance
    and each length a rule normalises by is sensed and passed in. */
module EnemyStates {
  import opened Base
  import opened Geometry

  /** Distance within which Chase and Hit go for an attack. */
  const AttackRange: real := 80.0
  /** Distance at which Patrol and Return count as arrived. */
  const ArriveRadius: real := 10.0
  /** Attack timing: the strike resolves once the timer reaches 0.3 s and
      the cycle ends at 3 s. */
  const StrikeTime: real := 0.3
  const AttackCooldown: real := 3.0
  const HitDuration: real := 0.5
  /** Squared horizontal length below which Chase does not move. */
  const MinChaseLenSq: real := 0.000001

  /** The player as the enemy sees it: absent, or present with its dead
      flag and its distance from the enemy. */
  datatype TargetView = NoTarget | Target(dead: bool, dist: real)

  /** `HasTarget`: a target that is present and not dead. */
  function HasTarget(t: TargetView): (r: bool)
    ensures t.NoTarget? ==> !r
    ensures t.Target? ==> (r <==> !t.dead)
  {
    t.Target? && !t.dead
  }

  /** What one update reads from the enemy and the world. `pos` is the
      enemy's own position, `world` its world position, `player` the
      player's world position; `len` is the length the active state
      normalises its direction by (see `LengthFits`). */
  datatype Sense = Sense(dead: bool, target: TargetView, canMove: bool, canAttack: bool, hasCombat: bool,
                         moveSpeed: real, viewRange: real, maxChaseRange: real, distFromBirth: real,
                         pos: Vec3, world: Vec3, player: Vec3, len: real)

  /** The player is a live target within view range. */
  predicate InView(s: Sense)
  {
    HasTarget(s.target) && s.target.dist <= s.viewRange
  }

  datatype EnemyState =
    | Idle(timer: real, maxIdle: real)
    | Patrol(timer: real, maxPatrol: real, goal: Vec3)
    | Chase(timer: real)
    | Attack(timer: real, attacked: bool)
    | Hit(timer: real)
    | Dead(processed: bool)
    | Return(home: Vec3)

  /** The result of one update. `pos` is the enemy's position afterwards;
      `strike` says whether the melee attack on the target is resolved. */
  datatype Outcome = Outcome(state: EnemyState, pos: Vec3, strike: bool, requests: seq<string>)

  /** `getStateName` of each state. */
  function Name(st: EnemyState): string
  {
    match st
    case Idle(_, _) => "Idle"
    case Patrol(_, _, _) => "Patrol"
    case Chase(_) => "Chase"
    case Attack(_, _) => "Attack"
    case Hit(_) => "Hit"
    case Dead(_) => "Dead"
    case Return(_) => "Return"
  }

  /** The names the enemy's state machine registers its states under. */
  const StateNames: seq<string> := ["Idle", "Patrol", "Chase", "Attack", "Hit", "Dead", "Return"]

  /** The random draws `onEnter` makes: the idle time (drawn from [1, 3]),
      the patrol time (from [3, 7]) and the cosine and sine of the patrol
      angle (drawn from [0, 2π]). */
  datatype Draws = Draws(idleTime: real, patrolTime: real, cos: real, sin: real)

  /** Radius of the circle around the birth point that patrol goals lie on. */
  const PatrolRadius: real := 100.0

  /** `onEnter` of the state registered under `name`: every timer starts at
      0, Attack has not struck yet, Dead is not processed, Patrol aims at
      a point on the patrol circle at the birth height, and Return aims at
      the birth point. An unknown name has no state. */
  function Enter(name: string, birth: Vec3, d: Draws): (r: Option<EnemyState>)
    ensures r.Some? <==> name in StateNames
    ensures r.Some? ==> Name(r.value) == name
    ensures r.Some? && r.value.Idle? ==> r.value == Idle(0.0, d.idleTime)
    ensures r.Some? && r.value.Patrol? ==>
              r.value.timer == 0.0 && r.value.maxPatrol == d.patrolTime && r.value.goal.y == birth.y &&
              r.value.goal.x - birth.x == PatrolRadius * d.cos && r.value.goal.z - birth.z == PatrolRadius * d.sin
    ensures r.Some? && (r.value.Chase? || r.value.Hit?) ==> r.value.timer == 0.0
    ensures r.Some? && r.value.Attack? ==> r.value == Attack(0.0, false)
    ensures r.Some? && r.value.Dead? ==> !r.value.processed
    ensures r.Some? && r.value.Return? ==> r.value.home == birth
  {
    if name == "Idle" then Some(Idle(0.0, d.idleTime))
    else if name == "Patrol" then
      Some(Patrol(0.0, d.patrolTime, Vec3(birth.x + d.cos * PatrolRadius, birth.y, birth.z + d.sin * PatrolRadius)))
    else if name == "Chase" then Some(Chase(0.0))
    else if name == "Attack" then Some(Attack(0.0, false))
    else if name == "Hit" then Some(Hit(0.0))
    else if name == "Dead" then Some(Dead(false))
    else if name == "Return" then Some(Return(birth))
    else None
  }

  /** The sensed `len` is the length the state normalises by: the full
      distance to the patrol goal, the horizontal distance to the player,
      the horizontal distance home. */
  predicate LengthFits(st: EnemyState, s: Sense)
  {
    s.len >= 0.0 &&
    (match st
     case Patrol(_, _, goal) => s.len * s.len == DistSq(goal, s.pos)
     case Chase(_) => s.len * s.len == HorizontalDistSq(s.player, s.world)
     case Return(home) => s.len * s.len == HorizontalDistSq(home, s.pos)
     case _ => true)
  }

  // ---------------------------------------------------------------------
  // The rules, one per state

  /** Idle: after the idle time it asks for Patrol, and a target in view
      then asks for Chase as well; the later request wins. */
  function IdleUpdate(timer: real, maxIdle: real, s: Sense, dt: real): (r: Outcome)
    requires !s.dead
    ensures r.state == Idle(timer + dt, maxIdle) && r.pos == s.pos && !r.strike
    ensures "Patrol" in r.requests <==> timer + dt >= maxIdle
    ensures "Chase" in r.requests <==> InView(s)
    ensures InView(s) ==> r.requests[|r.requests| - 1] == "Chase"
    ensures |r.requests| <= 2
  {
    var t := timer + dt;
    Outcome(Idle(t, maxIdle), s.pos, false,
            (if t >= maxIdle then ["Patrol"] else []) + (if InView(s) then ["Chase"] else []))
  }

  /** Patrol: a target in view asks for Chase at once; otherwise a mobile
      enemy walks toward the goal at its move speed until within 10 units,
      where it asks for Idle; the patrol time running out asks for Idle too. */
  function PatrolUpdate(timer: real, maxPatrol: real, goal: Vec3, s: Sense, dt: real): (r: Outcome)
    requires !s.dead && LengthFits(Patrol(timer, maxPatrol, goal), s)
    ensures r.state == Patrol(timer + dt, maxPatrol, goal) && !r.strike
    ensures InView(s) ==> r.requests == ["Chase"] && r.pos == s.pos
    ensures !InView(s) ==> "Chase" !in r.requests &&
                           (r.requests != [] <==> (s.canMove && s.len <= ArriveRadius) || timer + dt >= maxPatrol) &&
                           forall i :: 0 <= i < |r.requests| ==> r.requests[i] == "Idle"
    ensures r.pos != s.pos ==> !InView(s) && s.canMove && s.len > ArriveRadius
    ensures !InView(s) && s.canMove && s.len > ArriveRadius ==>
              r.pos == Add(s.pos, Scale(Sub(goal, s.pos), s.moveSpeed * dt / s.len))
  {
    var t := timer + dt;
    var st := Patrol(t, maxPatrol, goal);
    if InView(s) then Outcome(st, s.pos, false, ["Chase"])
    else
      var timeout: seq<string> := if t >= maxPatrol then ["Idle"] else [];
      if !s.canMove then Outcome(st, s.pos, false, timeout)
      else if s.len > ArriveRadius then
        Outcome(st, Add(s.pos, Scale(Sub(goal, s.pos), s.moveSpeed * dt / s.len)), false, timeout)
      else Outcome(st, s.pos, false, ["Idle"] + timeout)
  }

  /** Chase: the checks in order are no target, too far from home, out of
      view (each asks for Return), then within attack range and able to
      attack (asks for Attack); otherwise a mobile enemy steps horizontally
      toward the player. The step is taken in world space and mapped back
      to the enemy's own space by `toParent`. */
  function ChaseUpdate(timer: real, s: Sense, dt: real, toParent: Vec3 -> Vec3): (r: Outcome)
    requires !s.dead && LengthFits(Chase(timer), s)
    ensures r.state == Chase(timer + dt) && !r.strike
    ensures r.requests == ["Return"] <==>
              !HasTarget(s.target) || s.distFromBirth > s.maxChaseRange || s.target.dist > s.viewRange
    ensures r.requests == ["Attack"] <==>
              HasTarget(s.target) && s.distFromBirth <= s.maxChaseRange && s.target.dist <= s.viewRange &&
              s.target.dist <= AttackRange && s.canAttack
    ensures r.requests == [] || r.requests == ["Return"] || r.requests == ["Attack"]
    ensures r.pos != s.pos ==> r.requests == [] && s.canMove && HorizontalDistSq(s.player, s.world) > MinChaseLenSq
    ensures r.requests == [] && s.canMove && HorizontalDistSq(s.player, s.world) > MinChaseLenSq ==>
              var dir := Sub(s.player, s.world).(y := 0.0);
              r.pos == toParent(Add(s.world, Scale(dir, s.moveSpeed * dt / s.len)))
  {
    var st := Chase(timer + dt);
    if !HasTarget(s.target) || s.distFromBirth > s.maxChaseRange || s.target.dist > s.viewRange then
      Outcome(st, s.pos, false, ["Return"])
    else if s.target.dist <= AttackRange && s.canAttack then Outcome(st, s.pos, false, ["Attack"])
    else if s.canMove && HorizontalDistSq(s.player, s.world) > MinChaseLenSq then
      var dir := Sub(s.player, s.world).(y := 0.0);
      Outcome(st, toParent(Add(s.world, Scale(dir, s.moveSpeed * dt / s.len))), false, [])
    else Outcome(st, s.pos, false, [])
  }

  /** Attack: the strike resolves at the first update with the timer at
      0.3 s or more (when the enemy has a combat component and a target,
      dead or not); from 3 s on, a live target in view restarts the cycle
      if the enemy can attack and asks for Chase otherwise, and a missing
      or out-of-view target asks for Return. */
  function AttackUpdate(timer: real, attacked: bool, s: Sense, dt: real): (r: Outcome)
    requires !s.dead
    ensures r.state.Attack? && r.pos == s.pos
    ensures r.strike <==> !attacked && timer + dt >= StrikeTime && s.hasCombat && s.target.Target?
    ensures timer + dt < AttackCooldown ==>
              r.requests == [] && r.state == Attack(timer + dt, attacked || timer + dt >= StrikeTime)
    ensures timer + dt >= AttackCooldown ==>
              (r.requests == [] <==> InView(s) && s.canAttack) &&
              (r.requests == [] ==> r.state == Attack(0.0, false)) &&
              (r.requests == ["Chase"] <==> InView(s) && !s.canAttack) &&
              (r.requests == ["Return"] <==> !InView(s))
  {
    var t := timer + dt;
    var fires := !attacked && t >= StrikeTime;
    var strike := fires && s.hasCombat && s.target.Target?;
    var done := attacked || fires;
    if t < AttackCooldown then Outcome(Attack(t, done), s.pos, strike, [])
    else if !HasTarget(s.target) then Outcome(Attack(t, done), s.pos, strike, ["Return"])
    else if s.target.dist <= s.viewRange then
      if s.canAttack then Outcome(Attack(0.0, false), s.pos, strike, [])
      else Outcome(Attack(t, done), s.pos, strike, ["Chase"])
    else Outcome(Attack(t, done), s.pos, strike, ["Return"])
  }

  /** Hit: after 0.5 s, no target asks for Return; within 80 units it asks
      for Attack if the enemy can attack and for Chase otherwise, whatever
      the view range; further out but within view it asks for Chase;
      beyond it asks for Return. */
  function HitUpdate(timer: real, s: Sense, dt: real): (r: Outcome)
    requires !s.dead
    ensures r.state == Hit(timer + dt) && r.pos == s.pos && !r.strike
    ensures timer + dt < HitDuration ==> r.requests == []
    ensures timer + dt >= HitDuration ==>
              (r.requests == ["Attack"] <==> HasTarget(s.target) && s.target.dist <= AttackRange && s.canAttack) &&
              (r.requests == ["Chase"] <==>
                 HasTarget(s.target) &&
                 ((s.target.dist <= AttackRange && !s.canAttack) || AttackRange < s.target.dist <= s.viewRange)) &&
              (r.requests == ["Return"] <==>
                 !HasTarget(s.target) || (s.target.dist > AttackRange && s.target.dist > s.viewRange))
  {
    var t := timer + dt;
    var st := Hit(t);
    if t < HitDuration then Outcome(st, s.pos, false, [])
    else if !HasTarget(s.target) then Outcome(st, s.pos, false, ["Return"])
    else if s.target.dist <= AttackRange then
      Outcome(st, s.pos, false, if s.canAttack then ["Attack"] else ["Chase"])
    else if s.target.dist <= s.viewRange then Outcome(st, s.pos, false, ["Chase"])
    else Outcome(st, s.pos, false, ["Return"])
  }

  /** The distance Return compares with the view range: the target's, or
      `FLT_MAX` without a live target. */
  function ReturnSight(s: Sense): real
  {
    if HasTarget(s.target) then s.target.dist else FltMax
  }

  /** Return: a target within view asks for Chase; otherwise a mobile
      enemy more than 10 units from home (horizontally) steps toward it by
      its move speed, never further than home, and one within 10 units
      snaps its XZ to home (keeping its height) and asks for Patrol. */
  function ReturnUpdate(home: Vec3, s: Sense, dt: real): (r: Outcome)
    requires !s.dead && LengthFits(Return(home), s)
    ensures r.state == Return(home) && !r.strike
    ensures ReturnSight(s) <= s.viewRange ==> r.requests == ["Chase"] && r.pos == s.pos
    ensures ReturnSight(s) > s.viewRange && !s.canMove ==> r.requests == [] && r.pos == s.pos
    ensures ReturnSight(s) > s.viewRange && s.canMove && s.len <= ArriveRadius ==>
              r.requests == ["Patrol"] && r.pos == Vec3(home.x, s.pos.y, home.z)
    ensures ReturnSight(s) > s.viewRange && s.canMove && s.len > ArriveRadius ==>
              r.requests == [] && r.pos.y == s.pos.y &&
              var step := Min(s.moveSpeed * dt, s.len);
              r.pos == Add(s.pos, Scale(Sub(home, s.pos).(y := 0.0), step / s.len))
  {
    if ReturnSight(s) <= s.viewRange then Outcome(Return(home), s.pos, false, ["Chase"])
    else if !s.canMove then Outcome(Return(home), s.pos, false, [])
    else if s.len > ArriveRadius then
      var step := Min(s.moveSpeed * dt, s.len);
      var dir := Sub(home, s.pos).(y := 0.0);
      Outcome(Return(home), Add(s.pos, Scale(dir, step / s.len)), false, [])
    else Outcome(Return(home), Vec3(home.x, s.pos.y, home.z), false, ["Patrol"])
  }

  /** One `onUpdate` of whichever state is current. Every state but Dead
      checks death first and asks for Dead; Dead only marks itself
      processed. */
  function Update(st: EnemyState, s: Sense, dt: real, toParent: Vec3 -> Vec3): (r: Outcome)
    requires LengthFits(st, s)
    ensures st.Dead? ==> r == Outcome(Dead(true), s.pos, false, [])
    ensures !st.Dead? && s.dead ==> r == Outcome(st, s.pos, false, ["Dead"])
    ensures !s.dead ==> "Dead" !in r.requests
    ensures Name(r.state) == Name(st)
  {
    if st.Dead? then Outcome(Dead(true), s.pos, false, [])
    else if s.dead then Outcome(st, s.pos, false, ["Dead"])
    else
      match st
      case Idle(timer, maxIdle) => IdleUpdate(timer, maxIdle, s, dt)
      case Patrol(timer, maxPatrol, goal) => PatrolUpdate(timer, maxPatrol, goal, s, dt)
      case Chase(timer) => ChaseUpdate(timer, s, dt, toParent)
      case Attack(timer, attacked) => AttackUpdate(timer, attacked, s, dt)
      case Hit(timer) => HitUpdate(timer, s, dt)
      case Return(home) => ReturnUpdate(home, s, dt)
  }

  // ---------------------------------------------------------------------
  // Properties

  /** Return's step is clamped to the remaining horizontal distance, so the
      enemy never overshoots home: the remaining distance is exactly the
      old one less the step. */
  lemma ReturnNeverOvershoots(home: Vec3, s: Sense, dt: real)
    requires !s.dead && LengthFits(Return(home), s)
    requires ReturnSight(s) > s.viewRange && s.canMove && s.len > ArriveRadius && s.moveSpeed * dt >= 0.0
    ensures var r := ReturnUpdate(home, s, dt);
            var step := Min(s.moveSpeed * dt, s.len);
            0.0 <= step <= s.len && HorizontalDistSq(home, r.pos) == (s.len - step) * (s.len - step)
  {
    var p := ReturnUpdate(home, s, dt).pos;
    ReturnMovesToward(home, s, dt);
    PlanarStepLeavesRemainder(s.pos, home, s.len, Min(s.moveSpeed * dt, s.len), p);
  }

  /** Out of sight, mobile and not yet home, Return moves horizontally by
      the fraction step / len of the way home. */
  lemma ReturnMovesToward(home: Vec3, s: Sense, dt: real)
    requires !s.dead && LengthFits(Return(home), s)
    requires ReturnSight(s) > s.viewRange && s.canMove && s.len > ArriveRadius
    ensures ReturnUpdate(home, s, dt).pos ==
              Add(s.pos, Scale(Sub(home, s.pos).(y := 0.0), Min(s.moveSpeed * dt, s.len) / s.len))
  {
  }

  /** A horizontal step of length `step` from `from` toward `to`, at
      horizontal distance `len > 0`, leaves `len − step` to go. */
  lemma PlanarStepLeavesRemainder(from: Vec3, to: Vec3, len: real, step: real, p: Vec3)
    requires len > 0.0 && len * len == HorizontalDistSq(to, from)
    requires p == Add(from, Scale(Vec3(to.x - from.x, 0.0, to.z - from.z), step / len))
    ensures HorizontalDistSq(to, p) == (len - step) * (len - step)
  {
    var k := step / len;
    var dx, dz := to.x - from.x, to.z - from.z;
    assert to.x - p.x == dx * (1.0 - k) && to.z - p.z == dz * (1.0 - k);
    ShrinkPlanar(dx, dz, 1.0 - k, len);
    assert (1.0 - k) * len == len - step by {
      assert k * len == step;
    }
  }

  /** Patrol steps straight at its goal: a step no longer than the
      remaining distance leaves exactly the remainder to go. Unlike Return,
      Patrol does not clamp, so a longer step passes the goal. */
  lemma PatrolStepsTowardGoal(timer: real, maxPatrol: real, goal: Vec3, s: Sense, dt: real)
    requires !s.dead && LengthFits(Patrol(timer, maxPatrol, goal), s)
    requires !InView(s) && s.canMove && s.len > ArriveRadius && 0.0 <= s.moveSpeed * dt <= s.len
    ensures var p := PatrolUpdate(timer, maxPatrol, goal, s, dt).pos;
            DistSq(goal, p) == (s.len - s.moveSpeed * dt) * (s.len - s.moveSpeed * dt)
  {
    var p := PatrolUpdate(timer, maxPatrol, goal, s, dt).pos;
    PatrolMovesToward(timer, maxPatrol, goal, s, dt);
    StepLeavesRemainder(s.pos, goal, s.len, s.moveSpeed * dt, p);
  }

  /** Out of view, mobile and not yet arrived, Patrol moves by the
      fraction moveSpeed · dt / len of the way to its goal. */
  lemma PatrolMovesToward(timer: real, maxPatrol: real, goal: Vec3, s: Sense, dt: real)
    requires !s.dead && LengthFits(Patrol(timer, maxPatrol, goal), s)
    requires !InView(s) && s.canMove && s.len > ArriveRadius
    ensures PatrolUpdate(timer, maxPatrol, goal, s, dt).pos == Add(s.pos, Scale(Sub(goal, s.pos), s.moveSpeed * dt / s.len))
  {
  }

  /** A step of length `step` straight from `from` toward `to`, at
      distance `len > 0`, leaves `len − step` to go. */
  lemma StepLeavesRemainder(from: Vec3, to: Vec3, len: real, step: real, p: Vec3)
    requires len > 0.0 && len * len == DistSq(to, from)
    requires p == Add(from, Scale(Sub(to, from), step / len))
    ensures DistSq(to, p) == (len - step) * (len - step)
  {
    var k := step / len;
    var d := Sub(to, from);
    StepRemainder(from, to, k);
    ShrinkSpatial(d, 1.0 - k, len);
    assert (1.0 - k) * len == len - step by {
      assert k * len == step;
    }
  }

  /** Without a live target (and with any finite view range) Return never
      asks for Chase. */
  lemma ReturnWithoutTargetNeverChases(home: Vec3, s: Sense, dt: real)
    requires !s.dead && LengthFits(Return(home), s)
    requires !HasTarget(s.target) && s.viewRange < FltMax
    ensures "Chase" !in ReturnUpdate(home, s, dt).requests
  {
  }

  /** Applying Idle's requests in order ends in Chase whenever a target is
      in view, even when the idle time ran out in the same update. */
  lemma IdleLaterRequestWins(timer: real, maxIdle: real, s: Sense, dt: real)
    requires !s.dead && InView(s) && timer + dt >= maxIdle
    ensures IdleUpdate(timer, maxIdle, s, dt).requests == ["Patrol", "Chase"]
  {
  }

  /** Chase moves at exactly the move speed: with the world and the
      enemy's own space the same, a chasing step covers a horizontal
      distance of moveSpeed · dt and keeps the height. */
  lemma ChaseStepsAtSpeed(timer: real, s: Sense, dt: real)
    requires !s.dead && LengthFits(Chase(timer), s)
    requires HasTarget(s.target) && s.distFromBirth <= s.maxChaseRange && s.target.dist <= s.viewRange
    requires !(s.target.dist <= AttackRange && s.canAttack)
    requires s.canMove && HorizontalDistSq(s.player, s.world) > MinChaseLenSq
    ensures var q := ChaseUpdate(timer, s, dt, p => p).pos;
            q.y == s.world.y && HorizontalDistSq(q, s.world) == (s.moveSpeed * dt) * (s.moveSpeed * dt)
  {
    var dir := Sub(s.player, s.world).(y := 0.0);
    var f := s.moveSpeed * dt / s.len;
    assert s.len * s.len > 0.0;
    var q := ChaseUpdate(timer, s, dt, p => p).pos;
    assert q == Add(s.world, Scale(dir, f));
    assert q.x - s.world.x == dir.x * f && q.z - s.world.z == dir.z * f;
    LevelSpeed(dir, s.moveSpeed * dt, s.len);
  }

  /** Once the hit time is over, Hit always leaves: it asks for exactly
      one of Attack, Chase and Return. */
  lemma HitAlwaysLeaves(timer: real, s: Sense, dt: real)
    requires !s.dead && timer + dt >= HitDuration
    ensures var r := HitUpdate(timer, s, dt).requests;
            r == ["Attack"] || r == ["Chase"] || r == ["Return"]
  {
  }

  /** Every patrol goal lies on the circle of radius 100 around the birth
      point, at the birth height. */
  lemma PatrolGoalOnCircle(birth: Vec3, d: Draws)
    requires d.cos * d.cos + d.sin * d.sin == 1.0
    ensures var st := Enter("Patrol", birth, d).value;
            st.goal.y == birth.y && HorizontalDistSq(st.goal, birth) == PatrolRadius * PatrolRadius
  {
    var g := Enter("Patrol", birth, d).value.goal;
    OnCircle(g, birth, d.cos, d.sin);
  }

  /** A point offset from `c` by (r·cos, r·sin) on the ground plane lies at
      horizontal distance r from it when cos * cos + sin * sin = 1. */
  lemma OnCircle(g: Vec3, c: Vec3, cos: real, sin: real)
    requires cos * cos + sin * sin == 1.0
    requires g.x - c.x == PatrolRadius * cos && g.z - c.z == PatrolRadius * sin
    ensures HorizontalDistSq(g, c) == PatrolRadius * PatrolRadius
  {
    ShrinkPlanar(cos, sin, PatrolRadius, 1.0);
    assert g.x - c.x == cos * PatrolRadius && g.z - c.z == sin * PatrolRadius;
  }

  /** A freshly entered Attack owes one strike: over any run of updates it
      resolves at most one strike more than the cycles it restarts. */
  lemma EnteredAttackStrikesOnce(birth: Vec3, d: Draws, s: Sense, dts: seq<real>)
    requires !s.dead
    ensures var st := Enter("Attack", birth, d).value;
            AttackRun(st.timer, st.attacked, s, dts).2 <= AttackRun(st.timer, st.attacked, s, dts).3 + 1
  {
    StrikeOncePerCycle(0.0, false, s, dts);
  }

  /** Attack states run one after another with the same senses: the
      state afterwards, how many strikes were resolved and how many times
      the cycle restarted. */
  function AttackRun(timer: real, attacked: bool, s: Sense, dts: seq<real>): (r: (real, bool, nat, nat))
    requires !s.dead
    decreases |dts|
  {
    if |dts| == 0 then (timer, attacked, 0, 0)
    else
      var o := AttackUpdate(timer, attacked, s, dts[0]);
      var restart := o.state == Attack(0.0, false) && timer + dts[0] >= AttackCooldown;
      var rest := AttackRun(o.state.timer, o.state.attacked, s, dts[1..]);
      (rest.0, rest.1, rest.2 + (if o.strike then 1 else 0), rest.3 + (if restart then 1 else 0))
  }

  /** The melee strike resolves at most once per attack cycle: over any
      run of updates, strikes never outnumber the restarts plus the one
      strike still owed by the current cycle. */
  lemma {:induction false} StrikeOncePerCycle(timer: real, attacked: bool, s: Sense, dts: seq<real>)
    requires !s.dead
    ensures var r := AttackRun(timer, attacked, s, dts);
            r.2 <= r.3 + (if attacked then 0 else 1)
    decreases |dts|
  {
    if |dts| > 0 {
      var o := AttackUpdate(timer, attacked, s, dts[0]);
      StrikeOncePerCycle(o.state.timer, o.state.attacked, s, dts[1..]);
    }
  }
}
