/** The boss's states (`BossStates`): Idle, Chase, Attack, PhaseChange,
    Hit and Dead. Each update is a decision function from the state's own
    data, the boss and what it senses to the next state data, the boss
    (busy flag, multipliers), a position if the state moved it, whether the
    attack's hit check ran, and the state names requested. Entering and
    leaving states set and clear the busy flag. */
module BossStates {
  import opened Base
  import opened Geometry
  import Health
  import Boss

  /** A skill's timing, motion and damage (`BossSkillConfig`). */
  datatype Config = Config(skill: string, anim: string, windup: real, moveTime: real, active: real, recovery: real,
                           dashDistance: real, hitRadius: real, damage: real, lockTarget: bool)

  /** The `getCfg` rows; distances are metres times 100. */
  const Combo3: Config := Config("Combo3", "combo3", 0.35, 0.0, 0.50, 0.65, 0.0, 120.0, 12.0, false)
  const DashSlash: Config := Config("DashSlash", "rush", 0.30, 0.25, 0.15, 0.50, 200.0, 140.0, 16.0, true)
  const GroundSlam: Config := Config("GroundSlam", "groundslam", 0.60, 0.0, 0.20, 0.80, 0.0, 170.0, 20.0, false)
  const Roar: Config := Config("Roar", "roar", 1.0, 0.0, 0.0, 0.0, 0.0, 0.0, 0.0, false)
  const LeapSlam: Config := Config("LeapSlam", "rush", 0.35, 0.35, 0.15, 1.30, 200.0, 300.0, 26.0, true)

  const PhaseChangeTime: real := 3.5
  const HitTime: real := 0.8
  /** Below this squared horizontal length a direction is not normalised. */
  const MinDirLenSq: real := 0.000001
  /** The smallest divisor the Move stage uses for its progress. */
  const MinMoveTime: real := 0.0001

  predicate KnownSkill(name: string)
  {
    name in {"Combo3", "DashSlash", "GroundSlam", "Roar", "LeapSlam"}
  }

  /** `getCfg`: the row of a known skill, the Combo3 row otherwise. */
  function GetCfg(name: string): (r: Config)
    ensures KnownSkill(name) ==> r.skill == name
    ensures !KnownSkill(name) ==> r == Combo3
    ensures r in [Combo3, DashSlash, GroundSlam, Roar, LeapSlam]
    ensures r.moveTime >= 0.0 && r.dashDistance >= 0.0 && r.damage >= 0.0
  {
    if name == "Combo3" then Combo3
    else if name == "DashSlash" then DashSlash
    else if name == "GroundSlam" then GroundSlam
    else if name == "Roar" then Roar
    else if name == "LeapSlam" then LeapSlam
    else Combo3
  }

  /** Only the dashing skills move, and they lock their target. */
  lemma MovingSkills(name: string)
    ensures GetCfg(name).moveTime > 0.0 <==> name in {"DashSlash", "LeapSlam"}
    ensures GetCfg(name).moveTime > 0.0 ==> GetCfg(name).lockTarget && GetCfg(name).dashDistance == 200.0
  {
  }

  /** What the boss senses: dead or not, the player's world position (zero
      without a target), its own world and local positions, the
      horizontal and full lengths of the vector to the player. */
  datatype Sense = Sense(dead: bool, player: Vec3, world: Vec3, pos: Vec3, flatLen: real, dist: real)

  /** The sensed lengths are those of the boss-to-player vector. */
  predicate LengthsFit(s: Sense)
  {
    s.flatLen >= 0.0 && s.flatLen * s.flatLen == HorizontalDistSq(s.player, s.world) &&
    s.dist >= 0.0 && s.dist * s.dist == DistSq(s.player, s.world)
  }

  datatype Stage = Windup | Move | Active | Recovery

  function Rank(s: Stage): nat
  {
    match s
    case Windup => 0
    case Move => 1
    case Active => 2
    case Recovery => 3
  }

  /** The attack state's data: timer, hit flag, stage, the skill's row and
      the dash's start and target points in world space. */
  datatype Attack = Attack(timer: real, didHit: bool, stage: Stage, cfg: Config, start: Vec3, target: Vec3)

  datatype BossState = IdleState | ChaseState | AttackState(attack: Attack) | PhaseChangeState(timer: real)
                     | HitState(timer: real) | DeadState

  function Name(st: BossState): string
  {
    match st
    case IdleState => "Idle"
    case ChaseState => "Chase"
    case AttackState(_) => "Attack"
    case PhaseChangeState(_) => "PhaseChange"
    case HitState(_) => "Hit"
    case DeadState => "Dead"
  }

  /** One update's result; `move` is a new local position, `hit` whether
      the attack's hit check ran. */
  datatype Outcome = Outcome(state: BossState, boss: Boss.Boss, move: Option<Vec3>, hit: bool, requests: seq<string>)

  // ---------------------------------------------------------------------
  // Attack

  /** Where a locking dash aims: on the horizontal line from the start to
      the player, `max(0, len − dashDistance)` from the start, at the
      start's height. */
  function DashTarget(start: Vec3, player: Vec3, len: real, dashDistance: real): (r: Vec3)
    requires len > 0.0 && len * len == HorizontalDistSq(player, start)
    ensures r.y == start.y
    ensures HorizontalDistSq(r, start) == Max(0.0, len - dashDistance) * Max(0.0, len - dashDistance)
    ensures HorizontalDistSq(player, r) == (len - Max(0.0, len - dashDistance)) * (len - Max(0.0, len - dashDistance))
  {
    var toP := Sub(player, start).(y := 0.0);
    var want := Max(0.0, len - dashDistance);
    var f := want / len;
    var r := Add(start, Scale(toP, f));
    var dx, dz := player.x - start.x, player.z - start.z;
    ShrinkPlanar(dx, dz, f, len);
    ShrinkPlanar(dx, dz, 1.0 - f, len);
    assert f * len == want;
    assert r.x - start.x == dx * f && r.z - start.z == dz * f;
    assert player.x - r.x == dx * (1.0 - f) && player.z - r.z == dz * (1.0 - f);
    r
  }

  /** A dash never passes the player: what remains of the horizontal
      distance is the smaller of the distance and the dash distance. */
  lemma DashStopsShort(start: Vec3, player: Vec3, len: real, dashDistance: real)
    requires len > 0.0 && len * len == HorizontalDistSq(player, start) && dashDistance >= 0.0
    ensures var t := DashTarget(start, player, len, dashDistance);
            HorizontalDistSq(player, t) == Min(len, dashDistance) * Min(len, dashDistance) &&
            HorizontalDistSq(t, start) <= len * len
  {
    var w := Max(0.0, len - dashDistance);
    assert len - w == Min(len, dashDistance);
    assert 0.0 <= w <= len;
    MulPos(w, len, w + len + 1.0 - w);
    assert w * w <= len * len by {
      if w > 0.0 {
        MulPos(w, len, w);
        MulPos(w, len, len);
      }
    }
  }

  /** Attack `onEnter`: busy; the pending skill is consumed (Combo3 when
      none); the skill's row; stage Windup with timer 0 and no hit; the
      target is the player, or for a moving, locking skill with the player
      not straight above, the dash target. */
  function EnterAttack(b: Boss.Boss, s: Sense): (r: (Attack, Boss.Boss))
    requires LengthsFit(s)
    ensures r.1 == b.(busy := true, pending := "")
    ensures r.0.cfg == GetCfg(if Boss.HasPendingSkill(b) then b.pending else "Combo3")
    ensures r.0.stage == Windup && r.0.timer == 0.0 && !r.0.didHit && r.0.start == s.world
    ensures var c := r.0.cfg;
            c.moveTime > 0.0 && c.lockTarget && HorizontalDistSq(s.player, s.world) > MinDirLenSq ==>
              r.0.target == DashTarget(s.world, s.player, s.flatLen, c.dashDistance)
    ensures var c := r.0.cfg;
            !(c.moveTime > 0.0 && c.lockTarget && HorizontalDistSq(s.player, s.world) > MinDirLenSq) ==>
              r.0.target == s.player
  {
    var skill := if Boss.HasPendingSkill(b) then b.pending else "Combo3";
    var cfg := GetCfg(skill);
    var target :=
      if cfg.moveTime > 0.0 && cfg.lockTarget && HorizontalDistSq(s.player, s.world) > MinDirLenSq then
        assert s.flatLen > 0.0;
        DashTarget(s.world, s.player, s.flatLen, cfg.dashDistance)
      else s.player;
    (Attack(0.0, false, Windup, cfg, s.world, target), b.(busy := true, pending := ""))
  }

  /** `gotoStage`: the new stage with its timer at 0; entering Active
      clears the hit flag. */
  function GotoStage(a: Attack, s: Stage): (r: Attack)
    ensures r.stage == s && r.timer == 0.0 && r.cfg == a.cfg && r.start == a.start && r.target == a.target
    ensures r.didHit == (if s == Active then false else a.didHit)
  {
    a.(stage := s, timer := 0.0, didHit := if s == Active then false else a.didHit)
  }

  /** The Move stage's point: the fraction `min(1, timer / max(0.0001,
      moveTime))` of the way from start to target, at the given height. */
  function DashPoint(a: Attack, timer: real, y: real): (r: Vec3)
    ensures r.y == y
    ensures timer >= 0.0 ==>
              var t01 := Min(1.0, timer / Max(MinMoveTime, a.cfg.moveTime));
              0.0 <= t01 <= 1.0 && r.x == a.start.x + (a.target.x - a.start.x) * t01 &&
              r.z == a.start.z + (a.target.z - a.start.z) * t01
  {
    var denom := Max(MinMoveTime, a.cfg.moveTime);
    var t01 := Min(1.0, timer / denom);
    assert timer >= 0.0 ==> t01 >= 0.0 by {
      if timer >= 0.0 {
        DivUnit(Min(timer, denom), denom);
      }
    }
    Add(a.start, Scale(Sub(a.target, a.start), t01)).(y := y)
  }

  /** Attack `onUpdate`. Dead first. Then the timer runs and: Windup ends at
      `windup` into Move (moving skills) or Active; Move places the boss on
      the dash line and ends at `moveTime` into Active; Active runs the hit
      check once and ends at `active` into Recovery; Recovery ends at
      `recovery`, clears busy and asks for Chase. */
  function AttackUpdate(a: Attack, b: Boss.Boss, s: Sense, dt: real, toParent: Vec3 -> Vec3): (r: Outcome)
    ensures s.dead ==> r == Outcome(AttackState(a), b, None, false, ["Dead"])
    ensures !s.dead ==> r.state.AttackState? && Rank(r.state.attack.stage) >= Rank(a.stage)
    ensures !s.dead && r.state.AttackState? && r.state.attack.stage != a.stage ==> r.state.attack.timer == 0.0
    ensures !s.dead && r.state.AttackState? && r.state.attack.stage == a.stage ==> r.state.attack.timer == a.timer + dt
    ensures !s.dead && a.stage == Windup ==>
              !r.hit && r.move.None? &&
              (a.timer + dt >= a.cfg.windup && a.cfg.moveTime > 0.0 ==> r.state.attack.stage == Move) &&
              (a.timer + dt >= a.cfg.windup && a.cfg.moveTime <= 0.0 ==> r.state.attack.stage == Active && !r.state.attack.didHit) &&
              (a.timer + dt < a.cfg.windup ==> r.state.attack.stage == Windup)
    ensures !s.dead && a.stage == Move ==>
              !r.hit && r.move == Some(toParent(DashPoint(a, a.timer + dt, s.world.y))) &&
              (r.state.attack.stage == Active <==> a.timer + dt >= a.cfg.moveTime) &&
              (r.state.attack.stage == Active ==> !r.state.attack.didHit)
    ensures !s.dead && a.stage == Active ==>
              (r.hit <==> !a.didHit) && r.state.attack.didHit && r.move.None? &&
              (r.state.attack.stage == Recovery <==> a.timer + dt >= a.cfg.active)
    ensures !s.dead && a.stage == Recovery ==>
              !r.hit && r.move.None? && r.state.attack.stage == Recovery &&
              (a.timer + dt >= a.cfg.recovery <==> r.requests == ["Chase"]) &&
              (a.timer + dt >= a.cfg.recovery ==> !r.boss.busy)
    ensures !s.dead ==> r.requests == [] || r.requests == ["Chase"]
    ensures !s.dead && r.requests == [] ==> r.boss == b
    ensures r.boss == b || r.boss == b.(busy := false)
  {
    if s.dead then Outcome(AttackState(a), b, None, false, ["Dead"])
    else
      var t := a.timer + dt;
      var a1 := a.(timer := t);
      match a.stage
      case Windup =>
        if t >= a.cfg.windup then
          Outcome(AttackState(GotoStage(a1, if a.cfg.moveTime > 0.0 then Move else Active)), b, None, false, [])
        else Outcome(AttackState(a1), b, None, false, [])
      case Move =>
        var p := toParent(DashPoint(a, t, s.world.y));
        if t >= a.cfg.moveTime then Outcome(AttackState(GotoStage(a1, Active)), b, Some(p), false, [])
        else Outcome(AttackState(a1), b, Some(p), false, [])
      case Active =>
        var hit := !a.didHit;
        var a2 := a1.(didHit := true);
        if t >= a.cfg.active then Outcome(AttackState(GotoStage(a2, Recovery)), b, None, hit, [])
        else Outcome(AttackState(a2), b, None, hit, [])
      case Recovery =>
        if t >= a.cfg.recovery then Outcome(AttackState(a1), b.(busy := false), None, false, ["Chase"])
        else Outcome(AttackState(a1), b, None, false, [])
  }

  /** Whether a hit check is still to come in this attack. */
  function HitsLeft(a: Attack): nat
  {
    if a.stage == Windup || a.stage == Move || (a.stage == Active && !a.didHit) then 1 else 0
  }

  /** The attack's updates over a run of frames until it asks to leave;
      returns the last attack data and how many hit checks ran. */
  function AttackRun(a: Attack, b: Boss.Boss, s: Sense, dts: seq<real>, toParent: Vec3 -> Vec3): (r: (Attack, nat))
    requires !s.dead
    decreases |dts|
  {
    if |dts| == 0 then (a, 0)
    else
      var o := AttackUpdate(a, b, s, dts[0], toParent);
      var hits := if o.hit then 1 else 0;
      if o.requests != [] then (o.state.attack, hits)
      else
        var rest := AttackRun(o.state.attack, o.boss, s, dts[1..], toParent);
        (rest.0, rest.1 + hits)
  }

  /** The hit check runs at most once per attack: the checks already run
      plus those still to come never exceed one. From the entry state
      (Windup, no hit) an attack checks for a hit at most once. */
  lemma {:induction false} HitOncePerAttack(a: Attack, b: Boss.Boss, s: Sense, dts: seq<real>, toParent: Vec3 -> Vec3)
    requires !s.dead
    ensures AttackRun(a, b, s, dts, toParent).1 <= HitsLeft(a)
    ensures a.stage == Windup ==> AttackRun(a, b, s, dts, toParent).1 <= 1
    decreases |dts|
  {
    if |dts| > 0 {
      var o := AttackUpdate(a, b, s, dts[0], toParent);
      if o.requests == [] {
        HitOncePerAttack(o.state.attack, o.boss, s, dts[1..], toParent);
        assert (if o.hit then 1 else 0) + HitsLeft(o.state.attack) <= HitsLeft(a);
      }
    }
  }

  /** `applyHitOnce`: the player takes `damage × dmgMul` when within the
      skill's hit radius and it has a health component; otherwise nothing. */
  function ApplyHitOnce(cfg: Config, dmgMul: real, dist: real, target: Option<Health.Health>): (r: Option<Health.Outcome>)
    ensures r.Some? <==> dist <= cfg.hitRadius && target.Some?
    ensures r.Some? ==> r.value == Health.TakeDamage(target.value, cfg.damage * dmgMul)
  {
    if dist <= cfg.hitRadius && target.Some? then Some(Health.TakeDamage(target.value, cfg.damage * dmgMul)) else None
  }

  /** The phase-2 damage multiplier never leaves the player with more
      health than the plain multiplier would. */
  lemma BuffNeverWeakens(cfg: Config, dist: real, target: Health.Health)
    requires dist <= cfg.hitRadius && cfg.damage >= 0.0
    ensures ApplyHitOnce(cfg, Boss.Phase2DmgMul, dist, Some(target)).value.health.current <=
            ApplyHitOnce(cfg, 1.0, dist, Some(target)).value.health.current
  {
  }

  // ---------------------------------------------------------------------
  // The other states

  /** Chase `onUpdate`: dead first; a player at the world origin counts as
      no target and asks for Idle; a player (almost) straight above does
      nothing; otherwise the boss steps horizontally toward the player by
      moveSpeed · moveMul · dt, keeping its height. */
  function ChaseUpdate(b: Boss.Boss, s: Sense, dt: real, toParent: Vec3 -> Vec3): (r: Outcome)
    requires LengthsFit(s)
    ensures r.state == ChaseState && r.boss == b && !r.hit
    ensures s.dead ==> r.requests == ["Dead"] && r.move.None?
    ensures !s.dead && s.player == Zero ==> r.requests == ["Idle"] && r.move.None?
    ensures !s.dead && s.player != Zero ==> r.requests == []
    ensures r.move.Some? <==> !s.dead && s.player != Zero && HorizontalDistSq(s.player, s.world) >= MinDirLenSq
    ensures r.move.Some? ==>
              var step := b.enemy.moveSpeed * b.moveMul * dt;
              r.move.value == toParent(Add(s.world, Scale(Sub(s.player, s.world).(y := 0.0), step / s.flatLen)))
  {
    if s.dead then Outcome(ChaseState, b, None, false, ["Dead"])
    else if s.player == Zero then Outcome(ChaseState, b, None, false, ["Idle"])
    else if HorizontalDistSq(s.player, s.world) < MinDirLenSq then Outcome(ChaseState, b, None, false, [])
    else
      var step := b.enemy.moveSpeed * b.moveMul * dt;
      Outcome(ChaseState, b, Some(toParent(Add(s.world, Scale(Sub(s.player, s.world).(y := 0.0), step / s.flatLen)))),
              false, [])
  }

  /** A chase step no longer than the horizontal distance leaves exactly
      the remainder to go, at the boss's own height. */
  lemma ChaseStepsTowardPlayer(b: Boss.Boss, s: Sense, dt: real)
    requires LengthsFit(s) && !s.dead && s.player != Zero && HorizontalDistSq(s.player, s.world) >= MinDirLenSq
    requires 0.0 <= b.enemy.moveSpeed * b.moveMul * dt <= s.flatLen
    ensures var p := Add(s.world, Scale(Sub(s.player, s.world).(y := 0.0), b.enemy.moveSpeed * b.moveMul * dt / s.flatLen));
            var step := b.enemy.moveSpeed * b.moveMul * dt;
            p.y == s.world.y && HorizontalDistSq(s.player, p) == (s.flatLen - step) * (s.flatLen - step)
  {
    var step := b.enemy.moveSpeed * b.moveMul * dt;
    assert s.flatLen > 0.0;
    var k := step / s.flatLen;
    var dx, dz := s.player.x - s.world.x, s.player.z - s.world.z;
    ShrinkPlanar(dx, dz, 1.0 - k, s.flatLen);
    assert (1.0 - k) * s.flatLen == s.flatLen - step by {
      assert k * s.flatLen == step;
    }
  }

  /** PhaseChange `onUpdate`: dead first; at 3.5 s the phase-2 buff, busy
      cleared and Chase. */
  function PhaseChangeUpdate(timer: real, b: Boss.Boss, s: Sense, dt: real): (r: Outcome)
    ensures r.move.None? && !r.hit
    ensures s.dead ==> r == Outcome(PhaseChangeState(timer), b, None, false, ["Dead"])
    ensures !s.dead ==> r.state == PhaseChangeState(timer + dt)
    ensures !s.dead && timer + dt >= PhaseChangeTime ==>
              r.requests == ["Chase"] && !r.boss.busy &&
              r.boss == Boss.ApplyPhase2Buff(b, Boss.Phase2MoveMul, Boss.Phase2DmgMul).(busy := false)
    ensures !s.dead && timer + dt < PhaseChangeTime ==> r.requests == [] && r.boss == b
  {
    if s.dead then Outcome(PhaseChangeState(timer), b, None, false, ["Dead"])
    else
      var t := timer + dt;
      if t >= PhaseChangeTime then
        Outcome(PhaseChangeState(t), Boss.ApplyPhase2Buff(b, Boss.Phase2MoveMul, Boss.Phase2DmgMul).(busy := false),
                None, false, ["Chase"])
      else Outcome(PhaseChangeState(t), b, None, false, [])
  }

  /** Hit `onUpdate`: dead first; at 0.8 s busy cleared and Chase. */
  function HitUpdate(timer: real, b: Boss.Boss, s: Sense, dt: real): (r: Outcome)
    ensures r.move.None? && !r.hit
    ensures s.dead ==> r == Outcome(HitState(timer), b, None, false, ["Dead"])
    ensures !s.dead ==> r.state == HitState(timer + dt)
    ensures !s.dead && timer + dt >= HitTime ==> r.requests == ["Chase"] && r.boss == b.(busy := false)
    ensures !s.dead && timer + dt < HitTime ==> r.requests == [] && r.boss == b
  {
    if s.dead then Outcome(HitState(timer), b, None, false, ["Dead"])
    else
      var t := timer + dt;
      if t >= HitTime then Outcome(HitState(t), b.(busy := false), None, false, ["Chase"])
      else Outcome(HitState(t), b, None, false, [])
  }

  /** The current state's `onUpdate`. Idle only checks for death; Dead
      does nothing. */
  function Update(st: BossState, b: Boss.Boss, s: Sense, dt: real, toParent: Vec3 -> Vec3): (r: Outcome)
    requires LengthsFit(s)
    ensures st.DeadState? ==> r == Outcome(DeadState, b, None, false, [])
    ensures !st.DeadState? && s.dead ==> r.requests == ["Dead"] && r.move.None? && !r.hit && r.boss == b
    ensures Name(r.state) == Name(st)
  {
    match st
    case IdleState => Outcome(IdleState, b, None, false, if s.dead then ["Dead"] else [])
    case ChaseState => ChaseUpdate(b, s, dt, toParent)
    case AttackState(a) => AttackUpdate(a, b, s, dt, toParent)
    case PhaseChangeState(timer) => PhaseChangeUpdate(timer, b, s, dt)
    case HitState(timer) => HitUpdate(timer, b, s, dt)
    case DeadState => Outcome(DeadState, b, None, false, [])
  }

  /** `onEnter` of the named state: Idle and Chase clear busy; Attack,
      PhaseChange, Hit and Dead set it (Attack also consumes the pending
      skill); the timed states start at 0. */
  function Enter(name: string, b: Boss.Boss, s: Sense): (r: Option<(BossState, Boss.Boss)>)
    requires LengthsFit(s)
    ensures r.Some? <==> name in {"Idle", "Chase", "Attack", "PhaseChange", "Hit", "Dead"}
    ensures r.Some? ==> Name(r.value.0) == name
    ensures r.Some? ==> (r.value.1.busy <==> name !in {"Idle", "Chase"})
    ensures r.Some? && name != "Attack" ==> r.value.1 == b.(busy := r.value.1.busy)
    ensures r.Some? && name == "PhaseChange" ==> r.value.0 == PhaseChangeState(0.0)
    ensures r.Some? && name == "Hit" ==> r.value.0 == HitState(0.0)
  {
    if name == "Idle" then Some((IdleState, b.(busy := false)))
    else if name == "Chase" then Some((ChaseState, b.(busy := false)))
    else if name == "Attack" then
      var e := EnterAttack(b, s);
      Some((AttackState(e.0), e.1))
    else if name == "PhaseChange" then Some((PhaseChangeState(0.0), b.(busy := true)))
    else if name == "Hit" then Some((HitState(0.0), b.(busy := true)))
    else if name == "Dead" then Some((DeadState, b.(busy := true)))
    else None
  }

  /** `onExit`: Attack and Hit clear busy; the others change nothing. */
  function Exit(st: BossState, b: Boss.Boss): (r: Boss.Boss)
    ensures st.AttackState? || st.HitState? ==> r == b.(busy := false)
    ensures !(st.AttackState? || st.HitState?) ==> r == b
  {
    if st.AttackState? || st.HitState? then b.(busy := false) else b
  }

  /** While a skill, the phase change, a hit reaction or death plays, the
      boss is busy, so the AI makes no decision; Idle and Chase leave it
      free unless dead. */
  lemma BusyWhilePlaying(name: string, b: Boss.Boss, s: Sense)
    requires LengthsFit(s) && name in {"Attack", "PhaseChange", "Hit", "Dead"}
    ensures Boss.IsBusy(Enter(name, b, s).value.1)
  {
  }
}
