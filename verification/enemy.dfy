/** The enemy (`Enemy`): its type table, capability flags, birth point and
    reset, the health hooks it installs, and one frame of its update
    (state update, gravity, terrain step). The state machine holds the
    seven enemy states; their per-frame rules are in `EnemyStates`. */
module Enemy {
  import opened Base
  import opened Geometry
  import Fsm
  import Health
  import Combat
  import Movement
  import EnemyStates

  datatype Kind = Normal | BossKind

  datatype Enemy = Enemy(kind: Kind, health: Option<Health.Health>, combat: Option<Combat.Stats>,
                         moveSpeed: real, rotateSpeed: real, viewRange: real,
                         canMove: bool, canAttack: bool, body: Movement.Body, birth: Vec3,
                         maxChaseRange: real, machine: Fsm.Machine)

  /** Downward acceleration while airborne. */
  const Gravity: real := 980.0
  /** The combat statistics every enemy starts with. */
  const EnemyStats: Combat.Stats := Combat.Stats(10.0, 5.0, 0.05, 1.5, 0.0)
  const StartHealth: real := 100.0
  /** Ratio at or below which an enemy counts as low on health. */
  const LowHealthRatio: real := 0.3

  /** The seven registered states, in registration order; the id stands for
      the state object's identity. */
  const StateRefs: seq<Fsm.StateRef> :=
    [Fsm.StateRef(0, "Idle"), Fsm.StateRef(1, "Patrol"), Fsm.StateRef(2, "Chase"), Fsm.StateRef(3, "Attack"),
     Fsm.StateRef(4, "Hit"), Fsm.StateRef(5, "Dead"), Fsm.StateRef(6, "Return")]

  /** The name-to-state map after the seven registrations. */
  const RegisteredStates: map<string, Fsm.StateRef> :=
    map["Idle" := StateRefs[0], "Patrol" := StateRefs[1], "Chase" := StateRefs[2], "Attack" := StateRefs[3],
        "Hit" := StateRefs[4], "Dead" := StateRefs[5], "Return" := StateRefs[6]]

  /** `initStateMachine`: register the seven states and change to Idle. */
  function InitMachine(): (r: Fsm.Step)
    ensures r.machine.states == RegisteredStates
    ensures r.machine.current == Some(StateRefs[0]) && r.machine.previous.None?
    ensures r.hooks == [Fsm.OnEnter(StateRefs[0])]
  {
    var m := Fsm.Fresh;
    var m := Fsm.Register(m, Some(StateRefs[0]));
    var m := Fsm.Register(m, Some(StateRefs[1]));
    var m := Fsm.Register(m, Some(StateRefs[2]));
    var m := Fsm.Register(m, Some(StateRefs[3]));
    var m := Fsm.Register(m, Some(StateRefs[4]));
    var m := Fsm.Register(m, Some(StateRefs[5]));
    var m := Fsm.Register(m, Some(StateRefs[6]));
    Fsm.ChangeByName(m, "Idle")
  }

  /** A constructed and initialised enemy standing at `pos`: a normal enemy
      with full health of 100, the enemy combat statistics, both
      capabilities on, at rest on the ground, born where it stands, and in
      the Idle state. */
  function Create(pos: Vec3): (r: (Enemy, seq<Fsm.Hook>))
    ensures var e := r.0;
            e.kind == Normal && e.moveSpeed == 50.0 && e.rotateSpeed == 180.0 && e.viewRange == 200.0 &&
            e.maxChaseRange == 1000.0 && e.canMove && e.canAttack &&
            e.health == Some(Health.Health(StartHealth, StartHealth, false, false)) && Health.Valid(e.health.value) &&
            e.combat == Some(EnemyStats) &&
            e.body == Movement.Body(pos, Zero, true) && e.birth == pos &&
            Fsm.IsInState(e.machine, "Idle") && !IsDead(e)
    ensures r.1 == [Fsm.OnEnter(StateRefs[0])]
  {
    var init := InitMachine();
    var h := Health.Init(Health.Fresh, StartHealth).1;
    (Enemy(Normal, Some(h), Some(EnemyStats), 50.0, 180.0, 200.0, true, true,
           Movement.Body(pos, Zero, true), pos, 1000.0, init.machine), init.hooks)
  }

  /** `isDead`: false without a health component. */
  function IsDead(e: Enemy): (r: bool)
    ensures e.health.None? ==> !r
    ensures e.health.Some? ==> (r <==> e.health.value.dead)
  {
    e.health.Some? && e.health.value.dead
  }

  /** `canMove` and `canAttack`: the flag and not dead. */
  function CanMove(e: Enemy): (r: bool)
    ensures IsDead(e) ==> !r
    ensures !IsDead(e) ==> (r <==> e.canMove)
  {
    e.canMove && !IsDead(e)
  }

  /** Same rule for attacking. */
  function CanAttack(e: Enemy): (r: bool)
    ensures IsDead(e) ==> !r
    ensures !IsDead(e) ==> (r <==> e.canAttack)
  {
    e.canAttack && !IsDead(e)
  }

  /** A dead enemy can neither move nor attack, whatever its flags say;
      an enemy without health never counts as dead. */
  lemma DeadIsInert(e: Enemy)
    ensures IsDead(e) ==> !CanMove(e) && !CanAttack(e)
    ensures e.health.None? ==> !IsDead(e) && (CanMove(e) <==> e.canMove) && (CanAttack(e) <==> e.canAttack)
  {
  }

  /** `setEnemyType`: the type's speed, turn rate and view range. */
  function SetEnemyType(e: Enemy, k: Kind): (r: Enemy)
    ensures r.kind == k
    ensures k == Normal ==> (r.moveSpeed, r.rotateSpeed, r.viewRange) == (50.0, 180.0, 200.0)
    ensures k == BossKind ==> (r.moveSpeed, r.rotateSpeed, r.viewRange) == (40.0, 120.0, 300.0)
    ensures r == e.(kind := k, moveSpeed := r.moveSpeed, rotateSpeed := r.rotateSpeed, viewRange := r.viewRange)
  {
    match k
    case Normal => e.(kind := k, moveSpeed := 50.0, rotateSpeed := 180.0, viewRange := 200.0)
    case BossKind => e.(kind := k, moveSpeed := 40.0, rotateSpeed := 120.0, viewRange := 300.0)
  }

  /** `setBirthPosition` also moves the enemy there. */
  function SetBirthPosition(e: Enemy, p: Vec3): (r: Enemy)
    ensures r.birth == p && r.body.pos == p
    ensures r == e.(birth := p, body := e.body.(pos := p))
  {
    e.(birth := p, body := e.body.(pos := p))
  }

  /** The constructor's speeds and view range are the normal row of the
      type table, so setting the normal type on a new enemy changes
      nothing; switching to boss and back restores it. */
  lemma CreateIsNormalType(pos: Vec3)
    ensures SetEnemyType(Create(pos).0, Normal) == Create(pos).0
    ensures SetEnemyType(SetEnemyType(Create(pos).0, BossKind), Normal) == Create(pos).0
  {
  }

  /** A birth point set once is where every later reset returns, wherever
      the enemy has moved in between, and the reset leaves it alive. */
  lemma ResetReturnsToBirth(e: Enemy, p: Vec3, moved: Vec3)
    ensures var r := ResetEnemy(SetBirthPosition(e, p).(body := e.body.(pos := moved))).enemy;
            r.body.pos == p && r.birth == p && !IsDead(r)
  {
  }

  /** What a reset produced: the enemy, the health callbacks fired and the
      state hooks run. */
  datatype Reset = Reset(enemy: Enemy, events: seq<Health.HealthEvent>, hooks: seq<Fsm.Hook>)

  /** `resetEnemy`: full health and alive again, back at the birth point,
      asked into Idle. */
  function ResetEnemy(e: Enemy): (r: Reset)
    ensures r.enemy.body.pos == e.birth && r.enemy.birth == e.birth
    ensures !IsDead(r.enemy)
    ensures e.health.Some? ==> r.enemy.health.Some? && r.enemy.health.value.current == e.health.value.max && r.events == Health.Reset(e.health.value).events
    ensures e.health.None? ==> r.enemy.health.None? && r.events == []
    ensures "Idle" in e.machine.states ==> r.enemy.machine.current == Some(e.machine.states["Idle"])
    ensures r.enemy.canMove == e.canMove && r.enemy.canAttack == e.canAttack && r.enemy.kind == e.kind
  {
    var hr := if e.health.Some? then Some(Health.Reset(e.health.value)) else None;
    var step := Fsm.ChangeByName(e.machine, "Idle");
    Reset(e.(health := if hr.Some? then Some(hr.value.health) else None,
             body := e.body.(pos := e.birth), machine := step.machine),
          if hr.Some? then hr.value.events else [], step.hooks)
  }

  /** `getHealthRatio`: 1 without a health component. */
  function HealthRatio(e: Enemy): (p: real)
    ensures e.health.None? ==> p == 1.0
    ensures e.health.Some? && Health.Valid(e.health.value) ==> 0.0 <= p <= 1.0
    ensures e.health.Some? && e.health.value.max > 0.0 ==> p * e.health.value.max == e.health.value.current
  {
    if e.health.Some? then Health.Percentage(e.health.value) else 1.0
  }

  /** `isLowHealth`: never without a health component. */
  function IsLowHealth(e: Enemy): (r: bool)
    ensures e.health.None? ==> !r
  {
    e.health.Some? && Health.Percentage(e.health.value) <= LowHealthRatio
  }

  /** Low health is exactly a ratio of at most 0.3 once a health component
      exists, that is current health at most 0.3 of a positive maximum; an
      enemy without one is neither low nor below full. */
  lemma LowHealthIsLowRatio(e: Enemy)
    ensures e.health.Some? ==> (IsLowHealth(e) <==> HealthRatio(e) <= LowHealthRatio)
    ensures e.health.None? ==> !IsLowHealth(e) && HealthRatio(e) == 1.0
    ensures e.health.Some? && e.health.value.max > 0.0 ==>
              (IsLowHealth(e) <==> e.health.value.current <= LowHealthRatio * e.health.value.max)
  {
    if e.health.Some? && e.health.value.max > 0.0 {
      var h := e.health.value;
      ScaledBounds(h.current, h.max, Health.Percentage(h), LowHealthRatio, LowHealthRatio);
    }
  }

  /** `onHurtCallback`. The hook fires before the health component marks
      itself dead, so `deadNow` is what `isDead` reports at that moment.
      A living boss only asks for Hit; any other enemy loses both
      capabilities and asks for Hit. */
  function OnHurt(e: Enemy, deadNow: bool): (r: (Enemy, seq<Fsm.Hook>))
    ensures var step := Fsm.ChangeByName(e.machine, "Hit");
            r.0.machine == step.machine && r.1 == step.hooks
    ensures e.kind == BossKind && !deadNow ==> r.0 == e.(machine := r.0.machine)
    ensures !(e.kind == BossKind && !deadNow) ==> r.0 == e.(canMove := false, canAttack := false, machine := r.0.machine)
  {
    var step := Fsm.ChangeByName(e.machine, "Hit");
    if e.kind == BossKind && !deadNow then (e.(machine := step.machine), step.hooks)
    else (e.(canMove := false, canAttack := false, machine := step.machine), step.hooks)
  }

  /** `onDeadCallback`: both capabilities off, asked into Dead. */
  function OnDead(e: Enemy): (r: (Enemy, seq<Fsm.Hook>))
    ensures !r.0.canMove && !r.0.canAttack
    ensures "Dead" in e.machine.states ==> r.0.machine.current == Some(e.machine.states["Dead"])
    ensures r.0 == e.(canMove := false, canAttack := false, machine := r.0.machine)
  {
    var step := Fsm.ChangeByName(e.machine, "Dead");
    (e.(canMove := false, canAttack := false, machine := step.machine), step.hooks)
  }

  /** The enemy's reaction to the callbacks of one `takeDamage`, in the
      order the component fires them; the hurt hook runs while the
      component still reports alive. The change hook is not installed by
      an ordinary enemy. */
  function React(e: Enemy, events: seq<Health.HealthEvent>): (r: (Enemy, seq<Fsm.Hook>))
    ensures r.0.health == e.health && r.0.body == e.body && r.0.kind == e.kind
    ensures r.0.machine.states == e.machine.states
    decreases |events|
  {
    if |events| == 0 then (e, [])
    else
      var first := match events[0]
                   case Hurt(_) => OnHurt(e, false)
                   case Died => OnDead(e)
                   case Changed(_, _) => (e, []);
      var rest := React(first.0, events[1..]);
      (rest.0, first.1 + rest.1)
  }

  /** A hit on a living, vulnerable enemy whose machine holds its states:
      the hit always asks for Hit first; a killing hit then moves the enemy
      into Dead with both capabilities off, and a normal enemy loses both
      capabilities in any case while a boss keeps them. */
  lemma {:induction false} HitReaction(e: Enemy, damage: real)
    requires e.health.Some? && !e.health.value.dead && !e.health.value.invincible
    requires "Hit" in e.machine.states && "Dead" in e.machine.states
    requires e.machine.states["Hit"] != e.machine.states["Dead"]
    ensures var hit := Health.TakeDamage(e.health.value, damage);
            var r := React(e.(health := Some(hit.health)), hit.events).0;
            (hit.health.dead ==> r.machine.current == Some(e.machine.states["Dead"]) && !r.canMove && !r.canAttack) &&
            (!hit.health.dead ==> r.machine.current == Some(e.machine.states["Hit"])) &&
            (!hit.health.dead && e.kind == BossKind ==> r.canMove == e.canMove && r.canAttack == e.canAttack) &&
            (e.kind == Normal ==> !r.canMove && !r.canAttack)
  {
    var hit := Health.TakeDamage(e.health.value, damage);
    var e1 := e.(health := Some(hit.health));
    var es := hit.events;
    var h1 := OnHurt(e1, false).0;
    assert es[1..][0] == es[1];
    if hit.health.dead {
      assert es[2..][0] == es[2] && es[1..][1..] == es[2..] && es[2..][1..] == [];
      var h2 := OnDead(h1).0;
      assert React(e1, es).0 == React(h1, es[1..]).0;
      assert React(h1, es[1..]).0 == React(h2, es[2..]).0;
      assert React(h2, es[2..]).0 == React(h2, es[3..]).0;
    } else {
      assert es[1..][1..] == [];
      assert React(e1, es).0 == React(h1, es[1..]).0;
      assert React(h1, es[1..]).0 == React(h1, es[2..]).0;
    }
  }

  /** One frame of `update` once the current state's rule has run: the
      state's position is taken, its requests are applied in order, then
      gravity (unless resting on terrain) and the terrain step rule. The
      probe result is for the position after velocity · dt. */
  function Tick(e: Enemy, stateMove: Vec3, requests: seq<string>, hasTerrain: bool,
                ground: Movement.Ground, dt: real): (r: (Enemy, seq<Fsm.Hook>))
    requires hasTerrain <==> !ground.NoCollider?
    ensures var fsm := Fsm.ChangeAll(e.machine, requests);
            r.0.machine == fsm.machine && r.1 == fsm.hooks
    ensures var fallen := Movement.ApplyGravity(e.body.(pos := stateMove), hasTerrain, Gravity, dt);
            r.0.body == Movement.Settle(fallen, Movement.Advance(fallen, dt), ground, dt)
    ensures r.0 == e.(machine := r.0.machine, body := r.0.body)
  {
    var fsm := Fsm.ChangeAll(e.machine, requests);
    var fallen := Movement.ApplyGravity(e.body.(pos := stateMove), hasTerrain, Gravity, dt);
    (e.(machine := fsm.machine, body := Movement.Settle(fallen, Movement.Advance(fallen, dt), ground, dt)), fsm.hooks)
  }

  /** An enemy resting on terrain does not fall: with no step in its state
      rule and no velocity, a probe that finds the ground at its own height
      leaves it exactly where it was, still on the ground. */
  lemma RestingStaysPut(e: Enemy, dt: real)
    requires e.body.onGround && e.body.vel == Zero
    ensures var r := Tick(e, e.body.pos, [], true, Movement.Hit(Movement.ProbeHeight), dt).0;
            r.body == e.body
  {
  }
}
