/** The player character base (`Character`): life state, the integer HP it
    mirrors from its health component, the combo input buffer, the action
    requests (jump, roll, light attack), hit and death handling, respawn,
    and one frame of its update (state rule, gravity, push-out from the
    live enemies, terrain step). */
module Character {
  import opened Base
  import opened Geometry
  import Fsm
  import Health
  import Combat
  import Collider
  import Movement

  /** Where input wants to go: a world-space direction (not necessarily
      unit length) and whether to run. */
  datatype Intent = Intent(dir: Vec3, run: bool)

  /** An enemy as the character sees it: an identity, whether it is dead
      and its world box. */
  datatype Foe = Foe(id: nat, dead: bool, box: Box)

  datatype Character = Character(body: Movement.Body, intent: Intent, hp: int, alive: bool, comboBuffered: bool,
                                 machine: Fsm.Machine, health: Option<Health.Health>, combat: Option<Combat.Stats>,
                                 collider: Collider.CharCollider, enemies: Option<seq<Option<Foe>>>,
                                 walkSpeed: real, runSpeed: real, jumpSpeed: real, gravity: real)

  const WalkSpeed: real := 260.0
  const RunSpeed: real := 420.0
  const JumpSpeed: real := 520.0
  const Gravity: real := 1400.0
  const StartHp: int := 100
  /** Squared intent length above which input counts as wanting to move. */
  const IntentEpsilon: real := 0.000001

  /** The character's combat statistics: attack 20, defense 10, the rest
      as for any combat component. */
  const PlayerStats: Combat.Stats := Combat.DefaultStats.(attackPower := 20.0, defense := 10.0)

  /** The ten registered states, in registration order. */
  const StateRefs: seq<Fsm.StateRef> :=
    [Fsm.StateRef(0, "Idle"), Fsm.StateRef(1, "Move"), Fsm.StateRef(2, "Jump"), Fsm.StateRef(3, "Roll"),
     Fsm.StateRef(4, "Attack1"), Fsm.StateRef(5, "Attack2"), Fsm.StateRef(6, "Attack3"), Fsm.StateRef(7, "Skill"),
     Fsm.StateRef(8, "Hurt"), Fsm.StateRef(9, "Dead")]

  const RegisteredStates: map<string, Fsm.StateRef> :=
    map["Idle" := StateRefs[0], "Move" := StateRefs[1], "Jump" := StateRefs[2], "Roll" := StateRefs[3],
        "Attack1" := StateRefs[4], "Attack2" := StateRefs[5], "Attack3" := StateRefs[6], "Skill" := StateRefs[7],
        "Hurt" := StateRefs[8], "Dead" := StateRefs[9]]

  /** Input wants to move: the intent is longer than the threshold. */
  predicate Moving(i: Intent)
  {
    LengthSq(i.dir) > IntentEpsilon
  }

  /** The state machine after `init`: ten registrations, then Idle entered
      through `init` (no exit, no previous). */
  function InitMachine(): (r: Fsm.Step)
    ensures r.machine.states == RegisteredStates
    ensures r.machine.current == Some(StateRefs[0]) && r.machine.previous.None?
    ensures r.hooks == [Fsm.OnEnter(StateRefs[0])]
  {
    var m := Fsm.Fresh;
    var m := Fsm.Register(m, Some(StateRefs[0]));
    var m := Fsm.Register(m, Some(StateRefs[1]));
    var m := Fsm.Register(m, Some(StateRefs[2]));
    var m := Fsm.Register(m, Some(StateRefs[3]));
    var m := Fsm.Register(m, Some(StateRefs[4]));
    var m := Fsm.Register(m, Some(StateRefs[5]));
    var m := Fsm.Register(m, Some(StateRefs[6]));
    var m := Fsm.Register(m, Some(StateRefs[7]));
    var m := Fsm.Register(m, Some(StateRefs[8]));
    var m := Fsm.Register(m, Some(StateRefs[9]));
    Fsm.Init(m, Some(StateRefs[0]))
  }

  /** A character after construction and `init`: on the ground at `pos`,
      alive with 100 HP backed by a health component of 100, the player's
      combat statistics, no enemies or terrain yet, in Idle. */
  function Create(pos: Vec3, collider: Collider.CharCollider): (r: (Character, seq<Fsm.Hook>))
    ensures r.0.alive && r.0.hp == StartHp && !r.0.comboBuffered && r.0.body.onGround && r.0.body.vel == Zero
    ensures r.0.health == Some(Health.Health(100.0, 100.0, false, false)) && Health.Valid(r.0.health.value)
    ensures r.0.combat == Some(PlayerStats)
    ensures Fsm.IsInState(r.0.machine, "Idle") && r.0.machine.states == RegisteredStates
    ensures r.1 == [Fsm.OnEnter(StateRefs[0])]
  {
    var h := Health.Init(Health.Fresh, 100.0).1;
    var fsm := InitMachine();
    (Character(Movement.Body(pos, Zero, true), Intent(Zero, false), StartHp, true, false, fsm.machine, Some(h),
               Some(PlayerStats), collider, None, WalkSpeed, RunSpeed, JumpSpeed, Gravity), fsm.hooks)
  }

  /** `getHP`: the health component's current health cast to int, else
      the character's own counter. */
  function HP(c: Character): (r: int)
    ensures c.health.Some? && c.health.value.current >= 0.0 ==>
              0 <= r && r as real <= c.health.value.current < r as real + 1.0
    ensures c.health.None? ==> r == c.hp
  {
    if c.health.Some? then Trunc(c.health.value.current) else c.hp
  }

  /** `getMaxHP`: the component's maximum cast to int, else 100. */
  function MaxHP(c: Character): (r: int)
    ensures c.health.Some? && c.health.value.max >= 0.0 ==>
              0 <= r && r as real <= c.health.value.max < r as real + 1.0
    ensures c.health.None? ==> r == StartHp
  {
    if c.health.Some? then Trunc(c.health.value.max) else StartHp
  }

  /** `jump`: only from the ground and alive; the vertical speed becomes
      the jump speed, the character leaves the ground and asks for Jump. */
  function Jump(c: Character): (r: (Character, seq<Fsm.Hook>))
    ensures !c.body.onGround || !c.alive ==> r == (c, [])
    ensures c.body.onGround && c.alive ==>
              var step := Fsm.ChangeByName(c.machine, "Jump");
              r.0 == c.(body := c.body.(vel := c.body.vel.(y := c.jumpSpeed), onGround := false), machine := step.machine) &&
              r.1 == step.hooks
  {
    if !c.body.onGround || !c.alive then (c, [])
    else
      var step := Fsm.ChangeByName(c.machine, "Jump");
      (c.(body := c.body.(vel := c.body.vel.(y := c.jumpSpeed), onGround := false), machine := step.machine), step.hooks)
  }

  /** `roll`: asks for Roll unless dead. */
  function Roll(c: Character): (r: (Character, seq<Fsm.Hook>))
    ensures !c.alive ==> r == (c, [])
    ensures c.alive ==> r.0 == c.(machine := Fsm.ChangeByName(c.machine, "Roll").machine)
  {
    if !c.alive then (c, [])
    else
      var step := Fsm.ChangeByName(c.machine, "Roll");
      (c.(machine := step.machine), step.hooks)
  }

  /** The name of the current state, empty without one. */
  function CurrentName(m: Fsm.Machine): (r: string)
    ensures m.current.Some? ==> Fsm.IsInState(m, r)
    ensures m.current.None? ==> r == ""
  {
    if m.current.Some? then m.current.value.name else ""
  }

  /** The name starts with "Attack". */
  predicate IsAttackName(name: string)
  {
    |name| >= 6 && name[..6] == "Attack"
  }

  /** `attackLight`: nothing when dead; during an attack state only the
      combo buffer is set; otherwise the buffer is cleared and Attack1
      requested. */
  function AttackLight(c: Character): (r: (Character, seq<Fsm.Hook>))
    ensures !c.alive ==> r == (c, [])
    ensures c.alive && IsAttackName(CurrentName(c.machine)) ==> r == (c.(comboBuffered := true), [])
    ensures c.alive && !IsAttackName(CurrentName(c.machine)) ==>
              var step := Fsm.ChangeByName(c.machine, "Attack1");
              r == (c.(comboBuffered := false, machine := step.machine), step.hooks)
  {
    if !c.alive then (c, [])
    else if IsAttackName(CurrentName(c.machine)) then (c.(comboBuffered := true), [])
    else
      var step := Fsm.ChangeByName(c.machine, "Attack1");
      (c.(comboBuffered := false, machine := step.machine), step.hooks)
  }

  /** In any of the three attack states a light attack only buffers the
      next step; from anywhere else (alive) it starts the combo at Attack1. */
  lemma LightAttackBuffersOrStarts(c: Character)
    requires c.alive && c.machine.states == RegisteredStates
    ensures Fsm.IsInState(c.machine, "Attack1") || Fsm.IsInState(c.machine, "Attack2") ||
            Fsm.IsInState(c.machine, "Attack3") ==>
              AttackLight(c).0 == c.(comboBuffered := true)
    ensures !(Fsm.IsInState(c.machine, "Attack1") || Fsm.IsInState(c.machine, "Attack2") ||
              Fsm.IsInState(c.machine, "Attack3")) && (c.machine.current.Some? ==> c.machine.current.value in StateRefs) ==>
              Fsm.IsInState(AttackLight(c).0.machine, "Attack1") && !AttackLight(c).0.comboBuffered
  {
    var n := CurrentName(c.machine);
    if c.machine.current.Some? && c.machine.current.value in StateRefs {
      assert IsAttackName(n) <==> n in {"Attack1", "Attack2", "Attack3"};
    }
  }

  /** `consumeComboBuffered`: returns the flag and clears it. */
  function ConsumeComboBuffered(c: Character): (r: (bool, Character))
    ensures r.0 == c.comboBuffered && !r.1.comboBuffered
    ensures r.1 == c.(comboBuffered := false)
  {
    (c.comboBuffered, c.(comboBuffered := false))
  }

  /** Consuming twice yields nothing the second time. */
  lemma ConsumeOnce(c: Character)
    ensures !ConsumeComboBuffered(ConsumeComboBuffered(c).1).0
  {
  }

  /** `die`: idempotent; the first call zeroes HP, marks the character dead
      and asks for Dead. */
  function Die(c: Character): (r: (Character, seq<Fsm.Hook>))
    ensures !c.alive ==> r == (c, [])
    ensures c.alive ==>
              var step := Fsm.ChangeByName(c.machine, "Dead");
              r == (c.(hp := 0, alive := false, machine := step.machine), step.hooks)
  {
    if !c.alive then (c, [])
    else
      var step := Fsm.ChangeByName(c.machine, "Dead");
      (c.(hp := 0, alive := false, machine := step.machine), step.hooks)
  }

  /** Dying twice is dying once: the second call changes nothing and runs
      no hooks. */
  lemma DieIdempotent(c: Character)
    ensures Die(Die(c).0) == (Die(c).0, [])
    ensures !Die(c).0.alive && (c.alive ==> Die(c).0.hp == 0)
  {
  }

  /** `takeHit`: ignored when dead. The HP is re-read from the health
      component (which has already taken the damage), or reduced by the
      damage without one; at or below 0 the character dies, otherwise it
      asks for Hurt. */
  function TakeHit(c: Character, damage: int): (r: (Character, seq<Fsm.Hook>))
    ensures !c.alive ==> r == (c, [])
    ensures c.alive ==>
              var hp := if c.health.Some? then Trunc(c.health.value.current) else c.hp - damage;
              (hp <= 0 ==> r == Die(c.(hp := hp))) &&
              (hp > 0 ==> r == (c.(hp := hp, machine := Fsm.ChangeByName(c.machine, "Hurt").machine),
                                Fsm.ChangeByName(c.machine, "Hurt").hooks))
  {
    if !c.alive then (c, [])
    else
      var hp := if c.health.Some? then Trunc(c.health.value.current) else c.hp - damage;
      if hp <= 0 then Die(c.(hp := hp))
      else
        var step := Fsm.ChangeByName(c.machine, "Hurt");
        (c.(hp := hp, machine := step.machine), step.hooks)
  }

  /** The character's reaction to the callbacks of one `takeDamage` on its
      health component: the hurt callback calls `takeHit` with the damage
      cast to int, the dead callback calls `die`; no change callback is
      installed. */
  function React(c: Character, events: seq<Health.HealthEvent>): (r: (Character, seq<Fsm.Hook>))
    ensures r.0.health == c.health && r.0.body == c.body && r.0.machine.states == c.machine.states
    ensures !c.alive ==> r == (c, [])
    decreases |events|
  {
    if |events| == 0 then (c, [])
    else
      var first := match events[0]
                   case Hurt(amount) => TakeHit(c, Trunc(amount))
                   case Died => Die(c)
                   case Changed(_, _) => (c, []);
      var rest := React(first.0, events[1..]);
      assert !c.alive ==> first == (c, []) && rest == (c, []) && first.1 + rest.1 == [];
      (rest.0, first.1 + rest.1)
  }

  /** A hit through the health component on a living character whose
      states are registered: the character ends dead in Dead with 0 HP
      exactly when the remaining health is below 1 (the HP is the health
      cast to int, so this includes a component that is still alive with
      a fraction of a point), and otherwise is in Hurt with the truncated
      health as HP. */
  lemma {:induction false} HitThroughHealth(c: Character, damage: real)
    requires c.alive && c.health.Some? && Health.Valid(c.health.value)
    requires !c.health.value.dead && !c.health.value.invincible
    requires c.machine.states == RegisteredStates
    ensures var hit := Health.TakeDamage(c.health.value, damage);
            var r := React(c.(health := Some(hit.health)), hit.events).0;
            (hit.health.current < 1.0 <==> !r.alive) &&
            (!r.alive ==> r.hp == 0 && Fsm.IsInState(r.machine, "Dead")) &&
            (r.alive ==> r.hp == Trunc(hit.health.current) && Fsm.IsInState(r.machine, "Hurt"))
  {
    var hit := Health.TakeDamage(c.health.value, damage);
    var c1 := c.(health := Some(hit.health));
    var es := hit.events;
    assert es[0] == Health.Hurt(Max(damage, 0.0));
    var t1 := TakeHit(c1, Trunc(Max(damage, 0.0))).0;
    assert React(c1, es).0 == React(t1, es[1..]).0;
    var cur := hit.health.current;
    if cur < 1.0 {
      TruncNearZero(cur);
      assert !t1.alive;
      assert React(t1, es[1..]) == (t1, []);
    } else {
      assert Trunc(cur) >= 1;
      assert t1.alive && t1.hp == Trunc(cur);
      assert !hit.health.dead;
      assert es[1..] == [Health.Changed(cur, c.health.value.current)];
      assert es[1..][1..] == [];
      assert React(t1, es[1..]).0 == React(t1, es[2..]).0;
    }
  }

  /** `respawn`: alive again, the health component reset (HP re-read from
      it, else 100), Idle requested. It acts whether or not the character
      was dead. */
  function Respawn(c: Character): (r: (Character, seq<Fsm.Hook>))
    ensures r.0.alive
    ensures c.health.Some? ==> r.0.health == Some(Health.Reset(c.health.value).health) &&
                               r.0.hp == Trunc(c.health.value.max)
    ensures c.health.None? ==> r.0.health.None? && r.0.hp == StartHp
    ensures var step := Fsm.ChangeByName(c.machine, "Idle");
            r.0.machine == step.machine && r.1 == step.hooks
    ensures r.0 == c.(alive := true, health := r.0.health, hp := r.0.hp, machine := r.0.machine)
  {
    var h := if c.health.Some? then Some(Health.Reset(c.health.value).health) else None;
    var hp := if c.health.Some? then Trunc(c.health.value.max) else StartHp;
    var step := Fsm.ChangeByName(c.machine, "Idle");
    (c.(alive := true, health := h, hp := hp, machine := step.machine), step.hooks)
  }

  /** Respawning undoes death: a character that died and respawned is
      alive, in Idle, at full health with an alive component. */
  lemma RespawnAfterDeath(c: Character)
    requires c.alive && c.health.Some? && c.machine.states == RegisteredStates
    ensures var r := Respawn(Die(c).0).0;
            r.alive && Fsm.IsInState(r.machine, "Idle") &&
            r.health.value.current == r.health.value.max && !r.health.value.dead
  {
  }

  /** `setHorizontalVelocity`: x and z from `v`, y kept. */
  function SetHorizontalVelocity(c: Character, v: Vec3): (r: Character)
    ensures r.body.vel == Vec3(v.x, c.body.vel.y, v.z)
    ensures r == c.(body := r.body) && r.body.pos == c.body.pos && r.body.onGround == c.body.onGround
  {
    c.(body := c.body.(vel := Vec3(v.x, c.body.vel.y, v.z)))
  }

  /** `stopHorizontal`: x and z zeroed, y kept. */
  function StopHorizontal(c: Character): (r: Character)
    ensures r.body.vel == Vec3(0.0, c.body.vel.y, 0.0)
    ensures r == c.(body := r.body) && r.body.pos == c.body.pos && r.body.onGround == c.body.onGround
  {
    c.(body := c.body.(vel := c.body.vel.(x := 0.0, z := 0.0)))
  }

  /** Stopping is setting a zero horizontal velocity, and neither touches
      the vertical speed of a jump in progress. */
  lemma StopIsZeroVelocity(c: Character, v: Vec3)
    ensures StopHorizontal(c) == SetHorizontalVelocity(c, Zero)
    ensures SetHorizontalVelocity(c, v).body.vel.y == c.body.vel.y
    ensures StopHorizontal(SetHorizontalVelocity(c, v)) == StopHorizontal(c)
  {
  }

  // ---------------------------------------------------------------------
  // Movement

  /** The push-out loop of `applyMovement`: for each non-null, live enemy
      whose box the predicted box overlaps, the collider's offset (computed
      from the predicted box) is added to the new position and to the
      predicted box, so later enemies see the corrected box. */
  function PushOut(col: Collider.CharCollider, pos: Vec3, box: Box, foes: seq<Option<Foe>>): (r: (Vec3, Box))
    ensures r.0.y == pos.y
    ensures r.1 == Translate(box, Sub(r.0, pos))
    ensures (forall i :: 0 <= i < |foes| ==> foes[i].None? || foes[i].value.dead) ==> r == (pos, box)
    decreases |foes|
  {
    if |foes| == 0 then (pos, box)
    else
      var f := foes[0];
      var step :=
        if f.None? || f.value.dead || !Intersects(box, f.value.box) then Zero
        else Collider.CollisionOffset(col, f.value.box, Some(box));
      var moved := if step != Zero then (Add(pos, step), Translate(box, step)) else (pos, box);
      assert forall i :: 1 <= i < |foes| ==> foes[1..][i - 1] == foes[i];
      var rest := PushOut(col, moved.0, moved.1, foes[1..]);
      rest
  }

  /** A single overlapping live enemy pushes the character out along one
      horizontal axis until the faces meet. */
  lemma PushOutOfOne(col: Collider.CharCollider, pos: Vec3, box: Box, f: Foe)
    requires !f.dead && Intersects(box, f.box)
    ensures var r := PushOut(col, pos, box, [Some(f)]);
            var off := Collider.CollisionOffset(col, f.box, Some(box));
            r == (Add(pos, off), Translate(box, off)) && (off.x == 0.0 || off.z == 0.0) &&
            (r.1.max.x == f.box.min.x || r.1.min.x == f.box.max.x ||
             r.1.max.z == f.box.min.z || r.1.min.z == f.box.max.z)
  {
    var off := Collider.CollisionOffset(col, f.box, Some(box));
    Collider.OffsetMeetsFace(box, f.box);
    assert off == Collider.CollisionOffset(Collider.CharCollider(box, box), f.box, None);
    assert [Some(f)][1..] == [];
  }

  /** One frame of `update` once the current state's rule has run: its
      requests are applied in order; a dead character stops there. A
      living one falls (unless resting on terrain), advances by its
      velocity, is pushed out of the live enemies it would overlap (the
      predicted box is the local box placed at the new position by
      `placeAt`), takes the terrain step and finally has its world box
      recomputed by `toWorld`. The probe result is for the position after
      push-out. */
  function Tick(c: Character, requests: seq<string>, hasTerrain: bool, ground: Movement.Ground, dt: real,
                placeAt: (Box, Vec3) -> Box, toWorld: Box -> Box): (r: (Character, seq<Fsm.Hook>))
    requires hasTerrain <==> !ground.NoCollider?
    ensures var fsm := Fsm.ChangeAll(c.machine, requests);
            r.0.machine == fsm.machine && r.1 == fsm.hooks
    ensures !c.alive ==> r.0 == c.(machine := r.0.machine)
    ensures c.alive ==>
              var fallen := Movement.ApplyGravity(c.body, hasTerrain, c.gravity, dt);
              var newPos := Movement.Advance(fallen, dt);
              var pushed := if c.enemies.Some? && |c.enemies.value| > 0
                            then PushOut(c.collider, newPos, placeAt(c.collider.aabb, newPos), c.enemies.value).0
                            else newPos;
              r.0.body == Movement.Settle(fallen, pushed, ground, dt) &&
              r.0.collider == Collider.Update(c.collider, Some(toWorld)) &&
              r.0 == c.(machine := r.0.machine, body := r.0.body, collider := r.0.collider)
  {
    var fsm := Fsm.ChangeAll(c.machine, requests);
    if !c.alive then (c.(machine := fsm.machine), fsm.hooks)
    else
      var fallen := Movement.ApplyGravity(c.body, hasTerrain, c.gravity, dt);
      var newPos := Movement.Advance(fallen, dt);
      var pushed := if c.enemies.Some? && |c.enemies.value| > 0
                    then PushOut(c.collider, newPos, placeAt(c.collider.aabb, newPos), c.enemies.value).0
                    else newPos;
      (c.(machine := fsm.machine, body := Movement.Settle(fallen, pushed, ground, dt),
          collider := Collider.Update(c.collider, Some(toWorld))), fsm.hooks)
  }

  /** Push-out never changes the height: only the terrain rule and gravity
      move a living character vertically, and a dead one never moves. */
  lemma DeadNeverMoves(c: Character, requests: seq<string>, hasTerrain: bool, ground: Movement.Ground, dt: real,
                       placeAt: (Box, Vec3) -> Box, toWorld: Box -> Box)
    requires hasTerrain <==> !ground.NoCollider?
    requires !c.alive
    ensures Tick(c, requests, hasTerrain, ground, dt, placeAt, toWorld).0.body == c.body
    ensures Tick(c, requests, hasTerrain, ground, dt, placeAt, toWorld).0.collider == c.collider
  {
  }
}
