/** The boss (`Boss`): an enemy with a phase, move and damage multipliers,
    a busy flag, a once-only heal at half health and a pending skill name.
    Its health-change hook is modelled twice: as written, where the ratio
    divides by the hook's second argument (the health before the change),
    and as evidently intended, where it divides by the maximum health. The
    rest of the model uses the intended hook. */
module Boss {
  import opened Base
  import opened Geometry
  import Fsm
  import Health
  import Enemy

  datatype Boss = Boss(enemy: Enemy.Enemy, phase: int, moveMul: real, dmgMul: real,
                       busy: bool, hasHealed: bool, pending: string)

  /** The default arguments of `applyPhase2Buff`. */
  const Phase2MoveMul: real := 1.2
  const Phase2DmgMul: real := 1.15
  /** The health ratio at or below which the boss enters phase 2. */
  const HalfHealth: real := 0.5
  /** `distanceToPlayer` without a target. */
  const NoTargetDistance: real := 1000000000.0

  /** The six boss states in registration order. */
  const StateRefs: seq<Fsm.StateRef> :=
    [Fsm.StateRef(0, "Idle"), Fsm.StateRef(1, "Chase"), Fsm.StateRef(2, "Attack"),
     Fsm.StateRef(3, "PhaseChange"), Fsm.StateRef(4, "Hit"), Fsm.StateRef(5, "Dead")]

  const RegisteredStates: map<string, Fsm.StateRef> :=
    map["Idle" := StateRefs[0], "Chase" := StateRefs[1], "Attack" := StateRefs[2],
        "PhaseChange" := StateRefs[3], "Hit" := StateRefs[4], "Dead" := StateRefs[5]]

  /** `isBusy`: the flag, or dead. */
  function IsBusy(b: Boss): (r: bool)
    ensures Enemy.IsDead(b.enemy) ==> r
    ensures !b.busy ==> (r <==> Enemy.IsDead(b.enemy))
  {
    b.busy || Enemy.IsDead(b.enemy)
  }

  /** A dead boss is always busy, and a living one exactly when its flag says so. */
  lemma DeadIsBusy(b: Boss)
    ensures Enemy.IsDead(b.enemy) ==> IsBusy(b)
    ensures !Enemy.IsDead(b.enemy) ==> (IsBusy(b) <==> b.busy)
  {
  }

  /** `setPendingSkill`: the name is stored and nothing else changes. */
  function SetPendingSkill(b: Boss, s: string): (r: Boss)
    ensures r.pending == s
    ensures r.enemy == b.enemy && r.phase == b.phase && r.moveMul == b.moveMul && r.dmgMul == b.dmgMul
    ensures r.busy == b.busy && r.hasHealed == b.hasHealed
  {
    b.(pending := s)
  }

  /** `hasPendingSkill`: a non-empty name is pending. */
  function HasPendingSkill(b: Boss): (r: bool)
    ensures r <==> |b.pending| > 0
  {
    b.pending != ""
  }

  /** `consumePendingSkill`: the name, and the boss with nothing pending. */
  function ConsumePendingSkill(b: Boss): (r: (string, Boss))
    ensures r.0 == b.pending && !HasPendingSkill(r.1)
    ensures r.1 == b.(pending := "")
  {
    (b.pending, b.(pending := ""))
  }

  /** Setting a skill and consuming it hands back that skill and leaves
      nothing pending; a second consume yields the empty name. */
  lemma PendingRoundTrip(b: Boss, s: string)
    ensures HasPendingSkill(SetPendingSkill(b, s)) <==> s != ""
    ensures var c := ConsumePendingSkill(SetPendingSkill(b, s));
            c.0 == s && !HasPendingSkill(c.1) && c.1 == b.(pending := "")
    ensures ConsumePendingSkill(ConsumePendingSkill(b).1).0 == ""
  {
  }

  /** `applyPhase2Buff`: both multipliers take the given values. */
  function ApplyPhase2Buff(b: Boss, moveMul: real, dmgMul: real): (r: Boss)
    ensures r.moveMul == moveMul && r.dmgMul == dmgMul
    ensures r == b.(moveMul := moveMul, dmgMul := dmgMul)
  {
    b.(moveMul := moveMul, dmgMul := dmgMul)
  }

  /** The overriding `initStateMachine`: the six boss states, then Chase. */
  function InitMachine(): (r: Fsm.Step)
    ensures r.machine.states == RegisteredStates
    ensures r.machine.current == Some(StateRefs[1]) && r.machine.previous.None?
    ensures r.hooks == [Fsm.OnEnter(StateRefs[1])]
  {
    var m := Fsm.Fresh;
    var m := Fsm.Register(m, Some(StateRefs[0]));
    var m := Fsm.Register(m, Some(StateRefs[1]));
    var m := Fsm.Register(m, Some(StateRefs[2]));
    var m := Fsm.Register(m, Some(StateRefs[3]));
    var m := Fsm.Register(m, Some(StateRefs[4]));
    var m := Fsm.Register(m, Some(StateRefs[5]));
    Fsm.ChangeByName(m, "Chase")
  }

  /** `initBoss` after the enemy initialisation succeeded: the BOSS type's
      speeds, then view and chase range 500, phase 1, unit multipliers,
      not busy, not healed, nothing pending. */
  function InitBoss(e: Enemy.Enemy): (r: Boss)
    ensures r.enemy.kind == Enemy.BossKind && r.enemy.moveSpeed == 40.0 && r.enemy.rotateSpeed == 120.0
    ensures r.enemy.viewRange == 500.0 && r.enemy.maxChaseRange == 500.0
    ensures r.phase == 1 && r.moveMul == 1.0 && r.dmgMul == 1.0
    ensures !r.busy && !r.hasHealed && !HasPendingSkill(r)
    ensures r.enemy == e.(kind := Enemy.BossKind, moveSpeed := 40.0, rotateSpeed := 120.0,
                          viewRange := 500.0, maxChaseRange := 500.0)
  {
    var e := Enemy.SetEnemyType(e, Enemy.BossKind);
    Boss(e.(viewRange := 500.0, maxChaseRange := 500.0), 1, 1.0, 1.0, false, false, "")
  }

  /** A boss created at `pos`: the enemy initialisation with the boss's own
      states (the overriding `initStateMachine` runs inside it), then
      `initBoss`. It starts in Chase at full health. */
  function Create(pos: Vec3): (r: (Boss, seq<Fsm.Hook>))
    ensures r.0.enemy.machine.states == RegisteredStates
    ensures Fsm.IsInState(r.0.enemy.machine, "Chase")
    ensures r.0.enemy.health == Some(Health.Health(Enemy.StartHealth, Enemy.StartHealth, false, false))
    ensures r.0.enemy.body.pos == pos && r.0.enemy.birth == pos
    ensures r.0.phase == 1 && !r.0.hasHealed && !IsBusy(r.0)
    ensures r.1 == [Fsm.OnEnter(StateRefs[1])]
  {
    var init := InitMachine();
    (InitBoss(Enemy.Create(pos).0.(machine := init.machine)), init.hooks)
  }

  // ---------------------------------------------------------------------
  // The health-change hook

  /** The ratio as written: the hook's first argument over its second. A
      zero divisor (which `reset` passes) yields infinity or NaN under IEEE
      arithmetic, neither of which compares at most 0.5: no ratio. */
  function RatioAsWritten(current: real, second: real): (r: Option<real>)
    ensures second == 0.0 <==> r.None?
    ensures r.Some? ==> r.value * second == current
  {
    if second == 0.0 then None else Some(current / second)
  }

  /** The ratio as evidently intended: current over maximum health (no
      ratio without a health component or with a zero maximum). */
  function Ratio(b: Boss, current: real): (r: Option<real>)
    ensures r.Some? <==> b.enemy.health.Some? && b.enemy.health.value.max != 0.0
    ensures r.Some? ==> r.value * b.enemy.health.value.max == current
  {
    if b.enemy.health.Some? && b.enemy.health.value.max != 0.0 then Some(current / b.enemy.health.value.max)
    else None
  }

  /** Whether the hook acts on a ratio: not healed yet, at most half, and
      not dead. */
  predicate Fires(b: Boss, ratio: Option<real>)
  {
    b.enemy.health.Some? && ratio.Some? && !b.hasHealed && ratio.value <= HalfHealth && !Enemy.IsDead(b.enemy)
  }

  /** The hook's effect: once fired, healed, phase 2, full health and a
      request for PhaseChange. The full heal's own change callback re-enters
      the hook, which no longer fires, so it adds nothing. */
  function OnHealthChange(b: Boss, ratio: Option<real>): (r: (Boss, seq<Fsm.Hook>))
    ensures !Fires(b, ratio) ==> r == (b, [])
    ensures Fires(b, ratio) ==>
              var step := Fsm.ChangeByName(b.enemy.machine, "PhaseChange");
              r.0 == b.(hasHealed := true, phase := 2,
                        enemy := b.enemy.(health := Some(Health.FullHeal(b.enemy.health.value).health),
                                          machine := step.machine)) &&
              r.1 == step.hooks
  {
    if Fires(b, ratio) then
      var step := Fsm.ChangeByName(b.enemy.machine, "PhaseChange");
      (b.(hasHealed := true, phase := 2,
          enemy := b.enemy.(health := Some(Health.FullHeal(b.enemy.health.value).health), machine := step.machine)),
       step.hooks)
    else (b, [])
  }

  /** The boss's reaction to the callbacks of one health operation, in
      order: the enemy's hurt and dead hooks (hurt runs while the component
      still reports alive) and the change hook with the ratio as written or
      as intended. */
  function Respond(b: Boss, events: seq<Health.HealthEvent>, asWritten: bool): (r: (Boss, seq<Fsm.Hook>))
    ensures r.0.enemy.body == b.enemy.body && r.0.enemy.kind == b.enemy.kind
    ensures r.0.enemy.machine.states == b.enemy.machine.states
    ensures r.0.busy == b.busy && r.0.pending == b.pending
    ensures r.0.moveMul == b.moveMul && r.0.dmgMul == b.dmgMul
    ensures b.hasHealed ==> r.0.hasHealed && r.0.phase == b.phase && r.0.enemy.health == b.enemy.health
    ensures !r.0.hasHealed ==> r.0.phase == b.phase && r.0.enemy.health == b.enemy.health
    decreases |events|
  {
    if |events| == 0 then (b, [])
    else
      var first := match events[0]
                   case Hurt(_) => var s := Enemy.OnHurt(b.enemy, false); (b.(enemy := s.0), s.1)
                   case Died => var s := Enemy.OnDead(b.enemy); (b.(enemy := s.0), s.1)
                   case Changed(c, second) =>
                     OnHealthChange(b, if asWritten then RatioAsWritten(c, second) else Ratio(b, c));
      var rest := Respond(first.0, events[1..], asWritten);
      (rest.0, first.1 + rest.1)
  }

  /** One `takeDamage` on the boss's health component with the hook as
      written; a boss without health takes nothing. */
  function TakeDamageAsWritten(b: Boss, damage: real): (r: Boss)
    ensures b.enemy.health.None? ==> r == b
    ensures b.hasHealed && b.enemy.health.Some? ==>
              r.hasHealed && r.phase == b.phase && r.enemy.health == Some(Health.TakeDamage(b.enemy.health.value, damage).health)
  {
    if b.enemy.health.None? then b
    else
      var hit := Health.TakeDamage(b.enemy.health.value, damage);
      Respond(b.(enemy := b.enemy.(health := Some(hit.health))), hit.events, true).0
  }

  /** One `takeDamage` on the boss's health component with the intended hook. */
  function TakeDamage(b: Boss, damage: real): (r: Boss)
    ensures b.enemy.health.None? ==> r == b
    ensures b.hasHealed && b.enemy.health.Some? ==>
              r.hasHealed && r.phase == b.phase && r.enemy.health == Some(Health.TakeDamage(b.enemy.health.value, damage).health)
  {
    if b.enemy.health.None? then b
    else
      var hit := Health.TakeDamage(b.enemy.health.value, damage);
      Respond(b.(enemy := b.enemy.(health := Some(hit.health))), hit.events, false).0
  }

  /** For a positive maximum, a ratio of at most one half is a current
      health of at most half the maximum. */
  lemma HalfRatio(current: real, max: real)
    requires max > 0.0
    ensures current / max <= HalfHealth <==> current <= max * HalfHealth
  {
    ScaledBounds(current, max, current / max, HalfHealth, HalfHealth);
  }

  /** The intended hook on a hit to a living, vulnerable boss with a
      positive maximum: the heal fires exactly when the boss was not healed
      yet and the hit leaves it alive at no more than half its maximum; it
      then restores full health, enters phase 2 and ends in PhaseChange.
      Otherwise the phase and healed flag stay and the health is the hit's. */
  lemma {:induction false} HalfHealthHeals(b: Boss, damage: real)
    requires b.enemy.health.Some? && b.enemy.health.value.max > 0.0
    requires !b.enemy.health.value.invincible && !b.enemy.health.value.dead
    requires "PhaseChange" in b.enemy.machine.states
    ensures var h := b.enemy.health.value;
            var hit := Health.TakeDamage(h, damage).health;
            var fires := !b.hasHealed && !hit.dead && hit.current <= h.max * HalfHealth;
            var r := TakeDamage(b, damage);
            (fires ==> r.hasHealed && r.phase == 2 && r.enemy.health == Some(hit.(current := h.max)) &&
                       r.enemy.machine.current == Some(b.enemy.machine.states["PhaseChange"])) &&
            (!fires ==> r.hasHealed == b.hasHealed && r.phase == b.phase && r.enemy.health == Some(hit))
  {
    if Health.TakeDamage(b.enemy.health.value, damage).health.dead {
      DeadHitKeepsPhase(b, damage);
    } else {
      LiveHitRunsHook(b, damage);
    }
  }

  /** A killing hit: the hook never fires, so phase and flag stay. */
  lemma DeadHitKeepsPhase(b: Boss, damage: real)
    requires b.enemy.health.Some? && b.enemy.health.value.max > 0.0
    requires !b.enemy.health.value.invincible && !b.enemy.health.value.dead
    requires "PhaseChange" in b.enemy.machine.states
    requires Health.TakeDamage(b.enemy.health.value, damage).health.dead
    ensures var hit := Health.TakeDamage(b.enemy.health.value, damage).health;
            var r := TakeDamage(b, damage);
            r.hasHealed == b.hasHealed && r.phase == b.phase && r.enemy.health == Some(hit)
  {
    var h := b.enemy.health.value;
    var out := Health.TakeDamage(h, damage);
    var hit := out.health;
    var es := out.events;
    var b0 := b.(enemy := b.enemy.(health := Some(hit)));
    var b1 := b0.(enemy := Enemy.OnHurt(b0.enemy, false).0);
    assert es[1..][0] == es[1];
    var b2 := b1.(enemy := Enemy.OnDead(b1.enemy).0);
    assert es[2] == Health.Changed(hit.current, h.current);
    assert es[2..][0] == es[2] && es[1..][1..] == es[2..] && es[2..][1..] == [];
    assert Respond(b0, es, false).0 == Respond(b1, es[1..], false).0;
    assert Respond(b1, es[1..], false).0 == Respond(b2, es[2..], false).0;
    assert !Fires(b2, Ratio(b2, hit.current));
    assert Respond(b2, es[2..], false).0 == Respond(b2, es[3..], false).0;
  }

  /** A hit the boss survives: the change hook decides. */
  lemma LiveHitRunsHook(b: Boss, damage: real)
    requires b.enemy.health.Some? && b.enemy.health.value.max > 0.0
    requires !b.enemy.health.value.invincible && !b.enemy.health.value.dead
    requires "PhaseChange" in b.enemy.machine.states
    requires !Health.TakeDamage(b.enemy.health.value, damage).health.dead
    ensures var h := b.enemy.health.value;
            var hit := Health.TakeDamage(h, damage).health;
            var fires := !b.hasHealed && !hit.dead && hit.current <= h.max * HalfHealth;
            var r := TakeDamage(b, damage);
            (fires ==> r.hasHealed && r.phase == 2 && r.enemy.health == Some(hit.(current := h.max)) &&
                       r.enemy.machine.current == Some(b.enemy.machine.states["PhaseChange"])) &&
            (!fires ==> r.hasHealed == b.hasHealed && r.phase == b.phase && r.enemy.health == Some(hit))
  {
    var h := b.enemy.health.value;
    var out := Health.TakeDamage(h, damage);
    var hit := out.health;
    var es := out.events;
    var b0 := b.(enemy := b.enemy.(health := Some(hit)));
    var b1 := b0.(enemy := Enemy.OnHurt(b0.enemy, false).0);
    HalfRatio(hit.current, h.max);
    assert es[1..][0] == es[1];
    assert es[1] == Health.Changed(hit.current, h.current);
    assert es[1..][1..] == [];
    var c := OnHealthChange(b1, Ratio(b1, hit.current)).0;
    assert Respond(b0, es, false).0 == Respond(b1, es[1..], false).0;
    assert Respond(b1, es[1..], false).0 == Respond(c, es[2..], false).0;
  }

  /** The hook as written, on the same hit: it fires exactly when the boss
      was not healed, survives, and the hit leaves at most half of the
      health it had before the hit (not of its maximum). */
  lemma {:induction false} AsWrittenNeedsHalvingHit(b: Boss, damage: real)
    requires b.enemy.health.Some? && b.enemy.health.value.current > 0.0
    requires !b.enemy.health.value.invincible && !b.enemy.health.value.dead
    ensures var h := b.enemy.health.value;
            var hit := Health.TakeDamage(h, damage).health;
            var fires := !b.hasHealed && !hit.dead && hit.current <= h.current * HalfHealth;
            var r := TakeDamageAsWritten(b, damage);
            (fires ==> r.hasHealed && r.phase == 2) &&
            (!fires ==> r.hasHealed == b.hasHealed && r.phase == b.phase && r.enemy.health == Some(hit))
  {
    var h := b.enemy.health.value;
    var out := Health.TakeDamage(h, damage);
    var hit := out.health;
    var es := out.events;
    var b0 := b.(enemy := b.enemy.(health := Some(hit)));
    var b1 := b0.(enemy := Enemy.OnHurt(b0.enemy, false).0);
    HalfRatio(hit.current, h.current);
    assert es[1..][0] == es[1];
    if hit.dead {
      var b2 := b1.(enemy := Enemy.OnDead(b1.enemy).0);
      assert es[2] == Health.Changed(hit.current, h.current);
      assert es[2..][0] == es[2] && es[1..][1..] == es[2..] && es[2..][1..] == [];
      assert Respond(b0, es, true).0 == Respond(b1, es[1..], true).0;
      assert Respond(b1, es[1..], true).0 == Respond(b2, es[2..], true).0;
      assert !Fires(b2, RatioAsWritten(hit.current, h.current));
      assert Respond(b2, es[2..], true).0 == Respond(b2, es[3..], true).0;
    } else {
      assert es[1] == Health.Changed(hit.current, h.current);
      assert es[1..][1..] == [];
      var c := OnHealthChange(b1, RatioAsWritten(hit.current, h.current)).0;
      assert Respond(b0, es, true).0 == Respond(b1, es[1..], true).0;
      assert Respond(b1, es[1..], true).0 == Respond(c, es[2..], true).0;
    }
  }

  /** A boss at full health 100 takes two hits of 30. As written the hook
      sees 70/100 and then 40/70 ≈ 0.57 and never fires: the once-only full
      heal is missed and the hits leave the boss in phase 1 at 40 of 100.
      With the intended ratio 40/100 the second hit heals it to 100 and
      enters phase 2. Phase 2 still comes as written, through the AI's own
      check (`BossAI.AsWrittenPhaseTwoWithoutHeal`), but unhealed. */
  lemma HalfHealthMissedAsWritten(b: Boss)
    requires b.enemy.health == Some(Health.Health(100.0, 100.0, false, false))
    requires !b.hasHealed && b.phase == 1 && "PhaseChange" in b.enemy.machine.states
    ensures var twice := TakeDamageAsWritten(TakeDamageAsWritten(b, 30.0), 30.0);
            twice.enemy.health.Some? && twice.enemy.health.value.current == 40.0 && twice.enemy.health.value.max == 100.0 &&
            !twice.hasHealed && twice.phase == 1
    ensures var twice := TakeDamage(TakeDamage(b, 30.0), 30.0);
            twice.enemy.health.Some? && twice.enemy.health.value.current == 100.0 && twice.hasHealed && twice.phase == 2
  {
    AsWrittenNeedsHalvingHit(b, 30.0);
    var once := TakeDamageAsWritten(b, 30.0);
    assert once.enemy.health == Some(Health.Health(100.0, 70.0, false, false));
    AsWrittenNeedsHalvingHit(once, 30.0);
    HalfHealthHeals(b, 30.0);
    var first := TakeDamage(b, 30.0);
    assert first.enemy.health == Some(Health.Health(100.0, 70.0, false, false));
    HalfHealthHeals(first, 30.0);
  }

  /** Hits one after another with the intended hook, counting the heals. */
  function TakeDamages(b: Boss, hits: seq<real>): (r: (Boss, nat))
    decreases |hits|
  {
    if |hits| == 0 then (b, 0)
    else
      var next := TakeDamage(b, hits[0]);
      var rest := TakeDamages(next, hits[1..]);
      (rest.0, rest.1 + if next.hasHealed && !b.hasHealed then 1 else 0)
  }

  /** The phase-2 heal happens at most once until a reset, whatever the
      hits, and never once the boss has healed. */
  lemma {:induction false} HealsAtMostOnce(b: Boss, hits: seq<real>)
    ensures TakeDamages(b, hits).1 <= 1
    ensures b.hasHealed ==> TakeDamages(b, hits).1 == 0 && TakeDamages(b, hits).0.hasHealed
    ensures TakeDamages(b, hits).1 == 1 ==> TakeDamages(b, hits).0.hasHealed
    decreases |hits|
  {
    if |hits| > 0 {
      var next := TakeDamage(b, hits[0]);
      HealedStays(b, hits[0]);
      HealsAtMostOnce(next, hits[1..]);
    }
  }

  /** A healed boss stays healed through a hit. */
  lemma HealedStays(b: Boss, damage: real)
    ensures b.hasHealed ==> TakeDamage(b, damage).hasHealed
  {
  }

  /** The state a reset produced. */
  datatype Reset = Reset(boss: Boss, hooks: seq<Fsm.Hook>)

  /** `resetEnemy`: the enemy reset (whose change callback passes through
      the hook without effect), then phase 1, not healed, not busy and
      nothing pending. Multipliers are left as they are. */
  function ResetBoss(b: Boss): (r: Reset)
    ensures r.boss.phase == 1 && !r.boss.hasHealed && !r.boss.busy && !HasPendingSkill(r.boss)
    ensures r.boss.moveMul == b.moveMul && r.boss.dmgMul == b.dmgMul
    ensures r.boss.enemy.body.pos == b.enemy.birth && !Enemy.IsDead(r.boss.enemy)
    ensures b.enemy.health.Some? ==> r.boss.enemy.health == Some(b.enemy.health.value.(current := b.enemy.health.value.max, dead := false))
    ensures b.enemy.health.None? ==> r.boss.enemy.health.None?
    ensures "Idle" in b.enemy.machine.states ==> r.boss.enemy.machine.current == Some(b.enemy.machine.states["Idle"])
  {
    var er := Enemy.ResetEnemy(b.enemy);
    var b0 := b.(enemy := er.enemy);
    var fired := Respond(b0, er.events, false);
    assert fired.0 == b0 by {
      if b.enemy.health.Some? {
        var max := b.enemy.health.value.max;
        assert er.events == [Health.Changed(max, 0.0)];
        assert er.events[1..] == [];
        var ratio := Ratio(b0, max);
        if ratio.Some? {
          assert (ratio.value - 1.0) * max == 0.0;
        }
        assert !Fires(b0, ratio);
        assert fired.0 == Respond(OnHealthChange(b0, ratio).0, [], false).0;
      }
    }
    Reset(fired.0.(phase := 1, hasHealed := false, busy := false, pending := ""), er.hooks + fired.1)
  }

  /** After a reset, a hit that leaves a boss with positive maximum health
      alive at no more than half its maximum heals it again. */
  lemma ResetRearmsHeal(b: Boss, damage: real)
    requires b.enemy.health.Some? && b.enemy.health.value.max > 0.0 && !b.enemy.health.value.invincible
    requires "PhaseChange" in b.enemy.machine.states
    ensures var r := ResetBoss(b).boss;
            var hit := Health.TakeDamage(r.enemy.health.value, damage).health;
            !hit.dead && hit.current <= b.enemy.health.value.max * HalfHealth ==>
              TakeDamage(r, damage).hasHealed && TakeDamage(r, damage).phase == 2
  {
    var r := ResetBoss(b).boss;
    HalfHealthHeals(r, damage);
  }

  /** The phase-2 buff outlives a reset: a reset boss is back in phase 1
      but keeps moving and hitting with the phase-2 multipliers. */
  lemma BuffOutlivesReset(b: Boss)
    ensures var r := ResetBoss(ApplyPhase2Buff(b, Phase2MoveMul, Phase2DmgMul)).boss;
            r.phase == 1 && r.moveMul == Phase2MoveMul && r.dmgMul == Phase2DmgMul
  {
  }

  /** `distanceToPlayer`: 1e9 without a target, else the sensed length of
      the boss-to-player vector. */
  function DistanceToPlayer(target: Option<Vec3>, pos: Vec3, len: real): (r: real)
    requires target.Some? ==> len >= 0.0 && len * len == DistSq(target.value, pos)
    ensures target.None? ==> r == NoTargetDistance
    ensures target.Some? ==> r >= 0.0 && r * r == DistSq(target.value, pos)
  {
    if target.None? then NoTargetDistance else len
  }
}
