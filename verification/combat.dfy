/** The combat component (`CombatComponent`): attack statistics, the
    defense-reduced damage formula, a single attack on a target and the
    melee sweep over a list of potential targets. The random draw of
    `rand() % 100` is passed in; a custom attack callback is a function
    parameter whose result is taken as is. */
module Combat {
  import opened Base
  import opened Geometry
  import opened Health

  datatype Stats = Stats(attackPower: real, defense: real, critRate: real, critDamage: real, weaponDamage: real)

  /** The constructor's values: 10 attack, no defense, 5% crit chance,
      200% crit damage, no weapon bonus. */
  const DefaultStats: Stats := Stats(10.0, 0.0, 0.05, 2.0, 0.0)

  /** What a target node is, as far as the melee sweep's casts can tell. */
  datatype Kind = CharacterNode | EnemyNode | OtherNode

  /** A node that can be attacked: its components and its world box. */
  datatype Target = Target(kind: Kind, health: Option<Health>, combat: Option<Stats>, box: Box)

  /** `calculateDamage`: the reduction is d / (d + 100) and the result is
      at least 1. A defense of exactly −100 divides by zero in the source
      and is excluded. */
  function CalculateDamage(base: real, defense: real): (r: real)
    requires defense != -100.0
    ensures r >= 1.0
  {
    Max(1.0, base * (1.0 - defense / (defense + 100.0)))
  }

  /** The reduced damage is base · 100 / (d + 100). */
  lemma ReductionClosedForm(base: real, defense: real)
    requires defense != -100.0
    ensures base * (1.0 - defense / (defense + 100.0)) == base * 100.0 / (defense + 100.0)
  {
    var q := defense / (defense + 100.0);
    assert q * (defense + 100.0) == defense;
    assert (1.0 - q) * (defense + 100.0) == 100.0;
    assert base * (1.0 - q) * (defense + 100.0) == base * 100.0;
  }

  /** No defense leaves a base of at least 1 untouched; a defense of 100
      halves it (down to the floor of 1). */
  lemma DamageLandmarks(base: real)
    ensures base >= 1.0 ==> CalculateDamage(base, 0.0) == base
    ensures CalculateDamage(base, 100.0) == Max(1.0, base / 2.0)
  {
  }

  /** Non-negative defense never raises damage above a base of at least 1,
      and a positive base is reduced to exactly base · 100 / (d + 100)
      unless the floor of 1 applies. */
  lemma DefenseOnlyReduces(base: real, defense: real)
    requires defense >= 0.0
    ensures base >= 1.0 ==> CalculateDamage(base, defense) <= base
    ensures CalculateDamage(base, defense) == Max(1.0, base * 100.0 / (defense + 100.0))
  {
    ReductionClosedForm(base, defense);
    var q := defense / (defense + 100.0);
    DivUnit(defense, defense + 100.0);
    if base >= 1.0 {
      MulPos(1.0 - q, 1.0, base);
      assert base * (1.0 - q) <= base;
    }
  }

  /** For a positive base and non-negative defenses, more defense never
      means more damage. */
  lemma MoreDefenseLessDamage(base: real, d1: real, d2: real)
    requires base > 0.0 && 0.0 <= d1 <= d2
    ensures CalculateDamage(base, d2) <= CalculateDamage(base, d1)
  {
    ReductionClosedForm(base, d1);
    ReductionClosedForm(base, d2);
    var a, b := d1 + 100.0, d2 + 100.0;
    assert base * 100.0 / b <= base * 100.0 / a by {
      var x := base * 100.0;
      assert x / b * b == x && x / a * a == x;
      assert x / b * a <= x / b * b by {
        MulPos(a, b, x / b);
      }
      if x / b > x / a {
        MulPos(x / a, x / b, a);
      }
    }
  }

  /** Whether the draw `rand() % 100` lands a critical hit. */
  predicate IsCrit(s: Stats, roll: int)
  {
    roll as real < s.critRate * 100.0
  }

  /** The damage an attack hands to the target's `takeDamage`: attack plus
      weapon, times the crit multiplier on a crit, reduced by the target's
      defense (0 without a combat component). */
  function DealtDamage(s: Stats, t: Target, roll: int): (r: real)
    requires TargetDefense(t) != -100.0
    ensures r >= 1.0
  {
    CalculateDamage(HitBase(s, roll), TargetDefense(t))
  }

  /** The damage before defense: attack plus weapon, times the crit
      multiplier on a crit. */
  function HitBase(s: Stats, roll: int): real
  {
    var total := s.attackPower + s.weaponDamage;
    if IsCrit(s, roll) then total * s.critDamage else total
  }

  function TargetDefense(t: Target): real
  {
    if t.combat.Some? then t.combat.value.defense else 0.0
  }

  /** Against non-negative defense, a larger base never deals less. */
  lemma MoreBaseMoreDamage(b1: real, b2: real, defense: real)
    requires 0.0 <= b2 <= b1 && defense >= 0.0
    ensures CalculateDamage(b2, defense) <= CalculateDamage(b1, defense)
  {
    ReductionClosedForm(b1, defense);
    ReductionClosedForm(b2, defense);
    var w := defense + 100.0;
    assert b2 * 100.0 / w <= b1 * 100.0 / w by {
      MulPos(b2 * 100.0, b1 * 100.0, 1.0 / w);
      assert b2 * 100.0 / w == b2 * 100.0 * (1.0 / w);
      assert b1 * 100.0 / w == b1 * 100.0 * (1.0 / w);
    }
  }

  /** With a crit multiplier of at least 1, a non-negative attack and a
      target of non-negative defense, a critical draw never deals less
      than a plain one. */
  lemma CritNeverWeakens(s: Stats, t: Target, crit: int, plain: int)
    requires s.critDamage >= 1.0 && s.attackPower + s.weaponDamage >= 0.0 && TargetDefense(t) >= 0.0
    requires IsCrit(s, crit) && !IsCrit(s, plain)
    ensures DealtDamage(s, t, plain) <= DealtDamage(s, t, crit)
  {
    Boosts(s.attackPower + s.weaponDamage, s.critDamage);
    MoreBaseMoreDamage(HitBase(s, crit), HitBase(s, plain), TargetDefense(t));
  }

  /** A multiplier of at least 1 never shrinks a non-negative amount. */
  lemma Boosts(x: real, k: real)
    requires x >= 0.0 && k >= 1.0
    ensures x <= x * k
  {
    if x > 0.0 {
      MulPos(1.0, k, x);
    }
  }

  /** What one attack did: success, the target afterwards, the health
      component's callbacks. */
  datatype Attacked = Attacked(ok: bool, target: Option<Target>, events: seq<HealthEvent>)

  /** `attack`. With a custom callback its verdict is returned and the
      target is left to it; otherwise a missing target, a missing health
      component or a dead target fail with no damage, and any other target
      takes `DealtDamage`. */
  function Attack(s: Stats, custom: Option<Target -> bool>, target: Option<Target>, roll: int): (r: Attacked)
    requires target.Some? ==> TargetDefense(target.value) != -100.0
    ensures target.None? ==> !r.ok && r.target == target && r.events == []
    ensures target.Some? && custom.Some? ==> r.ok == custom.value(target.value) && r.target == target && r.events == []
    ensures target.Some? && custom.None? && (target.value.health.None? || target.value.health.value.dead) ==>
              !r.ok && r.target == target && r.events == []
    ensures target.Some? && custom.None? && target.value.health.Some? && !target.value.health.value.dead ==>
              var after := TakeDamage(target.value.health.value, DealtDamage(s, target.value, roll));
              r.ok && r.target == Some(target.value.(health := Some(after.health))) && r.events == after.events
  {
    if target.None? then Attacked(false, target, [])
    else if custom.Some? then Attacked(custom.value(target.value), target, [])
    else
      var t := target.value;
      if t.health.None? || t.health.value.dead then Attacked(false, target, [])
      else
        var after := TakeDamage(t.health.value, DealtDamage(s, t, roll));
        Attacked(true, Some(t.(health := Some(after.health))), after.events)
  }

  /** The attacker's box grown by 30 on both X sides and both Z sides. */
  function Widen(b: Box): (r: Box)
    ensures r.min.y == b.min.y && r.max.y == b.max.y
    ensures r.min.x == b.min.x - 30.0 && r.max.x == b.max.x + 30.0
    ensures r.min.z == b.min.z - 30.0 && r.max.z == b.max.z + 30.0
  {
    Box(Vec3(b.min.x - 30.0, b.min.y, b.min.z - 30.0), Vec3(b.max.x + 30.0, b.max.y, b.max.z + 30.0))
  }

  /** Widening only adds reach: whatever the plain box touches, the widened
      box touches too. */
  lemma WidenAddsReach(a: Box, b: Box)
    requires Intersects(a, b)
    ensures Intersects(Widen(a), b)
  {
  }

  /** Whether the melee sweep reaches the attack call for this target:
      not null, not the attacker, alive with health, a Character or an
      Enemy, and overlapping the widened box. */
  predicate Swept(world: map<nat, Target>, self: nat, attackerBox: Box, entry: Option<nat>)
  {
    entry.Some? && entry.value != self && entry.value in world &&
    var t := world[entry.value];
    t.health.Some? && !t.health.value.dead && t.kind != OtherNode && Intersects(Widen(attackerBox), t.box)
  }

  predicate DefensesSafe(world: map<nat, Target>)
  {
    forall id :: id in world ==> TargetDefense(world[id]) != -100.0
  }

  /** No node appears in two target slots. */
  predicate Distinct(targets: seq<Option<nat>>)
  {
    forall i, j :: 0 <= i < j < |targets| && targets[i].Some? ==> targets[i] != targets[j]
  }

  /** How many slots the sweep attacks when no slot repeats a node: each
      one that is `Swept` in the world as it was before the sweep. */
  function CountSwept(world: map<nat, Target>, self: nat, attackerBox: Box, targets: seq<Option<nat>>): nat
    decreases |targets|
  {
    if |targets| == 0 then 0
    else CountSwept(world, self, attackerBox, targets[..|targets| - 1]) +
         (if Swept(world, self, attackerBox, targets[|targets| - 1]) then 1 else 0)
  }

  /** A target after one successful built-in attack. */
  function Struck(s: Stats, t: Target, roll: int): Target
    requires t.health.Some? && TargetDefense(t) != -100.0
  {
    t.(health := Some(TakeDamage(t.health.value, DealtDamage(s, t, roll)).health))
  }

  /** The callbacks the target's health component fires on that attack. */
  function StruckEvents(s: Stats, t: Target, roll: int): seq<HealthEvent>
    requires t.health.Some? && TargetDefense(t) != -100.0
  {
    TakeDamage(t.health.value, DealtDamage(s, t, roll)).events
  }

  /** One slot of the sweep: the attack call when the slot is swept, on
      the world as the sweep has left it so far. Returns whether the
      attack succeeded, the world afterwards and the callbacks the struck
      target's health component fired. */
  function Slot(s: Stats, custom: Option<Target -> bool>, self: nat, attackerBox: Box,
                world: map<nat, Target>, entry: Option<nat>, roll: int): (r: (bool, map<nat, Target>, seq<HealthEvent>))
    requires DefensesSafe(world)
    ensures r.1.Keys == world.Keys && DefensesSafe(r.1)
    ensures forall id :: id in world && (id == self || entry != Some(id)) ==> r.1[id] == world[id]
    ensures custom.Some? || !Swept(world, self, attackerBox, entry) ==> r.1 == world
    ensures custom.None? ==> (r.0 <==> Swept(world, self, attackerBox, entry))
    ensures custom.None? && Swept(world, self, attackerBox, entry) ==>
              r.1[entry.value] == Struck(s, world[entry.value], roll) &&
              r.2 == StruckEvents(s, world[entry.value], roll)
    ensures custom.Some? || !Swept(world, self, attackerBox, entry) ==> r.2 == []
  {
    if !Swept(world, self, attackerBox, entry) then (false, world, [])
    else
      var t := world[entry.value];
      var a := Attack(s, custom, Some(t), roll);
      if custom.Some? then (a.ok, world, a.events)
      else
        assert TargetDefense(a.target.value) == TargetDefense(t);
        (a.ok, world[entry.value := a.target.value], a.events)
  }

  /** The sweep over the slots, slot by slot in list order, each on the
      world as the earlier slots left it: the successes counted, the world
      afterwards, and for each slot in sweep order the callbacks its
      attack fired. */
  function SweepAll(s: Stats, custom: Option<Target -> bool>, self: nat, attackerBox: Box,
                    world: map<nat, Target>, targets: seq<Option<nat>>, rolls: seq<int>): (r: (nat, map<nat, Target>, seq<seq<HealthEvent>>))
    requires |rolls| == |targets| && DefensesSafe(world)
    ensures r.0 <= |targets| && |r.2| == |targets|
    ensures r.1.Keys == world.Keys && DefensesSafe(r.1)
    ensures forall id :: id in world && (id == self || Some(id) !in targets) ==> r.1[id] == world[id]
    ensures custom.Some? ==> r.1 == world
    decreases |targets|
  {
    if |targets| == 0 then (0, world, [])
    else
      var n := |targets| - 1;
      var p := SweepAll(s, custom, self, attackerBox, world, targets[..n], rolls[..n]);
      var step := Slot(s, custom, self, attackerBox, p.1, targets[n], rolls[n]);
      assert forall id :: Some(id) !in targets ==> Some(id) !in targets[..n] && targets[n] != Some(id);
      (p.0 + (if step.0 then 1 else 0), step.1, p.2 + [step.2])
  }

  /** One more slot: the sweep of the first i + 1 slots is the sweep of
      the first i followed by slot i. */
  lemma SweepAllSnoc(s: Stats, custom: Option<Target -> bool>, self: nat, attackerBox: Box,
                     world: map<nat, Target>, targets: seq<Option<nat>>, rolls: seq<int>, i: nat)
    requires i < |targets| == |rolls| && DefensesSafe(world)
    ensures var p := SweepAll(s, custom, self, attackerBox, world, targets[..i], rolls[..i]);
            var step := Slot(s, custom, self, attackerBox, p.1, targets[i], rolls[i]);
            SweepAll(s, custom, self, attackerBox, world, targets[..i + 1], rolls[..i + 1]) ==
              (p.0 + (if step.0 then 1 else 0), step.1, p.2 + [step.2])
  {
    assert targets[..i + 1][..i] == targets[..i] && rolls[..i + 1][..i] == rolls[..i];
    assert targets[..i + 1][i] == targets[i] && rolls[..i + 1][i] == rolls[i];
  }

  /** Without a custom callback and with no node in two slots, the sweep
      attacks exactly the slots `Swept` in the world as it was before, each
      once with the draw of its own slot. */
  lemma {:induction false} SweepStrikesSwept(s: Stats, self: nat, attackerBox: Box, world: map<nat, Target>,
                                             targets: seq<Option<nat>>, rolls: seq<int>)
    requires |rolls| == |targets| && DefensesSafe(world) && Distinct(targets)
    requires forall i :: 0 <= i < |targets| && targets[i].Some? ==> targets[i].value in world
    ensures var r := SweepAll(s, None, self, attackerBox, world, targets, rolls);
            r.0 == CountSwept(world, self, attackerBox, targets) &&
            forall i :: 0 <= i < |targets| && targets[i].Some? ==>
              r.1[targets[i].value] ==
                if Swept(world, self, attackerBox, targets[i]) then Struck(s, world[targets[i].value], rolls[i])
                else world[targets[i].value]
    decreases |targets|
  {
    if |targets| > 0 {
      var n := |targets| - 1;
      var entry := targets[n];
      assert Distinct(targets[..n]);
      SweepStrikesSwept(s, self, attackerBox, world, targets[..n], rolls[..n]);
      var p := SweepAll(s, None, self, attackerBox, world, targets[..n], rolls[..n]);
      if entry.Some? {
        assert entry !in targets[..n];
      }
      SlotExtendsStrikes(s, self, attackerBox, world, targets, rolls, targets[..n], rolls[..n], p.1);
    }
  }

  /** Without a custom callback and with no node in two slots, each slot
      `Swept` in the world as it was before reports the callbacks of its
      one hit, and every other slot reports none. */
  lemma {:induction false} SweepEventsSwept(s: Stats, self: nat, attackerBox: Box, world: map<nat, Target>,
                                            targets: seq<Option<nat>>, rolls: seq<int>)
    requires |rolls| == |targets| && DefensesSafe(world) && Distinct(targets)
    requires forall i :: 0 <= i < |targets| && targets[i].Some? ==> targets[i].value in world
    ensures forall i :: 0 <= i < |targets| ==>
              SweepAll(s, None, self, attackerBox, world, targets, rolls).2[i] ==
                if Swept(world, self, attackerBox, targets[i]) then StruckEvents(s, world[targets[i].value], rolls[i])
                else []
    decreases |targets|
  {
    if |targets| > 0 {
      var n := |targets| - 1;
      var entry := targets[n];
      assert Distinct(targets[..n]);
      SweepEventsSwept(s, self, attackerBox, world, targets[..n], rolls[..n]);
      var p := SweepAll(s, None, self, attackerBox, world, targets[..n], rolls[..n]);
      if entry.Some? {
        assert entry !in targets[..n];
      }
      SlotEventsUntouched(s, self, attackerBox, world, p.1, entry, rolls[n]);
      var step := Slot(s, None, self, attackerBox, p.1, entry, rolls[n]);
      var r := SweepAll(s, None, self, attackerBox, world, targets, rolls);
      assert r.2 == p.2 + [step.2];
      EventsOfPrefix(s, self, attackerBox, world, targets, rolls, p.2, step.2);
    }
  }

  /** The step of `SweepEventsSwept` on the lists alone: the first n
      slots' reports followed by slot n's report, each as promised. */
  lemma EventsOfPrefix(s: Stats, self: nat, attackerBox: Box, world: map<nat, Target>,
                       targets: seq<Option<nat>>, rolls: seq<int>, pre: seq<seq<HealthEvent>>, last: seq<HealthEvent>)
    requires |rolls| == |targets| == |pre| + 1 && DefensesSafe(world)
    requires forall i :: 0 <= i < |pre| ==>
               pre[i] == if Swept(world, self, attackerBox, targets[..|pre|][i])
                         then StruckEvents(s, world[targets[..|pre|][i].value], rolls[..|pre|][i]) else []
    requires last == if Swept(world, self, attackerBox, targets[|pre|])
                     then StruckEvents(s, world[targets[|pre|].value], rolls[|pre|]) else []
    ensures forall i :: 0 <= i < |targets| ==>
              (pre + [last])[i] == if Swept(world, self, attackerBox, targets[i])
                                   then StruckEvents(s, world[targets[i].value], rolls[i]) else []
  {
    forall i | 0 <= i < |targets|
      ensures (pre + [last])[i] == if Swept(world, self, attackerBox, targets[i])
                                   then StruckEvents(s, world[targets[i].value], rolls[i]) else []
    {
      if i < |pre| {
        assert targets[..|pre|][i] == targets[i] && rolls[..|pre|][i] == rolls[i];
      }
    }
  }

  /** The step of `SweepEventsSwept`: a slot whose node the sweep has not
      touched yet reports what it would report on the world as it was. */
  lemma SlotEventsUntouched(s: Stats, self: nat, attackerBox: Box, world: map<nat, Target>,
                            before: map<nat, Target>, entry: Option<nat>, roll: int)
    requires DefensesSafe(world) && DefensesSafe(before) && before.Keys == world.Keys
    requires entry.Some? ==> entry.value in world && before[entry.value] == world[entry.value]
    ensures Slot(s, None, self, attackerBox, before, entry, roll).2 ==
              if Swept(world, self, attackerBox, entry) then StruckEvents(s, world[entry.value], roll) else []
  {
    assert Swept(before, self, attackerBox, entry) == Swept(world, self, attackerBox, entry);
  }

  /** The step of `SweepStrikesSwept`: when the first n slots have been
      struck as promised and the node of slot n is still untouched, slot n
      keeps the promise for all n + 1 slots. */
  lemma SlotExtendsStrikes(s: Stats, self: nat, attackerBox: Box, world: map<nat, Target>,
                           targets: seq<Option<nat>>, rolls: seq<int>,
                           pre: seq<Option<nat>>, preRolls: seq<int>, before: map<nat, Target>)
    requires |rolls| == |targets| > 0 && DefensesSafe(world) && DefensesSafe(before) && Distinct(targets)
    requires pre == targets[..|targets| - 1] && preRolls == rolls[..|targets| - 1]
    requires before.Keys == world.Keys
    requires forall i :: 0 <= i < |targets| && targets[i].Some? ==> targets[i].value in world
    requires forall i :: 0 <= i < |pre| && pre[i].Some? ==>
               before[pre[i].value] ==
                 if Swept(world, self, attackerBox, pre[i]) then Struck(s, world[pre[i].value], preRolls[i])
                 else world[pre[i].value]
    requires targets[|targets| - 1].Some? ==> before[targets[|targets| - 1].value] == world[targets[|targets| - 1].value]
    ensures var step := Slot(s, None, self, attackerBox, before, targets[|targets| - 1], rolls[|targets| - 1]);
            (step.0 <==> Swept(world, self, attackerBox, targets[|targets| - 1])) &&
            forall i :: 0 <= i < |targets| && targets[i].Some? ==>
              step.1[targets[i].value] ==
                if Swept(world, self, attackerBox, targets[i]) then Struck(s, world[targets[i].value], rolls[i])
                else world[targets[i].value]
  {
    var n := |targets| - 1;
    var entry := targets[n];
    assert Swept(before, self, attackerBox, entry) == Swept(world, self, attackerBox, entry);
    var step := Slot(s, None, self, attackerBox, before, entry, rolls[n]);
    forall i | 0 <= i < |targets| && targets[i].Some?
      ensures step.1[targets[i].value] ==
                if Swept(world, self, attackerBox, targets[i]) then Struck(s, world[targets[i].value], rolls[i])
                else world[targets[i].value]
    {
      if i < n {
        assert targets[i] != entry;
        assert pre[i] == targets[i] && preRolls[i] == rolls[i];
      }
    }
  }

  /** What `executeMeleeAttack` promises of its count, resulting world
      and fired callbacks: at most one success per slot; one callback list
      per slot; the same nodes; the attacker and the nodes in no slot
      untouched; a custom callback changes nothing here and no health
      component fires; and, without one and with no node in two slots,
      exactly the swept slots are hit, each once, with the draw of its
      slot, each firing the callbacks of that hit while the other slots
      fire none. */
  predicate MeleeOutcome(s: Stats, custom: Option<Target -> bool>, self: nat, attackerBox: Box,
                         world: map<nat, Target>, targets: seq<Option<nat>>, rolls: seq<int>,
                         count: nat, after: map<nat, Target>, events: seq<seq<HealthEvent>>)
    requires |rolls| == |targets| && DefensesSafe(world)
    requires forall i :: 0 <= i < |targets| && targets[i].Some? ==> targets[i].value in world
  {
    count <= |targets| && |events| == |targets| &&
    after.Keys == world.Keys &&
    (forall id :: id in world && (id == self || Some(id) !in targets) ==> after[id] == world[id]) &&
    (custom.Some? ==> after == world && forall i :: 0 <= i < |events| ==> events[i] == []) &&
    (custom.None? && Distinct(targets) ==>
       count == CountSwept(world, self, attackerBox, targets) &&
       (forall i :: 0 <= i < |targets| && targets[i].Some? ==>
          after[targets[i].value] ==
            if Swept(world, self, attackerBox, targets[i]) then Struck(s, world[targets[i].value], rolls[i])
            else world[targets[i].value]) &&
       forall i :: 0 <= i < |targets| ==>
         events[i] == if Swept(world, self, attackerBox, targets[i]) then StruckEvents(s, world[targets[i].value], rolls[i])
                      else [])
  }

  /** With a custom callback the verdict is the callback's alone: no
      slot's attack reaches a health component, so no slot reports a
      callback. */
  lemma {:induction false} SweepCustomSilent(s: Stats, custom: Option<Target -> bool>, self: nat, attackerBox: Box,
                                             world: map<nat, Target>, targets: seq<Option<nat>>, rolls: seq<int>)
    requires custom.Some? && |rolls| == |targets| && DefensesSafe(world)
    ensures forall i :: 0 <= i < |targets| ==> SweepAll(s, custom, self, attackerBox, world, targets, rolls).2[i] == []
    decreases |targets|
  {
    if |targets| > 0 {
      var n := |targets| - 1;
      SweepCustomSilent(s, custom, self, attackerBox, world, targets[..n], rolls[..n]);
      var p := SweepAll(s, custom, self, attackerBox, world, targets[..n], rolls[..n]);
      var step := Slot(s, custom, self, attackerBox, p.1, targets[n], rolls[n]);
      var r := SweepAll(s, custom, self, attackerBox, world, targets, rolls);
      assert r.2 == p.2 + [step.2] && step.2 == [];
      forall i | 0 <= i < n
        ensures r.2[i] == []
      {
        assert r.2[i] == p.2[i];
      }
    }
  }

  /** The sweep keeps every promise of `executeMeleeAttack`. */
  lemma SweepAllMeets(s: Stats, custom: Option<Target -> bool>, self: nat, attackerBox: Box,
                      world: map<nat, Target>, targets: seq<Option<nat>>, rolls: seq<int>)
    requires |rolls| == |targets| && DefensesSafe(world)
    requires forall i :: 0 <= i < |targets| && targets[i].Some? ==> targets[i].value in world
    ensures var r := SweepAll(s, custom, self, attackerBox, world, targets, rolls);
            MeleeOutcome(s, custom, self, attackerBox, world, targets, rolls, r.0, r.1, r.2)
  {
    if custom.Some? {
      SweepCustomSilent(s, custom, self, attackerBox, world, targets, rolls);
    } else if Distinct(targets) {
      SweepStrikesSwept(s, self, attackerBox, world, targets, rolls);
      SweepEventsSwept(s, self, attackerBox, world, targets, rolls);
    }
  }

  /** `executeMeleeAttack` over a world of nodes and a list of target
      slots (None for a null pointer), with one draw per slot. Returns the
      number of successful attacks, the world afterwards and, slot by slot
      in sweep order, the callbacks the struck targets' health components
      fired. Without a custom callback and with no node in two slots,
      exactly the swept slots are hit, each once, with the draw of its
      slot, and each reports the callbacks of that hit. */
  function ExecuteMeleeAttack(s: Stats, custom: Option<Target -> bool>, self: nat, attackerBox: Box,
                              world: map<nat, Target>, targets: seq<Option<nat>>, rolls: seq<int>): (r: (nat, map<nat, Target>, seq<seq<HealthEvent>>))
    requires |rolls| == |targets| && DefensesSafe(world)
    requires forall i :: 0 <= i < |targets| && targets[i].Some? ==> targets[i].value in world
    ensures MeleeOutcome(s, custom, self, attackerBox, world, targets, rolls, r.0, r.1, r.2)
  {
    SweepAllMeets(s, custom, self, attackerBox, world, targets, rolls);
    SweepAll(s, custom, self, attackerBox, world, targets, rolls)
  }
}
