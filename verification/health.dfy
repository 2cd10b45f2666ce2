/** The health component (`HealthComponent`): current and maximum health,
    the invincible and dead flags, and the callbacks it fires. A callback
    is an event appended to the returned list, in the order the component
    fires them; an owner without that callback ignores the event. */
module Health {
  import opened Base

  datatype Health = Health(max: real, current: real, invincible: bool, dead: bool)

  /** Callback invocations: the hurt hook with the damage taken, the dead
      hook, and the health-change hook with its two arguments. */
  datatype HealthEvent = Hurt(amount: real) | Died | Changed(current: real, second: real)

  datatype Outcome = Outcome(health: Health, events: seq<HealthEvent>)

  /** A freshly constructed component: zero maximum and current health. */
  const Fresh: Health := Health(0.0, 0.0, false, false)

  /** The invariant every operation keeps: 0 ≤ current ≤ max. */
  predicate Valid(h: Health)
  {
    0.0 <= h.current <= h.max
  }

  /** `init`: refuses a non-positive maximum; otherwise full health,
      alive, not invincible. */
  function Init(h: Health, maxHealth: real): (r: (bool, Health))
    ensures !r.0 <==> maxHealth <= 0.0
    ensures !r.0 ==> r.1 == h
    ensures r.0 ==> r.1 == Health(maxHealth, maxHealth, false, false) && Valid(r.1)
  {
    if maxHealth <= 0.0 then (false, h) else (true, Health(maxHealth, maxHealth, false, false))
  }

  /** `takeDamage`. */
  function TakeDamage(h: Health, damage: real): (r: Outcome)
    ensures h.invincible || h.dead ==> r == Outcome(h, [])
    ensures !h.invincible && !h.dead ==>
              var taken := Max(damage, 0.0);
              var hurt := r.health;
              hurt.max == h.max && hurt.invincible == h.invincible &&
              hurt.current == Max(h.current - taken, 0.0) &&
              (hurt.dead <==> hurt.current <= 0.0) &&
              r.events == [Hurt(taken)] + (if hurt.dead then [Died] else []) + [Changed(hurt.current, h.current)]
    ensures Valid(h) ==> Valid(r.health) && r.health.current <= h.current
  {
    if h.invincible || h.dead then Outcome(h, [])
    else
      var taken := Max(damage, 0.0);
      var cur := Max(h.current - taken, 0.0);
      var dies := cur <= 0.0;
      Outcome(h.(current := cur, dead := dies),
              [Hurt(taken)] + (if dies then [Died] else []) + [Changed(cur, h.current)])
  }

  /** `heal`: ignored when dead; a negative amount counts as zero; capped at
      the maximum. */
  function Heal(h: Health, amount: real): (r: Outcome)
    ensures h.dead ==> r == Outcome(h, [])
    ensures !h.dead ==>
              r.health == h.(current := Min(h.current + Max(amount, 0.0), h.max)) &&
              r.events == [Changed(r.health.current, h.current)]
    ensures Valid(h) ==> Valid(r.health) && r.health.current >= h.current
  {
    if h.dead then Outcome(h, [])
    else
      var cur := Min(h.current + Max(amount, 0.0), h.max);
      Outcome(h.(current := cur), [Changed(cur, h.current)])
  }

  /** `setMaxHealth`: ignores a non-positive maximum; clamps the current
      health to the new one. */
  function SetMaxHealth(h: Health, maxHealth: real): (r: Outcome)
    ensures maxHealth <= 0.0 ==> r == Outcome(h, [])
    ensures maxHealth > 0.0 ==>
              r.health == h.(max := maxHealth, current := Min(h.current, maxHealth)) &&
              r.events == [Changed(r.health.current, h.current)]
    ensures Valid(h) ==> Valid(r.health)
  {
    if maxHealth <= 0.0 then Outcome(h, [])
    else
      var cur := Min(h.current, maxHealth);
      Outcome(h.(max := maxHealth, current := cur), [Changed(cur, h.current)])
  }

  /** `getHealthPercentage`: zero without a positive maximum. */
  function Percentage(h: Health): (p: real)
    ensures h.max <= 0.0 ==> p == 0.0
    ensures h.max > 0.0 ==> p * h.max == h.current
    ensures Valid(h) ==> 0.0 <= p <= 1.0
  {
    if h.max <= 0.0 then 0.0 else DivUnit(h.current, h.max); h.current / h.max
  }

  /** `reset`: full health and alive; the change hook gets 0 as its second
      argument. */
  function Reset(h: Health): (r: Outcome)
    ensures r.health == h.(current := h.max, dead := false)
    ensures r.events == [Changed(h.max, 0.0)]
    ensures Valid(h) ==> Valid(r.health)
  {
    Outcome(h.(current := h.max, dead := false), [Changed(h.max, 0.0)])
  }

  /** `fullHeal`: full health without touching the dead flag; the change
      hook (with the amount healed as second argument) fires only when the
      health actually changed. */
  function FullHeal(h: Health): (r: Outcome)
    ensures r.health == h.(current := h.max)
    ensures r.health.dead == h.dead
    ensures r.events == if h.current != h.max then [Changed(h.max, h.max - h.current)] else []
  {
    Outcome(h.(current := h.max), if h.current != h.max then [Changed(h.max, h.max - h.current)] else [])
  }

  /** `setCurrentHealth`: clamped into [0, max]; a positive result revives. */
  function SetCurrentHealth(h: Health, value: real): (r: Outcome)
    ensures r.health.max == h.max && r.health.invincible == h.invincible
    ensures h.max >= 0.0 ==> Valid(r.health)
    ensures h.max >= 0.0 && 0.0 <= value <= h.max ==> r.health.current == value
    ensures h.max >= 0.0 && value > h.max ==> r.health.current == h.max
    ensures value < 0.0 ==> r.health.current == 0.0
    ensures r.health.dead == (h.dead && r.health.current <= 0.0)
    ensures r.events == [Changed(r.health.current, h.current)]
  {
    var cur := Max(0.0, Min(value, h.max));
    Outcome(h.(current := cur, dead := if cur > 0.0 then false else h.dead), [Changed(cur, h.current)])
  }

  /** `setInvincible`: only the flag changes. */
  function SetInvincible(h: Health, on: bool): (r: Health)
    ensures r.invincible == on
    ensures r.max == h.max && r.current == h.current && r.dead == h.dead
  {
    h.(invincible := on)
  }

  /** While invincible, hits change nothing and run no hook; switching it
      off again restores the original component. */
  lemma InvincibleIgnoresHits(h: Health, damage: real)
    ensures TakeDamage(SetInvincible(h, true), damage) == Outcome(SetInvincible(h, true), [])
    ensures SetInvincible(SetInvincible(h, true), h.invincible) == h
  {
  }

  // ---------------------------------------------------------------------
  // Properties

  /** Hits applied one after another, with the events of all of them. */
  function TakeDamages(h: Health, hits: seq<real>): (r: Outcome)
    ensures Valid(h) ==> Valid(r.health)
    ensures r.health.max == h.max
    decreases |hits|
  {
    if |hits| == 0 then Outcome(h, [])
    else
      var first := TakeDamage(h, hits[0]);
      var rest := TakeDamages(first.health, hits[1..]);
      Outcome(rest.health, first.events + rest.events)
  }

  function CountDied(es: seq<HealthEvent>): nat
  {
    if |es| == 0 then 0 else (if es[0] == Died then 1 else 0) + CountDied(es[1..])
  }

  lemma CountDiedAppend(a: seq<HealthEvent>, b: seq<HealthEvent>)
    ensures CountDied(a + b) == CountDied(a) + CountDied(b)
  {
    if |a| > 0 {
      assert (a + b)[1..] == a[1..] + b;
    } else {
      assert a + b == b;
    }
  }

  /** The dead hook fires at most once over any run of hits, and never for
      a component that is already dead; once dead, the component stays dead. */
  lemma {:induction false} DiesAtMostOnce(h: Health, hits: seq<real>)
    ensures CountDied(TakeDamages(h, hits).events) <= 1
    ensures h.dead ==> CountDied(TakeDamages(h, hits).events) == 0 && TakeDamages(h, hits).health.dead
    ensures CountDied(TakeDamages(h, hits).events) == 1 ==> TakeDamages(h, hits).health.dead
    decreases |hits|
  {
    if |hits| > 0 {
      var first := TakeDamage(h, hits[0]);
      DiesAtMostOnce(first.health, hits[1..]);
      CountDiedAppend(first.events, TakeDamages(first.health, hits[1..]).events);
      if !h.invincible && !h.dead {
        var es := first.events;
        if first.health.dead {
          var ch := Changed(first.health.current, h.current);
          assert es == [Hurt(Max(hits[0], 0.0)), Died, ch];
          assert es[1..] == [Died, ch] && es[1..][1..] == [ch];
          assert CountDied([ch]) == 0;
        } else {
          var ch := Changed(first.health.current, h.current);
          assert es == [Hurt(Max(hits[0], 0.0)), ch];
          assert es[1..] == [ch];
          assert CountDied([ch]) == 0;
        }
      }
    }
  }

  /** A hit that does not kill is undone by healing the same amount. */
  lemma HealUndoesHit(h: Health, damage: real)
    requires Valid(h) && !h.dead && !h.invincible
    requires 0.0 <= damage < h.current
    ensures Heal(TakeDamage(h, damage).health, damage).health == h
  {
  }

  /** Damage lowers health by exactly the amount until it reaches zero, so
      health never goes below zero and death comes with exactly zero. */
  lemma DamageFloorsAtZero(h: Health, damage: real)
    requires Valid(h) && !h.dead && !h.invincible
    ensures var r := TakeDamage(h, damage).health;
            (damage >= h.current ==> r.current == 0.0 && r.dead) &&
            (0.0 <= damage < h.current ==> r.current == h.current - damage && !r.dead)
  {
  }
  /** Hits never touch the invincible flag or the maximum. */
  lemma {:induction false} HitsKeepFlags(h: Health, hits: seq<real>)
    ensures TakeDamages(h, hits).health.invincible == h.invincible
    decreases |hits|
  {
    if |hits| > 0 {
      HitsKeepFlags(TakeDamage(h, hits[0]).health, hits[1..]);
    }
  }

  /** Whatever hits came before, `reset` revives to the state `init` with
      the same maximum would have built (for a component that is not
      invincible). */
  lemma ResetAfterHits(h: Health, hits: seq<real>)
    requires h.max > 0.0 && !h.invincible
    ensures Reset(TakeDamages(h, hits).health).health == Init(h, h.max).1
    ensures !Reset(TakeDamages(h, hits).health).health.dead
  {
    HitsKeepFlags(h, hits);
  }

  /** On a live component, `fullHeal` ends where healing the missing
      amount ends. */
  lemma FullHealIsHeal(h: Health)
    requires Valid(h) && !h.dead
    ensures FullHeal(h).health == Heal(h, h.max - h.current).health
  {
  }

  /** Applying the same maximum twice changes nothing more. */
  lemma SetMaxIdempotent(h: Health, maxHealth: real)
    ensures var once := SetMaxHealth(h, maxHealth).health;
            SetMaxHealth(once, maxHealth).health == once
  {
  }

  /** A value set in range reads back through the percentage: it is the
      value's share of the maximum. */
  lemma SetThenPercentage(h: Health, value: real)
    requires h.max > 0.0 && 0.0 <= value <= h.max
    ensures Percentage(SetCurrentHealth(h, value).health) * h.max == value
  {
  }
}
