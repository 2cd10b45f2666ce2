/** The player's states (`WukongStates`): Idle, Move, Jump, Roll, the three
    attack steps, Hurt, Dead and Skill. Each `onEnter` and `onUpdate` is a
    function from the state's own data and the player to the new data, the
    player (velocity, combo buffer, clip) and the state names requested;
    an attack's update also reports the targets handed to the melee check,
    and Dead's whether the death menu is shown. */
module WukongStates {
  import opened Base
  import opened Geometry
  import Fsm
  import Character
  import Wukong

  /** The per-state data of the states that keep any. */
  datatype Jump = Jump(t: real, landTriggered: bool, leftGround: bool)
  datatype Roll = Roll(t: real, dur: real, moveEnd: real, stopped: bool)
  datatype Attack = Attack(step: int, t: real, queuedNext: bool, dur: real, damageDealt: bool)
  datatype Timed = Timed(t: real, dur: real)
  datatype Dying = Dying(t: real, dur: real, menuShown: bool)

  datatype PState = IdleS | MoveS | JumpS(jump: Jump) | RollS(roll: Roll) | AttackS(attack: Attack)
                  | HurtS(hurt: Timed) | DeadS(dying: Dying) | SkillS(skill: Timed)

  /** One update's result: the state data, the player, the names
      requested, the live enemies handed to the melee check when it ran,
      and whether the death menu was shown. */
  datatype Outcome = Outcome(state: PState, w: Wukong.Wukong, requests: seq<string>,
                             strike: Option<seq<Character.Foe>>, menu: bool)

  /** The fraction of a clip after which a state hands over. */
  const EndFraction: real := 0.95
  /** Clip durations below this are replaced by the state's default. */
  const MinDuration: real := 0.05
  const RollDefault: real := 0.45
  const HurtDefault: real := 0.35
  const SkillDefault: real := 0.8
  const DeadMinimum: real := 0.5
  const DeadDefault: real := 1.0
  /** Roll moves only during this fraction of its clip. */
  const RollMoveFraction: real := 0.55
  const RollSpeedFactor: real := 1.25
  /** The combo input window, as fractions of the attack clip. */
  const ComboOpen: real := 0.20
  const ComboClose: real := 0.65
  /** Jump ignores the ground for this long after take-off. */
  const JumpGuard: real := 0.08
  const JumpFallback: real := 0.35

  /** The state to settle into: Move when input wants to move, else Idle. */
  function Settle(w: Wukong.Wukong): (r: string)
    ensures r == "Move" <==> Character.Moving(w.ch.intent)
    ensures r == "Move" || r == "Idle"
  {
    if Character.Moving(w.ch.intent) then "Move" else "Idle"
  }

  /** A clip duration with its state's floor: below `floor` it becomes
      `dflt`. */
  function Fix(d: real, floor: real, dflt: real): (r: real)
    ensures d >= floor ==> r == d
    ensures d < floor ==> r == dflt
    ensures dflt >= floor ==> r >= floor
  {
    if d < floor then dflt else d
  }

  /** Stop the player's horizontal motion. */
  function Stop(w: Wukong.Wukong): (r: Wukong.Wukong)
    ensures r.ch == Character.StopHorizontal(w.ch) && r == w.(ch := r.ch)
  {
    w.(ch := Character.StopHorizontal(w.ch))
  }

  /** `MoveState::moveTowardAngleDeg`: the signed shortest turn from `cur`
      to `target`, taken from `fmod(target − cur + 540, 360) − 180`
      (C `fmod`, truncating), clamped to ±maxDelta. */
  function TurnDelta(cur: real, target: real): (d: real)
    ensures target - cur + 540.0 >= 0.0 ==> -180.0 <= d < 180.0
  {
    FMod(target - cur + 540.0, 360.0) - 180.0
  }

  function MoveTowardAngleDeg(cur: real, target: real, maxDelta: real): (r: real)
    ensures maxDelta >= 0.0 ==> -maxDelta <= r - cur <= maxDelta
    ensures -maxDelta <= TurnDelta(cur, target) <= maxDelta ==> r == cur + TurnDelta(cur, target)
    ensures TurnDelta(cur, target) > maxDelta && maxDelta >= 0.0 ==> r == cur + maxDelta
    ensures TurnDelta(cur, target) < -maxDelta && maxDelta >= 0.0 ==> r == cur - maxDelta
  {
    var delta := TurnDelta(cur, target);
    var delta := if delta > maxDelta then maxDelta else delta;
    var delta := if delta < -maxDelta then -maxDelta else delta;
    cur + delta
  }

  /** `n` whole turns, in degrees. */
  function Turns(n: int): real
  {
    360.0 * n as real
  }

  /** An unclamped turn ends on the target angle up to whole turns. */
  lemma TurnReachesTarget(cur: real, target: real, maxDelta: real)
    requires -maxDelta <= TurnDelta(cur, target) <= maxDelta
    ensures exists n: int :: MoveTowardAngleDeg(cur, target, maxDelta) == target + Turns(n)
  {
    var x := target - cur + 540.0;
    var k := Trunc(x / 360.0);
    assert FMod(x, 360.0) == x - 360.0 * k as real;
    var n := 1 - k;
    assert MoveTowardAngleDeg(cur, target, maxDelta) == target + Turns(n);
  }

  // ---------------------------------------------------------------------
  // Entering

  /** The roll direction: the input when it wants to move, else the
      facing, else +Z. */
  function RollDir(intent: Vec3, facing: Vec3): (d: Vec3)
    ensures LengthSq(d) > Character.IntentEpsilon
    ensures LengthSq(intent) > Character.IntentEpsilon ==> d == intent
  {
    if LengthSq(intent) > Character.IntentEpsilon then intent
    else if LengthSq(facing) > Character.IntentEpsilon then facing
    else Vec3(0.0, 0.0, 1.0)
  }

  /** `RollState::onEnter`: stopped, the roll clip, timer 0, the clip's
      duration (0.45 below 0.05), motion until 0.55 of it, and a horizontal
      velocity of 1.25 × run speed along the normalised roll direction.
      `facing` is the forward vector of the player's yaw and `len` the
      length of the roll direction. */
  function EnterRoll(w: Wukong.Wukong, facing: Vec3, len: real): (r: (Roll, Wukong.Wukong))
    requires len > 0.0 && len * len == LengthSq(RollDir(w.ch.intent.dir, facing))
    ensures var dur := Fix(Wukong.AnimDuration(w, "roll"), MinDuration, RollDefault);
            r.0 == Roll(0.0, dur, RollMoveFraction * dur, false) && dur >= MinDuration && r.0.moveEnd > 0.0
    ensures var d := RollDir(w.ch.intent.dir, facing);
            var k := w.ch.runSpeed * RollSpeedFactor / len;
            r.1.ch.body.vel == Vec3(d.x * k, w.ch.body.vel.y, d.z * k)
    ensures r.1.curAnim == Wukong.PlayAnim(w, "roll").curAnim
  {
    var w1 := Wukong.PlayAnim(Stop(w), "roll");
    var dur := Fix(Wukong.AnimDuration(w, "roll"), MinDuration, RollDefault);
    var d := RollDir(w.ch.intent.dir, facing);
    var k := w.ch.runSpeed * RollSpeedFactor / len;
    (Roll(0.0, dur, RollMoveFraction * dur, false),
     w1.(ch := Character.SetHorizontalVelocity(w1.ch, Vec3(d.x * k, 0.0, d.z * k))))
  }

  /** A roll along level input moves at exactly 1.25 × run speed. */
  lemma RollSpeed(w: Wukong.Wukong, facing: Vec3, len: real)
    requires len > 0.0 && len * len == LengthSq(RollDir(w.ch.intent.dir, facing))
    requires RollDir(w.ch.intent.dir, facing).y == 0.0
    ensures var v := EnterRoll(w, facing, len).1.ch.body.vel;
            var speed := w.ch.runSpeed * RollSpeedFactor;
            v.x * v.x + v.z * v.z == speed * speed
  {
    LevelSpeed(RollDir(w.ch.intent.dir, facing), w.ch.runSpeed * RollSpeedFactor, len);
  }

  /** The clip of an attack step. */
  function AttackClip(step: int): string
  {
    if step == 1 then "attack1" else if step == 2 then "attack2" else "attack3"
  }

  /** The state name of an attack step. */
  function AttackName(step: int): string
  {
    if step == 1 then "Attack1" else if step == 2 then "Attack2" else "Attack3"
  }

  /** `onEnter` of the named state. Idle stops and plays idle; Move
      refreshes the locomotion clip; Jump starts the jump clip; the others
      stop, play their clip and take its duration with their floor and
      default (an attack takes its clip's duration as it is). */
  function Enter(name: string, w: Wukong.Wukong, facing: Vec3, rollLen: real): (r: Option<(PState, Wukong.Wukong)>)
    requires name == "Roll" ==> rollLen > 0.0 && rollLen * rollLen == LengthSq(RollDir(w.ch.intent.dir, facing))
    ensures r.Some? <==> name in Character.RegisteredStates
    ensures name == "Idle" ==> r == Some((IdleS, Wukong.PlayAnim(Stop(w), "idle")))
    ensures name == "Move" ==> r == Some((MoveS, Wukong.UpdateLocomotionAnim(w, w.ch.intent.run)))
    ensures name == "Jump" ==> r == Some((JumpS(Jump(0.0, false, false)), Wukong.StartJumpAnim(w)))
    ensures name == "Roll" ==> r == Some((RollS(EnterRoll(w, facing, rollLen).0), EnterRoll(w, facing, rollLen).1))
    ensures name in {"Attack1", "Attack2", "Attack3"} ==>
              var step := if name == "Attack1" then 1 else if name == "Attack2" then 2 else 3;
              r == Some((AttackS(Attack(step, 0.0, false, Wukong.AnimDuration(w, AttackClip(step)), false)),
                         Wukong.PlayAnim(Stop(w), AttackClip(step))))
    ensures name == "Hurt" ==> r == Some((HurtS(Timed(0.0, Fix(Wukong.AnimDuration(w, "hurt"), MinDuration, HurtDefault))),
                                          Wukong.PlayAnim(Stop(w), "hurt")))
    ensures name == "Skill" ==> r == Some((SkillS(Timed(0.0, Fix(Wukong.AnimDuration(w, "skill"), MinDuration, SkillDefault))),
                                           Wukong.PlayAnim(Stop(w), "skill")))
    ensures name == "Dead" ==> r == Some((DeadS(Dying(0.0, Fix(Wukong.AnimDuration(w, "dead"), DeadMinimum, DeadDefault), false)),
                                          Wukong.PlayAnim(Stop(w), "dead")))
  {
    if name == "Idle" then Some((IdleS, Wukong.PlayAnim(Stop(w), "idle")))
    else if name == "Move" then Some((MoveS, Wukong.UpdateLocomotionAnim(w, w.ch.intent.run)))
    else if name == "Jump" then Some((JumpS(Jump(0.0, false, false)), Wukong.StartJumpAnim(w)))
    else if name == "Roll" then
      var e := EnterRoll(w, facing, rollLen);
      Some((RollS(e.0), e.1))
    else if name in {"Attack1", "Attack2", "Attack3"} then
      var step := if name == "Attack1" then 1 else if name == "Attack2" then 2 else 3;
      Some((AttackS(Attack(step, 0.0, false, Wukong.AnimDuration(w, AttackClip(step)), false)),
            Wukong.PlayAnim(Stop(w), AttackClip(step))))
    else if name == "Hurt" then
      Some((HurtS(Timed(0.0, Fix(Wukong.AnimDuration(w, "hurt"), MinDuration, HurtDefault))), Wukong.PlayAnim(Stop(w), "hurt")))
    else if name == "Skill" then
      Some((SkillS(Timed(0.0, Fix(Wukong.AnimDuration(w, "skill"), MinDuration, SkillDefault))), Wukong.PlayAnim(Stop(w), "skill")))
    else if name == "Dead" then
      Some((DeadS(Dying(0.0, Fix(Wukong.AnimDuration(w, "dead"), DeadMinimum, DeadDefault), false)), Wukong.PlayAnim(Stop(w), "dead")))
    else None
  }

  /** Every state but Move and Jump starts with the player's horizontal
      motion stopped, except Roll which sets its own. */
  lemma EnteringStops(name: string, w: Wukong.Wukong, facing: Vec3, rollLen: real)
    requires name in Character.RegisteredStates && name !in {"Move", "Jump", "Roll"}
    ensures var r := Enter(name, w, facing, rollLen).value.1;
            r.ch.body.vel == Vec3(0.0, w.ch.body.vel.y, 0.0) && r.ch.body.pos == w.ch.body.pos
  {
  }

  /** `onExit`: Move and Roll stop horizontal motion; the others do
      nothing. */
  function Exit(st: PState, w: Wukong.Wukong): (r: Wukong.Wukong)
    ensures st.MoveS? || st.RollS? ==> r == Stop(w)
    ensures !(st.MoveS? || st.RollS?) ==> r == w
  {
    if st.MoveS? || st.RollS? then Stop(w) else w
  }

  // ---------------------------------------------------------------------
  // Updating

  /** `IdleState::onUpdate`: Move as soon as input wants to move. */
  function IdleUpdate(w: Wukong.Wukong): (r: Outcome)
    ensures r.state == IdleS && r.w == w && r.strike.None? && !r.menu
    ensures r.requests == ["Move"] <==> Character.Moving(w.ch.intent)
    ensures !Character.Moving(w.ch.intent) ==> r.requests == []
  {
    Outcome(IdleS, w, if Character.Moving(w.ch.intent) then ["Move"] else [], None, false)
  }

  /** `MoveState::onUpdate` with `len` the length of the intent: without
      input the player stops and asks for Idle; otherwise its horizontal
      velocity is the normalised intent times the run or walk speed and
      the locomotion clip is refreshed. */
  function MoveUpdate(w: Wukong.Wukong, len: real): (r: Outcome)
    requires len >= 0.0 && len * len == LengthSq(w.ch.intent.dir)
    ensures r.state == MoveS && r.strike.None? && !r.menu
    ensures !Character.Moving(w.ch.intent) ==> r.requests == ["Idle"] && r.w == Stop(w)
    ensures Character.Moving(w.ch.intent) ==>
              var k := (if w.ch.intent.run then w.ch.runSpeed else w.ch.walkSpeed) / len;
              var d := w.ch.intent.dir;
              r.requests == [] && len > 0.0 &&
              r.w.ch.body.vel == Vec3(d.x * k, w.ch.body.vel.y, d.z * k) &&
              r.w.ch.body.pos == w.ch.body.pos
  {
    if !Character.Moving(w.ch.intent) then Outcome(MoveS, Stop(w), ["Idle"], None, false)
    else
      assert len > 0.0;
      var d := w.ch.intent.dir;
      var k := (if w.ch.intent.run then w.ch.runSpeed else w.ch.walkSpeed) / len;
      var w1 := w.(ch := Character.SetHorizontalVelocity(w.ch, Vec3(d.x * k, 0.0, d.z * k)));
      Outcome(MoveS, Wukong.UpdateLocomotionAnim(w1, w.ch.intent.run), [], None, false)
  }

  /** Level input moves the player at exactly its gait's speed. */
  lemma GaitSpeed(w: Wukong.Wukong, len: real)
    requires len >= 0.0 && len * len == LengthSq(w.ch.intent.dir)
    requires Character.Moving(w.ch.intent) && w.ch.intent.dir.y == 0.0
    ensures var v := MoveUpdate(w, len).w.ch.body.vel;
            var speed := if w.ch.intent.run then w.ch.runSpeed else w.ch.walkSpeed;
            v.x * v.x + v.z * v.z == speed * speed
  {
    assert len > 0.0;
    LevelSpeed(w.ch.intent.dir, if w.ch.intent.run then w.ch.runSpeed else w.ch.walkSpeed, len);
  }

  /** `JumpState::onUpdate`: the timer runs; after the 0.08 s guard the
      first frame off the ground is remembered. It never requests a
      transition: landing is handled by the end of the jump clip. */
  function JumpUpdate(j: Jump, w: Wukong.Wukong, dt: real): (r: Outcome)
    ensures r.requests == [] && r.w == w && r.strike.None? && !r.menu
    ensures r.state.JumpS? && r.state.jump.t == j.t + dt && r.state.jump.landTriggered == j.landTriggered
    ensures r.state.jump.leftGround <==>
              j.leftGround || (!j.landTriggered && j.t + dt >= JumpGuard && !w.ch.body.onGround)
  {
    var t1 := j.t + dt;
    if j.landTriggered || t1 < JumpGuard || j.leftGround then Outcome(JumpS(j.(t := t1)), w, [], None, false)
    else Outcome(JumpS(j.(t := t1, leftGround := !w.ch.body.onGround)), w, [], None, false)
  }

  /** `RollState::onUpdate`: the timer runs; from `moveEnd` on the roll
      stops once; at 0.95 of the clip it stops and settles into Move or
      Idle. */
  function RollUpdate(rs: Roll, w: Wukong.Wukong, dt: real): (r: Outcome)
    ensures r.state == RollS(rs.(t := rs.t + dt, stopped := rs.stopped || rs.t + dt >= rs.moveEnd))
    ensures r.strike.None? && !r.menu
    ensures !rs.stopped && rs.t + dt >= rs.moveEnd ==> r.w.ch.body.vel.x == 0.0 && r.w.ch.body.vel.z == 0.0
    ensures rs.t + dt >= EndFraction * rs.dur ==> r.requests == [Settle(w)] && r.w == Stop(w)
    ensures rs.t + dt < EndFraction * rs.dur ==> r.requests == []
    ensures r.w == w || r.w == Stop(w)
  {
    var t1 := rs.t + dt;
    var stopNow := !rs.stopped && t1 >= rs.moveEnd;
    var w1 := if stopNow then Stop(w) else w;
    var st := RollS(rs.(t := t1, stopped := rs.stopped || stopNow));
    if t1 >= EndFraction * rs.dur then Outcome(st, Stop(w1), [Settle(w)], None, false)
    else Outcome(st, w1, [], None, false)
  }

  /** The roll's frames (state rule only) until it hands over. */
  function RollRun(rs: Roll, w: Wukong.Wukong, dts: seq<real>): (r: (Roll, Wukong.Wukong))
    decreases |dts|
  {
    if |dts| == 0 then (rs, w)
    else
      var o := RollUpdate(rs, w, dts[0]);
      if o.requests != [] then (o.state.roll, o.w) else RollRun(o.state.roll, o.w, dts[1..])
  }

  /** A roll stops sliding once its motion time is over: from the frame
      whose timer reaches `moveEnd` on, the horizontal velocity is zero
      (the state rule never sets it again). */
  lemma {:induction false} RollStopsSliding(rs: Roll, w: Wukong.Wukong, dts: seq<real>)
    requires rs.t >= rs.moveEnd ==> rs.stopped
    requires rs.stopped ==> w.ch.body.vel.x == 0.0 && w.ch.body.vel.z == 0.0
    ensures var r := RollRun(rs, w, dts);
            r.0.t >= r.0.moveEnd ==> r.1.ch.body.vel.x == 0.0 && r.1.ch.body.vel.z == 0.0
    ensures var r := RollRun(rs, w, dts);
            r.0.stopped ==> r.1.ch.body.vel.x == 0.0 && r.1.ch.body.vel.z == 0.0
    decreases |dts|
  {
    if |dts| > 0 {
      var o := RollUpdate(rs, w, dts[0]);
      if o.requests == [] {
        RollStopsSliding(o.state.roll, o.w, dts[1..]);
      }
    }
  }

  /** The hit check's timing for an attack step: the fraction of the clip
      at which it opens and how long it stays open. */
  function HitTiming(step: int): (r: (real, real))
  {
    if step == 1 then (0.35, 0.08)
    else if step == 2 then (0.45, 0.12)
    else if step == 3 then (0.40, 0.15)
    else (0.40, 0.1)
  }

  /** The enemies handed to the melee check: the non-null, live ones, in
      list order. */
  function LiveFoes(foes: seq<Option<Character.Foe>>): (r: seq<Character.Foe>)
    ensures |r| <= |foes|
    ensures forall f :: f in r <==> Some(f) in foes && !f.dead
    decreases |foes|
  {
    if |foes| == 0 then []
    else
      var rest := LiveFoes(foes[1..]);
      assert forall f :: Some(f) in foes <==> foes[0] == Some(f) || Some(f) in foes[1..];
      if foes[0].Some? && !foes[0].value.dead then [foes[0].value] + rest else rest
  }

  /** `performAttackHitCheck` at the attack's updated timer: once per
      activation, inside [ratio · dur, ratio · dur + window]; with a combat
      component and a non-empty enemy list, the live enemies (if any) go to
      the melee check. Reaching the window marks the check done either
      way. */
  function HitCheck(step: int, t: real, dur: real, dealt: bool, w: Wukong.Wukong): (r: (bool, Option<seq<Character.Foe>>))
    ensures var (ratio, window) := HitTiming(step);
            var open := !dealt && ratio * dur <= t <= ratio * dur + window;
            r.0 == (dealt || open) &&
            (r.1.Some? <==> open && w.ch.combat.Some? && w.ch.enemies.Some? && |w.ch.enemies.value| > 0 &&
                            |LiveFoes(w.ch.enemies.value)| > 0) &&
            (r.1.Some? ==> r.1.value == LiveFoes(w.ch.enemies.value))
  {
    var (ratio, window) := HitTiming(step);
    if dealt || !(ratio * dur <= t <= ratio * dur + window) then (dealt, None)
    else if w.ch.combat.Some? && w.ch.enemies.Some? && |w.ch.enemies.value| > 0 &&
            |LiveFoes(w.ch.enemies.value)| > 0 then (true, Some(LiveFoes(w.ch.enemies.value)))
    else (true, None)
  }

  /** `AttackState::onUpdate`: the timer runs; the hit check; inside
      [0.20 · dur, 0.65 · dur] the combo buffer is consumed and queues the
      next step; at 0.95 · dur a queued step below 3 chains to the next
      attack, otherwise the player settles into Move or Idle. */
  function AttackUpdate(a: Attack, w: Wukong.Wukong, dt: real): (r: Outcome)
    ensures var t := a.t + dt;
            var inWindow := ComboOpen * a.dur <= t <= ComboClose * a.dur;
            r.state.AttackS? && r.state.attack == a.(t := t, damageDealt := HitCheck(a.step, t, a.dur, a.damageDealt, w).0,
                          queuedNext := a.queuedNext || (inWindow && w.ch.comboBuffered)) &&
            r.strike == HitCheck(a.step, t, a.dur, a.damageDealt, w).1 &&
            (inWindow ==> r.w == w.(ch := Character.ConsumeComboBuffered(w.ch).1)) &&
            (!inWindow ==> r.w == w)
    ensures !r.menu
    ensures var t := a.t + dt;
            (t < EndFraction * a.dur ==> r.requests == []) &&
            (t >= EndFraction * a.dur && r.state.attack.queuedNext && a.step < 3 ==>
               r.requests == [if a.step == 1 then "Attack2" else "Attack3"]) &&
            (t >= EndFraction * a.dur && !(r.state.attack.queuedNext && a.step < 3) ==> r.requests == [Settle(w)])
  {
    var t := a.t + dt;
    var check := HitCheck(a.step, t, a.dur, a.damageDealt, w);
    var inWindow := ComboOpen * a.dur <= t <= ComboClose * a.dur;
    var consumed := if inWindow then Character.ConsumeComboBuffered(w.ch) else (false, w.ch);
    var w1 := w.(ch := consumed.1);
    var queued := a.queuedNext || consumed.0;
    var st := AttackS(a.(t := t, damageDealt := check.0, queuedNext := queued));
    var requests :=
      if t < EndFraction * a.dur then []
      else if queued && a.step < 3 then [if a.step == 1 then "Attack2" else "Attack3"]
      else [Settle(w1)];
    Outcome(st, w1, requests, check.1, false)
  }

  /** The third step never chains: whatever is buffered, Attack3 ends in
      Move or Idle. */
  lemma ThirdStepEndsCombo(a: Attack, w: Wukong.Wukong, dt: real)
    requires a.step == 3
    ensures var r := AttackUpdate(a, w, dt).requests;
            r == [] || r == ["Move"] || r == ["Idle"]
  {
  }

  /** The attack's frames until it hands over; counts the melee checks. */
  function AttackRun(a: Attack, w: Wukong.Wukong, dts: seq<real>): (r: nat)
    decreases |dts|
  {
    if |dts| == 0 then 0
    else
      var o := AttackUpdate(a, w, dts[0]);
      var here := if o.strike.Some? then 1 else 0;
      if o.requests != [] then here else here + AttackRun(o.state.attack, o.w, dts[1..])
  }

  /** The melee check runs at most once per activation: entering resets
      the flag, and a check only runs while the flag is clear. */
  lemma {:induction false} MeleeOncePerActivation(a: Attack, w: Wukong.Wukong, dts: seq<real>)
    ensures AttackRun(a, w, dts) <= (if a.damageDealt then 0 else 1)
    decreases |dts|
  {
    if |dts| > 0 {
      var o := AttackUpdate(a, w, dts[0]);
      if o.requests == [] {
        MeleeOncePerActivation(o.state.attack, o.w, dts[1..]);
      }
    }
  }

  /** `HurtState::onUpdate` and `SkillState::onUpdate`: at 0.95 of the clip
      the player settles into Move or Idle. */
  function TimedUpdate(st: Timed, w: Wukong.Wukong, dt: real): (r: (Timed, seq<string>))
    ensures r.0 == st.(t := st.t + dt)
    ensures st.t + dt >= EndFraction * st.dur ==> r.1 == [Settle(w)]
    ensures st.t + dt < EndFraction * st.dur ==> r.1 == []
  {
    var t := st.t + dt;
    (st.(t := t), if t >= EndFraction * st.dur then [Settle(w)] else [])
  }

  /** `DeadState::onUpdate`: once the menu has been shown nothing happens;
      before that the timer runs and the menu is shown when it reaches the
      clip's duration. */
  function DeadUpdate(st: Dying, dt: real): (r: (Dying, bool))
    ensures st.menuShown ==> r == (st, false)
    ensures !st.menuShown ==> r.0 == st.(t := st.t + dt, menuShown := r.1) && (r.1 <==> st.t + dt >= st.dur)
  {
    if st.menuShown then (st, false)
    else
      var t := st.t + dt;
      (st.(t := t, menuShown := t >= st.dur), t >= st.dur)
  }

  /** How many times the death menu shows over a run of frames. */
  function MenuCount(st: Dying, dts: seq<real>): (r: nat)
    decreases |dts|
  {
    if |dts| == 0 then 0
    else
      var o := DeadUpdate(st, dts[0]);
      (if o.1 then 1 else 0) + MenuCount(o.0, dts[1..])
  }

  /** The death menu shows at most once per death, and never again once
      shown. */
  lemma {:induction false} MenuShownOnce(st: Dying, dts: seq<real>)
    ensures MenuCount(st, dts) <= (if st.menuShown then 0 else 1)
    decreases |dts|
  {
    if |dts| > 0 {
      MenuShownOnce(DeadUpdate(st, dts[0]).0, dts[1..]);
    }
  }

  /** The current state's `onUpdate`; Move needs the intent's length. */
  function Update(st: PState, w: Wukong.Wukong, dt: real, intentLen: real): (r: Outcome)
    requires intentLen >= 0.0 && intentLen * intentLen == LengthSq(w.ch.intent.dir)
    ensures st.JumpS? ==> r.requests == []
    ensures st.DeadS? ==> r.requests == []
    ensures forall n :: n in r.requests ==> n in Character.RegisteredStates && n != "Dead"
  {
    match st
    case IdleS => IdleUpdate(w)
    case MoveS => MoveUpdate(w, intentLen)
    case JumpS(j) => JumpUpdate(j, w, dt)
    case RollS(rs) => RollUpdate(rs, w, dt)
    case AttackS(a) => AttackUpdate(a, w, dt)
    case HurtS(h) =>
      var o := TimedUpdate(h, w, dt);
      Outcome(HurtS(o.0), w, o.1, None, false)
    case SkillS(k) =>
      var o := TimedUpdate(k, w, dt);
      Outcome(SkillS(o.0), w, o.1, None, false)
    case DeadS(d) =>
      var o := DeadUpdate(d, dt);
      Outcome(DeadS(o.0), w, [], None, o.1)
  }
}
