/** The player (`Wukong`, a `Character`): its clip table and the clip
    requested last, the locomotion direction chosen from the input axis,
    the jump clip and its landing, and the healing skill with its charges
    and cooldown. Clips are modelled by their durations; a clip that failed
    to load is absent from the table. */
module Wukong {
  import opened Base
  import opened Geometry
  import Fsm
  import Health
  import Collider
  import Movement
  import Character

  /** The input axis: x to the right, y forward. */
  datatype Axis = Axis(x: real, y: real)

  datatype Dir = NoDir | Fwd | Bwd | Left | Right

  datatype Wukong = Wukong(ch: Character.Character, anims: map<string, real>, curAnim: string, moveAxis: Axis,
                           locoDir: Dir, locoRun: bool, jumpAnimPlaying: bool, skillCount: int, skillCooldown: real)

  const WalkSpeed: real := 140.0
  const RunSpeed: real := 240.0
  /** The collider's XZ shrink, so the staff does not widen the box. */
  const ColliderShrink: real := 0.4
  const SkillCharges: int := 3
  const SkillCooldown: real := 5.0
  const SkillHeal: real := 20.0
  /** The duration reported for a clip that is not in the table. */
  const MissingDuration: real := 0.6
  /** Squared axis length below which there is no locomotion direction. */
  const AxisDeadZone: real := 0.01

  /** What the skill refuses with: no charges left, or still cooling down. */
  datatype Notice = NoCharges | CoolingDown

  /** `playAnim`: a no-op for the clip already playing or a clip not in the
      table; otherwise the clip becomes the current one. */
  function PlayAnim(w: Wukong, name: string): (r: Wukong)
    ensures r == w.(curAnim := r.curAnim)
    ensures r.curAnim != w.curAnim <==> name != w.curAnim && name in w.anims
    ensures r.curAnim != w.curAnim ==> r.curAnim == name
    ensures name in w.anims ==> r.curAnim == name
  {
    if w.curAnim == name || name !in w.anims then w else w.(curAnim := name)
  }

  /** Requesting the same clip twice is requesting it once. */
  lemma PlayAnimIdempotent(w: Wukong, name: string)
    ensures PlayAnim(PlayAnim(w, name), name) == PlayAnim(w, name)
  {
  }

  /** `getAnimDuration`: the clip's duration, 0.6 for a missing clip. */
  function AnimDuration(w: Wukong, key: string): (d: real)
    ensures key in w.anims ==> d == w.anims[key]
    ensures key !in w.anims ==> d == MissingDuration
  {
    if key in w.anims then w.anims[key] else MissingDuration
  }

  /** `init` after the character's own: walk 140, run 240, the clip table
      (with "run" an alias of "run_fwd"), idle playing, the collider box
      taken from the model and shrunk to 40% in X and Z. */
  function Init(ch: Character.Character, loaded: map<string, real>, model: Collider.Model): (r: Wukong)
    ensures r.ch.walkSpeed == WalkSpeed && r.ch.runSpeed == RunSpeed
    ensures r.ch.collider == Collider.CalculateBoundingBox(ch.collider, Some(model), ColliderShrink)
    ensures "run_fwd" in loaded ==> "run" in r.anims && r.anims["run"] == loaded["run_fwd"]
    ensures "run_fwd" !in loaded ==> "run" !in r.anims
    ensures forall k :: k in loaded && k != "run" ==> k in r.anims && r.anims[k] == loaded[k]
    ensures r.curAnim == (if "idle" in loaded then "idle" else "")
    ensures r.skillCount == SkillCharges && r.skillCooldown == 0.0 && r.locoDir == NoDir && !r.jumpAnimPlaying
  {
    var anims := if "run_fwd" in loaded then loaded["run" := loaded["run_fwd"]] else loaded - {"run"};
    var c := ch.(walkSpeed := WalkSpeed, runSpeed := RunSpeed,
                 collider := Collider.CalculateBoundingBox(ch.collider, Some(model), ColliderShrink));
    PlayAnim(Wukong(c, anims, "", Axis(0.0, 0.0), NoDir, false, false, SkillCharges, 0.0), "idle")
  }

  /** `startJumpAnim`: with a jump clip, it becomes current (even if it
      already was) and the jump clip is marked as playing. */
  function StartJumpAnim(w: Wukong): (r: Wukong)
    ensures "jump" !in w.anims ==> r == w
    ensures "jump" in w.anims ==> r == w.(curAnim := "jump", jumpAnimPlaying := true)
  {
    if "jump" !in w.anims then w else w.(curAnim := "jump", jumpAnimPlaying := true)
  }

  /** The end of the jump clip: the clip stops playing and `onJumpLanded`
      asks for Move when input wants to move, else Idle. */
  function JumpLanded(w: Wukong): (r: (Wukong, seq<Fsm.Hook>))
    ensures var want := if Character.Moving(w.ch.intent) then "Move" else "Idle";
            var step := Fsm.ChangeByName(w.ch.machine, want);
            r.0 == w.(jumpAnimPlaying := false, ch := w.ch.(machine := step.machine)) && r.1 == step.hooks
  {
    var step := Fsm.ChangeByName(w.ch.machine, if Character.Moving(w.ch.intent) then "Move" else "Idle");
    (w.(jumpAnimPlaying := false, ch := w.ch.(machine := step.machine)), step.hooks)
  }

  /** Landing always leaves the character on its feet: in Move with input,
      in Idle without. */
  lemma LandsInMoveOrIdle(w: Wukong)
    requires w.ch.machine.states == Character.RegisteredStates
    ensures Character.Moving(w.ch.intent) ==> Fsm.IsInState(JumpLanded(w).0.ch.machine, "Move")
    ensures !Character.Moving(w.ch.intent) ==> Fsm.IsInState(JumpLanded(w).0.ch.machine, "Idle")
  {
  }

  /** `calcLocomotionDir`: nothing inside the dead zone; otherwise the
      larger axis decides (ties go to forward/backward), by its sign. */
  function CalcLocomotionDir(a: Axis): (r: Dir)
    ensures r == NoDir <==> a.x * a.x + a.y * a.y < AxisDeadZone
    ensures r == Fwd ==> Abs(a.y) >= Abs(a.x) && a.y >= 0.0
    ensures r == Bwd ==> Abs(a.y) >= Abs(a.x) && a.y < 0.0
    ensures r == Right ==> Abs(a.y) < Abs(a.x) && a.x >= 0.0
    ensures r == Left ==> Abs(a.y) < Abs(a.x) && a.x < 0.0
  {
    if a.x * a.x + a.y * a.y < AxisDeadZone then NoDir
    else if Abs(a.y) >= Abs(a.x) then (if a.y >= 0.0 then Fwd else Bwd)
    else if a.x >= 0.0 then Right
    else Left
  }

  function Opposite(d: Dir): Dir
  {
    match d
    case NoDir => NoDir
    case Fwd => Bwd
    case Bwd => Fwd
    case Left => Right
    case Right => Left
  }

  /** Reversing the stick reverses the direction: outside the dead zone no
      axis is zero on the deciding side, so the sign flips cleanly. */
  lemma ReversedAxisReversesDir(a: Axis)
    ensures CalcLocomotionDir(Axis(-a.x, -a.y)) == Opposite(CalcLocomotionDir(a))
  {
    assert (-a.x) * (-a.x) + (-a.y) * (-a.y) == a.x * a.x + a.y * a.y;
  }

  /** The clip for a direction; "run_fwd" for anything unlisted. */
  function DirClip(d: Dir): string
  {
    match d
    case Fwd => "run_fwd"
    case Bwd => "run_bwd"
    case Left => "run_left"
    case Right => "run_right"
    case NoDir => "run_fwd"
  }

  /** `updateLocomotionAnim`: no-op without a direction or when direction
      and running flag are unchanged; otherwise both are remembered and the
      direction's clip is requested, falling back to "run_fwd" when that
      clip is missing. */
  function UpdateLocomotionAnim(w: Wukong, running: bool): (r: Wukong)
    ensures var d := CalcLocomotionDir(w.moveAxis);
            (d == NoDir || (d == w.locoDir && running == w.locoRun)) ==> r == w
    ensures var d := CalcLocomotionDir(w.moveAxis);
            !(d == NoDir || (d == w.locoDir && running == w.locoRun)) ==>
              r.locoDir == d && r.locoRun == running &&
              r == PlayAnim(w.(locoDir := d, locoRun := running),
                            if DirClip(d) in w.anims then DirClip(d) else "run_fwd")
  {
    var d := CalcLocomotionDir(w.moveAxis);
    if d == NoDir || (d == w.locoDir && running == w.locoRun) then w
    else
      var key := DirClip(d);
      var key := if key in w.anims then key else "run_fwd";
      PlayAnim(w.(locoDir := d, locoRun := running), key)
  }

  /** After a locomotion update with a direction, asking again with the
      same flag changes nothing. */
  lemma LocomotionSettles(w: Wukong, running: bool)
    ensures UpdateLocomotionAnim(UpdateLocomotionAnim(w, running), running) == UpdateLocomotionAnim(w, running)
  {
  }

  /** `castSkill`: refused without charges, then refused while cooling
      down; otherwise one charge is spent, the cooldown starts at 5 s, the
      health component heals 20 and Skill is requested. */
  function CastSkill(w: Wukong): (r: (Wukong, Option<Notice>, seq<Health.HealthEvent>, seq<Fsm.Hook>))
    ensures w.skillCount <= 0 ==> r == (w, Some(NoCharges), [], [])
    ensures w.skillCount > 0 && w.skillCooldown > 0.0 ==> r == (w, Some(CoolingDown), [], [])
    ensures w.skillCount > 0 && w.skillCooldown <= 0.0 ==>
              r.1.None? && r.0.skillCount == w.skillCount - 1 && r.0.skillCooldown == SkillCooldown &&
              (w.ch.health.Some? ==> r.0.ch.health == Some(Health.Heal(w.ch.health.value, SkillHeal).health) &&
                                     r.2 == Health.Heal(w.ch.health.value, SkillHeal).events) &&
              (w.ch.health.None? ==> r.0.ch.health.None? && r.2 == []) &&
              r.0.ch.machine == Fsm.ChangeByName(w.ch.machine, "Skill").machine
    ensures w.skillCount >= 0 ==> r.0.skillCount >= 0
  {
    if w.skillCount <= 0 then (w, Some(NoCharges), [], [])
    else if w.skillCooldown > 0.0 then (w, Some(CoolingDown), [], [])
    else
      var healed := if w.ch.health.Some? then Some(Health.Heal(w.ch.health.value, SkillHeal)) else None;
      var step := Fsm.ChangeByName(w.ch.machine, "Skill");
      var ch := w.ch.(health := if healed.Some? then Some(healed.value.health) else None, machine := step.machine);
      (w.(ch := ch, skillCount := w.skillCount - 1, skillCooldown := SkillCooldown), None,
       if healed.Some? then healed.value.events else [], step.hooks)
  }

  /** Casting right after a successful cast is refused by the cooldown. */
  lemma NoDoubleCast(w: Wukong)
    requires w.skillCount > 0 && w.skillCooldown <= 0.0
    ensures CastSkill(w).1.None?
    ensures CastSkill(CastSkill(w).0).1.Some?
  {
  }

  /** The cooldown part of `update`: it runs down only while positive. */
  function CooldownStep(w: Wukong, dt: real): (r: Wukong)
    ensures w.skillCooldown > 0.0 ==> r == w.(skillCooldown := w.skillCooldown - dt)
    ensures w.skillCooldown <= 0.0 ==> r == w
  {
    if w.skillCooldown > 0.0 then w.(skillCooldown := w.skillCooldown - dt) else w
  }

  /** `update`: the character's frame, then the skill cooldown. */
  function Update(w: Wukong, requests: seq<string>, hasTerrain: bool, ground: Movement.Ground, dt: real,
                  placeAt: (Box, Vec3) -> Box, toWorld: Box -> Box): (r: (Wukong, seq<Fsm.Hook>))
    requires hasTerrain <==> !ground.NoCollider?
    ensures var t := Character.Tick(w.ch, requests, hasTerrain, ground, dt, placeAt, toWorld);
            r.0 == CooldownStep(w.(ch := t.0), dt) && r.1 == t.1
  {
    var t := Character.Tick(w.ch, requests, hasTerrain, ground, dt, placeAt, toWorld);
    (CooldownStep(w.(ch := t.0), dt), t.1)
  }

  /** `resetSkill`: three charges, no cooldown. */
  function ResetSkill(w: Wukong): (r: Wukong)
    ensures r == w.(skillCount := SkillCharges, skillCooldown := 0.0)
  {
    w.(skillCount := SkillCharges, skillCooldown := 0.0)
  }

  /** `respawn`: the character's respawn, then `resetSkill`. */
  function Respawn(w: Wukong): (r: (Wukong, seq<Fsm.Hook>))
    ensures var c := Character.Respawn(w.ch);
            r.0 == ResetSkill(w.(ch := c.0)) && r.1 == c.1
    ensures r.0.ch.alive && r.0.skillCount == SkillCharges && r.0.skillCooldown == 0.0
  {
    var c := Character.Respawn(w.ch);
    (ResetSkill(w.(ch := c.0)), c.1)
  }

  /** What the player does between two respawns, as far as the skill is
      concerned: casting, or a frame of the given length. */
  datatype Action = Cast | Frame(dt: real)

  /** The skill state after a run of actions, and how many casts went
      through. */
  function SkillRun(w: Wukong, actions: seq<Action>): (r: (Wukong, nat))
    decreases |actions|
  {
    if |actions| == 0 then (w, 0)
    else
      match actions[0]
      case Cast =>
        var c := CastSkill(w);
        var rest := SkillRun(c.0, actions[1..]);
        (rest.0, rest.1 + if c.1.None? then 1 else 0)
      case Frame(dt) => SkillRun(CooldownStep(w, dt), actions[1..])
  }

  /** Charges are never overdrawn: the casts that go through plus the
      charges left equal the charges there were, so after a respawn at most
      three casts succeed and the count never goes negative. */
  lemma {:induction false} ChargesAccounted(w: Wukong, actions: seq<Action>)
    requires w.skillCount >= 0
    ensures var r := SkillRun(w, actions);
            r.0.skillCount >= 0 && r.1 + r.0.skillCount == w.skillCount
    decreases |actions|
  {
    if |actions| > 0 {
      match actions[0]
      case Cast =>
        ChargesAccounted(CastSkill(w).0, actions[1..]);
      case Frame(dt) =>
        ChargesAccounted(CooldownStep(w, dt), actions[1..]);
    }
  }

  /** After a respawn no run of actions casts more than three times. */
  lemma AtMostThreeCastsPerLife(w: Wukong, actions: seq<Action>)
    ensures SkillRun(Respawn(w).0, actions).1 <= SkillCharges
  {
    ChargesAccounted(Respawn(w).0, actions);
  }
}
