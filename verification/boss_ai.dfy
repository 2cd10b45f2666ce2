/** The boss AI (`BossAI`): a skill table, per-skill cooldowns, a think
    timer, and a decision every 0.1 s: enter phase 2, use a skill picked by
    weight among the eligible ones, or chase. The random draw of the
    weighted pick and the sensed distance to the player are parameters. */
module BossAI {
  import opened Base
  import Geometry
  import Fsm
  import Movement
  import Health
  import Enemy
  import Boss

  datatype Skill = Skill(name: string, rangeMin: real, rangeMax: real, cd: real, weight: real, phaseMask: bv32)

  /** The table as pushed by `initSkills`, before the phase-mask loop. */
  const PushedSkills: seq<Skill> :=
    [Skill("Combo3", 0.0, 50.0, 2.0, 1.0, 1), Skill("DashSlash", 250.0, 300.0, 4.0, 0.9, 1),
     Skill("GroundSlam", 0.0, 100.0, 6.0, 0.7, 1), Skill("LeapSlam", 250.0, 500.0, 10.0, 1.2, 2)]

  /** The table the AI runs with. */
  const Skills: seq<Skill> :=
    [Skill("Combo3", 0.0, 50.0, 2.0, 1.0, 3), Skill("DashSlash", 250.0, 300.0, 4.0, 0.9, 3),
     Skill("GroundSlam", 0.0, 100.0, 6.0, 0.7, 3), Skill("LeapSlam", 250.0, 500.0, 10.0, 1.2, 2)]

  const ThinkInterval: real := 0.1
  /** Beyond this distance phase 2 prefers LeapSlam. */
  const LeapDistance: real := 600.0

  /** The loop at the end of `initSkills`: the three phase-1 skills become
      usable in both phases. */
  function OpenToBothPhases(s: Skill): (r: Skill)
    ensures r.name == s.name && r.rangeMin == s.rangeMin && r.rangeMax == s.rangeMax
    ensures r.cd == s.cd && r.weight == s.weight
    ensures s.name in {"Combo3", "DashSlash", "GroundSlam"} ==> r.phaseMask == 3
    ensures s.name !in {"Combo3", "DashSlash", "GroundSlam"} ==> r.phaseMask == s.phaseMask
  {
    if s.name == "Combo3" || s.name == "DashSlash" || s.name == "GroundSlam" then s.(phaseMask := 3) else s
  }

  /** `initSkills`: the pushed table with the masks opened. Combo3,
      DashSlash and GroundSlam end with mask 3 and LeapSlam keeps mask 2. */
  function InitSkills(): (r: seq<Skill>)
    ensures r == Skills
    ensures |r| == 4 && r[0].phaseMask == 3 && r[1].phaseMask == 3 && r[2].phaseMask == 3 && r[3].phaseMask == 2
  {
    seq(|PushedSkills|, i requires 0 <= i < |PushedSkills| => OpenToBothPhases(PushedSkills[i]))
  }

  function SkillNames(skills: seq<Skill>): set<string>
  {
    set i | 0 <= i < |skills| :: skills[i].name
  }

  datatype AI = AI(enabled: bool, thinkTimer: real, cooldowns: map<string, real>, skills: seq<Skill>)

  /** The constructor: enabled, think timer 0, the `initSkills` table, and
      every skill's cooldown 0. */
  function Create(): (r: AI)
    ensures r.enabled && r.thinkTimer == 0.0 && r.skills == Skills
    ensures r.cooldowns.Keys == SkillNames(Skills)
    ensures forall i :: 0 <= i < |Skills| ==> r.cooldowns[Skills[i].name] == 0.0
  {
    AI(true, 0.0, map n | n in SkillNames(Skills) :: 0.0, InitSkills())
  }

  /** The remaining cooldown as `_cdLeft[name]` reads it: a missing entry
      reads as 0. */
  function CooldownOf(cooldowns: map<string, real>, name: string): real
  {
    if name in cooldowns then cooldowns[name] else 0.0
  }

  /** Step 1 of `update`: every cooldown drops by dt, clamped at 0. */
  function Decay(cooldowns: map<string, real>, dt: real): (r: map<string, real>)
    ensures r.Keys == cooldowns.Keys
    ensures forall n :: n in r ==> r[n] >= 0.0 && (r[n] == 0.0 || r[n] == cooldowns[n] - dt)
    ensures dt >= 0.0 ==> forall n :: n in r ==> r[n] <= Max(cooldowns[n], 0.0)
  {
    map n | n in cooldowns :: Max(0.0, cooldowns[n] - dt)
  }

  /** Two decays by a and b are one decay by a + b (for non-negative
      steps), so cooldowns depend only on the total time elapsed. */
  lemma DecayComposes(cooldowns: map<string, real>, a: real, b: real)
    requires a >= 0.0 && b >= 0.0
    ensures Decay(Decay(cooldowns, a), b) == Decay(cooldowns, a + b)
  {
    var l, r := Decay(Decay(cooldowns, a), b), Decay(cooldowns, a + b);
    forall n | n in cooldowns
      ensures l[n] == r[n]
    {
      assert l[n] == Max(0.0, Max(0.0, cooldowns[n] - a) - b);
    }
  }

  /** `phaseMask & phase` is non-zero, with the phase taken as a 32-bit
      two's-complement int. */
  predicate MaskAllows(mask: bv32, phase: int)
  {
    mask & ((phase % 0x1_0000_0000) as bv32) != 0
  }

  /** The three tests of the candidate loop. */
  predicate Eligible(s: Skill, phase: int, dist: real, cooldowns: map<string, real>)
  {
    MaskAllows(s.phaseMask, phase) && s.rangeMin <= dist <= s.rangeMax && CooldownOf(cooldowns, s.name) <= 0.0
  }

  /** The candidate list: the eligible skills, in table order. */
  function Candidates(skills: seq<Skill>, phase: int, dist: real, cooldowns: map<string, real>): (r: seq<Skill>)
    ensures |r| <= |skills|
    ensures forall s :: s in r ==> s in skills && Eligible(s, phase, dist, cooldowns)
    ensures forall i :: 0 <= i < |skills| && Eligible(skills[i], phase, dist, cooldowns) ==> skills[i] in r
    decreases |skills|
  {
    if |skills| == 0 then []
    else
      var rest := Candidates(skills[1..], phase, dist, cooldowns);
      assert forall i :: 1 <= i < |skills| ==> skills[i] == skills[1..][i - 1];
      if Eligible(skills[0], phase, dist, cooldowns) then [skills[0]] + rest else rest
  }

  /** The sum of clamped weights. */
  function TotalWeight(cands: seq<Skill>): real
    decreases |cands|
  {
    if |cands| == 0 then 0.0 else Max(0.0, cands[0].weight) + TotalWeight(cands[1..])
  }

  /** The clamped weight of the first n candidates. */
  function RunningWeight(cands: seq<Skill>, n: nat): real
    requires n <= |cands|
  {
    TotalWeight(cands[..n])
  }

  /** A running total splits into the first clamped weight and the running
      total of the rest. */
  lemma RunningShift(cands: seq<Skill>, n: nat)
    requires 1 <= n <= |cands|
    ensures RunningWeight(cands, n) == Max(0.0, cands[0].weight) + RunningWeight(cands[1..], n - 1)
  {
    assert cands[..n][1..] == cands[1..][..n - 1];
  }

  /** A running total one longer adds the next clamped weight. */
  lemma {:induction false} RunningSnoc(cands: seq<Skill>, k: nat)
    requires k < |cands|
    ensures RunningWeight(cands, k + 1) == RunningWeight(cands, k) + Max(0.0, cands[k].weight)
    decreases k
  {
    if k > 0 {
      RunningSnoc(cands[1..], k - 1);
      RunningShift(cands, k + 1);
      RunningShift(cands, k);
    } else {
      RunningShift(cands, 1);
      assert cands[1..][..0] == [] && cands[..0] == [];
    }
  }

  /** The running remainder loop of `pickByWeight` from its first
      candidate: the index of the first candidate at which the draw minus
      the clamped weights so far drops to at most 0, or the last. */
  function PickFrom(cands: seq<Skill>, r: real): (k: nat)
    requires |cands| > 0
    ensures k < |cands|
    ensures forall n :: 1 <= n <= k ==> RunningWeight(cands, n) < r
    ensures k < |cands| - 1 ==> r <= RunningWeight(cands, k + 1)
    ensures r <= TotalWeight(cands) ==> r <= RunningWeight(cands, k + 1)
    decreases |cands|
  {
    var left := r - Max(0.0, cands[0].weight);
    RunningShift(cands, 1);
    if left <= 0.0 || |cands| == 1 then
      assert cands[..1] == cands || |cands| > 1;
      0
    else
      var k := PickFrom(cands[1..], left);
      assert forall n :: 1 <= n <= k + 1 ==> RunningWeight(cands, n) < r by {
        forall n | 1 <= n <= k + 1
          ensures RunningWeight(cands, n) < r
        {
          RunningShift(cands, n);
        }
      }
      RunningShift(cands, k + 2);
      assert cands[1..][..|cands| - 1] == cands[1..];
      assert k + 1 == |cands| - 1 ==> cands[..k + 2] == cands;
      k + 1
  }

  /** `pickByWeight` on a non-empty list: the first candidate when the
      clamped weights sum to at most 0, else the first candidate whose
      running total reaches the draw, with the last as fallback. */
  function PickByWeight(cands: seq<Skill>, draw: real): (k: nat)
    requires |cands| > 0
    ensures k < |cands|
    ensures TotalWeight(cands) <= 0.0 ==> k == 0
    ensures TotalWeight(cands) > 0.0 ==>
              (forall n :: 1 <= n <= k ==> RunningWeight(cands, n) < draw) &&
              (draw <= TotalWeight(cands) ==> draw <= RunningWeight(cands, k + 1))
  {
    if TotalWeight(cands) <= 0.0 then 0 else PickFrom(cands, draw)
  }

  /** For a draw in (0, total], the pick is the first candidate whose
      running total reaches the draw, so it has a positive weight: a skill
      of weight 0 or less is never picked. */
  lemma PickHasWeight(cands: seq<Skill>, draw: real)
    requires |cands| > 0 && 0.0 < draw <= TotalWeight(cands)
    ensures cands[PickByWeight(cands, draw)].weight > 0.0
  {
    PickStraddles(cands, draw);
  }

  /** For a draw in (0, total], the running total before the pick is
      below the draw and adding the pick's clamped weight reaches it. */
  lemma PickStraddles(cands: seq<Skill>, draw: real)
    requires |cands| > 0 && 0.0 < draw <= TotalWeight(cands)
    ensures var k := PickByWeight(cands, draw);
            RunningWeight(cands, k) < draw <= RunningWeight(cands, k) + Max(0.0, cands[k].weight)
  {
    var k := PickByWeight(cands, draw);
    if k == 0 {
      assert cands[..0] == [];
    }
    RunningSnoc(cands, k);
  }

  /** What an update decided. */
  datatype Decision = Wait | EnterPhaseTwo | UseSkill(skill: Skill) | Pursue

  datatype Think = Think(ai: AI, decision: Decision)

  /** Whether an enabled update gets past the dead, busy and think-timer
      gates. */
  predicate Thinks(ai: AI, b: Boss.Boss, dt: real)
  {
    ai.enabled && !Enemy.IsDead(b.enemy) && !Boss.IsBusy(b) && ai.thinkTimer + dt >= ThinkInterval
  }

  /** Whether the phase-change branch is taken once the gates are passed. */
  predicate PhaseDue(b: Boss.Boss)
  {
    b.phase == 1 && Enemy.HealthRatio(b.enemy) <= Boss.HalfHealth
  }

  /** The index of the first LeapSlam among the candidates, if any. */
  function LeapIndex(cands: seq<Skill>): (r: Option<nat>)
    ensures r.Some? ==> r.value < |cands| && cands[r.value].name == "LeapSlam"
    ensures r.None? ==> forall i :: 0 <= i < |cands| ==> cands[i].name != "LeapSlam"
    decreases |cands|
  {
    if |cands| == 0 then None
    else if cands[0].name == "LeapSlam" then Some(0)
    else
      var rest := LeapIndex(cands[1..]);
      if rest.Some? then Some(rest.value + 1) else None
  }

  /** The skill chosen among the candidates: in phase 2 beyond the leap
      distance the first LeapSlam candidate; otherwise the weighted pick;
      nothing when there is no candidate. */
  function Choose(skills: seq<Skill>, phase: int, dist: real, cooldowns: map<string, real>, draw: real): (r: Option<Skill>)
    ensures var cands := Candidates(skills, phase, dist, cooldowns);
            (r.None? <==> |cands| == 0) &&
            (phase == 2 && dist > LeapDistance && LeapIndex(cands).Some? ==> r == Some(cands[LeapIndex(cands).value])) &&
            (|cands| > 0 && !(phase == 2 && dist > LeapDistance && LeapIndex(cands).Some?) ==>
               r == Some(cands[PickByWeight(cands, draw)]))
    ensures r.Some? ==> r.value in skills && Eligible(r.value, phase, dist, cooldowns)
  {
    var cands := Candidates(skills, phase, dist, cooldowns);
    var leap := LeapIndex(cands);
    if phase == 2 && dist > LeapDistance && leap.Some? then Some(cands[leap.value])
    else if |cands| > 0 then Some(cands[PickByWeight(cands, draw)])
    else None
  }

  /** `update` for one frame, given the boss, the sensed distance to the
      player and the draw of the weighted pick. */
  function Update(ai: AI, b: Boss.Boss, dist: real, dt: real, draw: real): (r: Think)
    ensures !ai.enabled ==> r == Think(ai, Wait)
    ensures ai.enabled && !r.decision.UseSkill? ==> r.ai.cooldowns == Decay(ai.cooldowns, dt)
    ensures r.decision.UseSkill? ==>
              var s := r.decision.skill;
              r.ai.cooldowns == Decay(ai.cooldowns, dt)[s.name := s.cd] &&
              s in ai.skills && Eligible(s, b.phase, dist, Decay(ai.cooldowns, dt))
    ensures ai.enabled && !Thinks(ai, b, dt) ==> r.decision == Wait && r.ai.enabled
    ensures ai.enabled && !Thinks(ai, b, dt) && !Boss.IsBusy(b) ==> r.ai.thinkTimer == ai.thinkTimer + dt
    ensures ai.enabled && Boss.IsBusy(b) ==> r.ai.thinkTimer == ai.thinkTimer
    ensures Thinks(ai, b, dt) ==> r.decision != Wait && r.ai.thinkTimer == 0.0 && r.ai.enabled
    ensures Thinks(ai, b, dt) ==> (r.decision == EnterPhaseTwo <==> PhaseDue(b))
    ensures Thinks(ai, b, dt) && !PhaseDue(b) ==>
              var choice := Choose(ai.skills, b.phase, dist, Decay(ai.cooldowns, dt), draw);
              (choice.None? ==> r.decision == Pursue) &&
              (choice.Some? ==> r.decision == UseSkill(choice.value))
  {
    if !ai.enabled then Think(ai, Wait)
    else
      var cooldowns := Decay(ai.cooldowns, dt);
      if Enemy.IsDead(b.enemy) || Boss.IsBusy(b) then Think(ai.(cooldowns := cooldowns), Wait)
      else
        var timer := ai.thinkTimer + dt;
        if timer < ThinkInterval then Think(ai.(cooldowns := cooldowns, thinkTimer := timer), Wait)
        else
          var next := ai.(cooldowns := cooldowns, thinkTimer := 0.0);
          if PhaseDue(b) then Think(next, EnterPhaseTwo)
          else
            match Choose(ai.skills, b.phase, dist, cooldowns, draw)
            case Some(s) => Think(next.(cooldowns := cooldowns[s.name := s.cd]), UseSkill(s))
            case None => Think(next, Pursue)
  }

  /** The hook as written misses the once-only heal, yet phase 2 still
      comes from the AI: after two hits of 30 on a boss at 100 of 100, the
      phase check is due; the next update that gets past its gates enters
      phase 2, and acting on it leaves the boss in phase 2 at 40 health,
      never healed. */
  lemma AsWrittenPhaseTwoWithoutHeal(ai: AI, b: Boss.Boss, dist: real, dt: real, draw: real)
    requires b.enemy.health == Some(Health.Health(100.0, 100.0, false, false))
    requires !b.hasHealed && b.phase == 1 && "PhaseChange" in b.enemy.machine.states
    ensures var twice := Boss.TakeDamageAsWritten(Boss.TakeDamageAsWritten(b, 30.0), 30.0);
            PhaseDue(twice) &&
            (Thinks(ai, twice, dt) ==>
               Update(ai, twice, dist, dt, draw).decision == EnterPhaseTwo &&
               var after := Act(twice, EnterPhaseTwo).0;
               after.phase == 2 && !after.hasHealed && after.enemy.health == twice.enemy.health &&
               after.enemy.health.value.current == 40.0)
  {
    Boss.HalfHealthMissedAsWritten(b);
    var twice := Boss.TakeDamageAsWritten(Boss.TakeDamageAsWritten(b, 30.0), 30.0);
    assert Enemy.HealthRatio(twice.enemy) * 100.0 == 40.0;
  }

  /** The decision applied to the boss: phase 2 and PhaseChange; the
      pending skill and Attack; or Chase. */
  function Act(b: Boss.Boss, d: Decision): (r: (Boss.Boss, seq<Fsm.Hook>))
    ensures d == Wait ==> r == (b, [])
    ensures d == EnterPhaseTwo ==>
              r.0.phase == 2 && r.0.pending == b.pending &&
              r.0.enemy.machine == Fsm.ChangeByName(b.enemy.machine, "PhaseChange").machine
    ensures d.UseSkill? ==>
              r.0.phase == b.phase && Boss.ConsumePendingSkill(r.0).0 == d.skill.name &&
              r.0.enemy.machine == Fsm.ChangeByName(b.enemy.machine, "Attack").machine
    ensures d == Pursue ==>
              r.0.phase == b.phase && r.0.pending == b.pending &&
              r.0.enemy.machine == Fsm.ChangeByName(b.enemy.machine, "Chase").machine
    ensures r.0.enemy.health == b.enemy.health && r.0.hasHealed == b.hasHealed && r.0.busy == b.busy
  {
    match d
    case Wait => (b, [])
    case EnterPhaseTwo =>
      var step := Fsm.ChangeByName(b.enemy.machine, "PhaseChange");
      (b.(phase := 2, enemy := b.enemy.(machine := step.machine)), step.hooks)
    case UseSkill(s) =>
      var step := Fsm.ChangeByName(b.enemy.machine, "Attack");
      (Boss.SetPendingSkill(b, s.name).(enemy := b.enemy.(machine := step.machine)), step.hooks)
    case Pursue =>
      var step := Fsm.ChangeByName(b.enemy.machine, "Chase");
      (b.(enemy := b.enemy.(machine := step.machine)), step.hooks)
  }

  /** What one boss frame produced. */
  datatype Frame = Frame(ai: AI, boss: Boss.Boss, decision: Decision, hooks: seq<Fsm.Hook>)

  /** `Boss::update`: the enemy update (the state's move and requests,
      gravity, terrain) first, then the AI on the boss as it then is. */
  function BossUpdate(ai: AI, b: Boss.Boss, stateMove: Geometry.Vec3, requests: seq<string>, hasTerrain: bool,
                      ground: Movement.Ground, dt: real, dist: real, draw: real): (r: Frame)
    requires hasTerrain <==> !ground.NoCollider?
    ensures var ticked := Enemy.Tick(b.enemy, stateMove, requests, hasTerrain, ground, dt).0;
            r.decision == Update(ai, b.(enemy := ticked), dist, dt, draw).decision
    ensures r.decision == Pursue && "Chase" in b.enemy.machine.states ==>
              r.boss.enemy.machine.current == Some(b.enemy.machine.states["Chase"])
    ensures r.decision.UseSkill? && "Attack" in b.enemy.machine.states ==>
              r.boss.enemy.machine.current == Some(b.enemy.machine.states["Attack"])
  {
    var tick := Enemy.Tick(b.enemy, stateMove, requests, hasTerrain, ground, dt);
    var b1 := b.(enemy := tick.0);
    var think := Update(ai, b1, dist, dt, draw);
    var acted := Act(b1, think.decision);
    Frame(think.ai, acted.0, think.decision, tick.1 + acted.1)
  }

  // ---------------------------------------------------------------------
  // Properties of the shipped table

  /** The masks: the three phase-1 skills are eligible in both phases, and
      LeapSlam only in phase 2. */
  lemma MasksByPhase()
    ensures MaskAllows(3, 1) && MaskAllows(3, 2)
    ensures !MaskAllows(2, 1) && MaskAllows(2, 2)
  {
    assert 1 % 0x1_0000_0000 == 1 && 2 % 0x1_0000_0000 == 2;
    assert (1 as bv32) & (2 as bv32) == 0 && (3 as bv32) & (1 as bv32) == 1;
    assert (3 as bv32) & (2 as bv32) == 2 && (2 as bv32) & (2 as bv32) == 2;
  }

  /** No skill reaches beyond 500, so beyond it there is no candidate:
      the phase-2 LeapSlam override at distances above 600 never fires. */
  lemma NothingBeyondReach(phase: int, dist: real, cooldowns: map<string, real>)
    requires dist > 500.0
    ensures Candidates(Skills, phase, dist, cooldowns) == []
  {
  }

  /** Between 100 and 250 no skill is in range. */
  lemma NothingInTheGap(phase: int, dist: real, cooldowns: map<string, real>)
    requires 100.0 < dist < 250.0
    ensures Candidates(Skills, phase, dist, cooldowns) == []
  {
  }

  /** A decision without a target, in the gap, or beyond reach is Chase
      (unless the phase change is due). */
  lemma OutOfReachChases(ai: AI, b: Boss.Boss, dist: real, dt: real, draw: real)
    requires Thinks(ai, b, dt) && !PhaseDue(b) && ai.skills == Skills
    requires dist == Boss.NoTargetDistance || 100.0 < dist < 250.0 || dist > 500.0
    ensures Update(ai, b, dist, dt, draw).decision == Pursue
  {
    if 100.0 < dist < 250.0 {
      NothingInTheGap(b.phase, dist, Decay(ai.cooldowns, dt));
    } else {
      NothingBeyondReach(b.phase, dist, Decay(ai.cooldowns, dt));
    }
  }

  /** In phase 1 LeapSlam is never a candidate. */
  lemma PhaseOneNeverLeaps(dist: real, cooldowns: map<string, real>)
    ensures forall s :: s in Candidates(Skills, 1, dist, cooldowns) ==> s.name != "LeapSlam"
  {
    MasksByPhase();
  }

  /** A skill just used (cooldown set to its cd) stays ineligible until its
      full cd has elapsed, however that time is split into updates. */
  lemma NoRecastWithinCooldown(cooldowns: map<string, real>, s: Skill, t: real, phase: int, dist: real)
    requires 0.0 <= t < s.cd
    ensures !Eligible(s, phase, dist, Decay(cooldowns[s.name := s.cd], t))
  {
  }

  /** A skill used by an update carries its full cd afterwards and so is
      not picked again for that long. */
  lemma {:induction false} UsedSkillCoolsDown(ai: AI, b: Boss.Boss, dist: real, dt: real, draw: real, t: real,
                                              phase: int, dist2: real)
    requires Update(ai, b, dist, dt, draw).decision.UseSkill?
    requires 0.0 <= t < Update(ai, b, dist, dt, draw).decision.skill.cd
    ensures var r := Update(ai, b, dist, dt, draw);
            !Eligible(r.decision.skill, phase, dist2, Decay(r.ai.cooldowns, t))
  {
    var r := Update(ai, b, dist, dt, draw);
    NoRecastWithinCooldown(Decay(ai.cooldowns, dt), r.decision.skill, t, phase, dist2);
  }
}
