# Black Myth: Wukong — combat and movement core, in Dafny

This project models the deterministic combat and movement core of the
Black_Myth_Wukong game (a cocos2d-x 3D action game in C++) and proves
properties of it. The model covers these parts:

- **The generic state machine** every actor owns (`fsm.dfy`).
- **The terrain collider** (`obj.dfy`, `terrain.dfy`):
  - its Wavefront OBJ reader;
  - the two-triangle fallback floor;
  - the fixed 32 × 32 XZ grid;
  - the downward ray query with the Möller–Trumbore test.
- **The character box collider and its push-out** (`collider.dfy`).
- **Health and combat** (`health.dfy`, `combat.dfy`):
  - the health component and its callbacks;
  - the defense-reduced damage formula;
  - the melee sweep.
- **Shared movement** (`movement.dfy`): the gravity and terrain step rule
  used by enemies and the player.
- **Enemies** (`enemy.dfy`, `enemy_states.dfy`): the enemy and the
  per-frame rules of its seven states.
- **The boss** (`boss.dfy`, `boss_ai.dfy`, `boss_states.dfy`):
  - its phase, multipliers, busy flag and pending skill;
  - its AI's cooldowns and weighted skill pick;
  - its six states.
- **The player** (`character.dfy`, `wukong.dfy`, `wukong_states.dfy`):
  - the character base;
  - Wukong's clips, locomotion direction and healing skill;
  - the player states.
- **Three small managers** (`events.dfy`, `areas.dfy`, `scenes.dfy`):
  events, combat areas with teleport points, and scenes.

The model is functional. Each component is an immutable datatype. Each
operation is a pure function from the component, and the frame's inputs,
to the new component. Those inputs are:

- the frame time;
- the sensed distances and lengths;
- the random draws.

Calls the C++ makes on other objects are returned as data. These include:

- state-machine hooks and the names of requested states;
- health callbacks;
- the targets handed to a melee check;
- listener calls;
- the director's scene replacement.

Conventions:

- Coordinates are exact reals.
- A C++ `(int)` cast is truncation toward zero (`Base.Trunc`).
- `fmod` is `x - y·trunc(x/y)` (`Base.FMod`).
- Dafny has no square root. A length the source computes and then
  compares or divides by is therefore passed in, together with a
  precondition that its square is the squared length.
- Two engine predicates are stated as explicit assumptions, because their
  code is not part of this model:
  - cocos `AABB::intersects` is closed-interval overlap on all three axes;
  - `Rect::containsPoint` is membership in the closed rectangle.
- `AABB::transform` is a function parameter.

## Model

| member | source | states |
|---|---|---|
| Fsm.Init | Classes/core/StateMachine.h:34-39 | the initial state becomes current and is the only state entered (nothing for a null state); the previous state and the registry stay |
| Fsm.Update | Classes/core/StateMachine.h:45-49 | at most one update call, made exactly when a state is current, on that state with the frame time |
| Fsm.Register | Classes/core/StateMachine.h:55-59 | a null state changes nothing; otherwise the state's name maps to it, the key set grows by that name alone, and every other entry keeps its state |
| Fsm.RegisterAll | Classes/core/StateMachine.h:55-59 | registering a list: the keys are the old ones plus the listed names, every listed name is registered, the last registration under a name wins, and unlisted entries stay |
| Fsm.NamesListed | Classes/core/StateMachine.h:55-59 | every listed state's name is among the names a list registers |
| Fsm.ChangeTo | Classes/core/StateMachine.h:78-92 | a null target or the current state changes nothing; otherwise the old state (if any) is exited before the new one is entered, the old state becomes the previous one (kept when there was none), and the registry stays |
| Fsm.ChangeByName | Classes/core/StateMachine.h:65-72 | an unregistered name changes nothing; a registered one is the change to the state registered under it |
| Fsm.Revert | Classes/core/StateMachine.h:97-101 | without a previous state nothing happens; otherwise it is the change to the previous state |
| Fsm.ChangeAll | Classes/core/StateMachine.h:65-72 | a run of changes by name keeps the registry, and an empty run changes nothing |
| Fsm.TransitionOrder | Classes/core/StateMachine.h:78-92 | from one state to a different one the hooks are exactly exit-old then enter-new, the old becomes previous and the machine is in the new state's name |
| Fsm.TransitionFromNothing | Classes/core/StateMachine.h:84-91 | from no current state only the entry runs and the previous state is untouched |
| Fsm.CoherencePreserved | Classes/core/StateMachine.h:34-101 | init, register, both changes and revert keep "a previous state implies a current one" |
| Fsm.RevertSwaps | Classes/core/StateMachine.h:97-101 | reverting swaps current and previous, exiting the current and entering the previous |
| Fsm.ChangeThenRevert | Classes/core/StateMachine.h:78-101 | a change followed by a revert returns to the original state, with the changed-to state now previous |
| Fsm.RegisterThenChange | Classes/core/StateMachine.h:55-72 | a state just registered is reached by changing to its name, and its entry is the last hook run |
| Fsm.ChangeAllLastWins | Classes/core/StateMachine.h:65-72 | a run of unregistered names changes nothing; a run ending in a registered name ends in that state |
| Fsm.IsInState | Classes/core/StateMachine.h:124-126 | a machine without a current state is in no state |
| Fsm.OneStateAtATime | Classes/core/StateMachine.h:124-126 | a machine is in at most one state by name. After a change to a state it is in exactly that state, whether or not a transition happened |
| Base.Trunc | Classes/combat/Collider.cpp:168-171 | the `(int)` cast: a non-negative value truncates to the integer at or below it, a negative one to the integer at or above it |
| Obj.SkipSpaces | Classes/combat/Collider.cpp:75-77 | the stream skips exactly the leading white space: what remains is a suffix that starts with a non-space |
| Obj.Stoi | Classes/combat/Collider.cpp:89-92 | `std::stoi` skips white space and an optional sign and reads the longest run of decimal digits after them. With no digits it gives nothing. Otherwise it gives the signed value of those digits, and gives nothing exactly when that value lies outside the 32-bit range |
| Obj.IndexOf | Classes/combat/Collider.cpp:90 | `find`: the first position holding the character, or the length when there is none; used for the slash of a face word and for the newline that ends a line |
| Obj.NextToken | Classes/combat/Collider.cpp:84-86 | reading a word from the stream skips white space and gives nothing exactly when only white space remains. Otherwise the word is non-empty and holds no white space, the word followed by the rest is the input without its leading spaces, and the rest is empty or starts with white space, so the word is the longest such run |
| Obj.Lines | Classes/combat/Collider.cpp:70 | `getline` yields no line exactly when the text is empty |
| Obj.LinesHaveNoNewline | Classes/combat/Collider.cpp:70 | no line that `getline` yields holds a newline |
| Obj.LinesRoundTrip | Classes/combat/Collider.cpp:70 | gluing the lines back with newlines gives the content, less only a final newline |
| Obj.AddVertex | Classes/combat/Collider.cpp:74-80 | a `v` record whose three extractions succeed appends one vertex scaled and offset into world space; otherwise nothing changes; triangles never change |
| Obj.AddFace | Classes/combat/Collider.cpp:83-117 | an `f` record appends one triangle exactly when three indices parse and all lie in 1..vertex count, made from those vertices with its XZ bounds; vertices never change |
| Geometry.MakeTriangle | Classes/combat/Collider.cpp:104-111 | a parsed triangle keeps its three vertices and its bounds are the least and greatest x and z among them, so they are ordered |
| Obj.ReadLine | Classes/combat/Collider.cpp:70-118 | lines shorter than two characters or not starting `v ` / `f ` are skipped; the others go to the vertex or face reader |
| Obj.ReadLineSound | Classes/combat/Collider.cpp:70-118 | one line keeps every face index in range, only extends the lists, and adds at most one triangle |
| Obj.ReadLines | Classes/combat/Collider.cpp:70-119 | reading lines keeps every face index in range, only extends the lists, and adds at most one triangle per line |
| Obj.LoadFromObj | Classes/combat/Collider.cpp:56-121 | success exactly when some triangle was read; empty content reads nothing; every triangle read has ordered XZ bounds |
| Obj.StoiRoundTrip | Classes/combat/Collider.cpp:89-92 | `stoi` reads back a number's decimal spelling, whatever non-digit text follows |
| Obj.FaceWordIndex | Classes/combat/Collider.cpp:89-97 | a face word `n`, `n/t` or `n/t/m` yields index n |
| Obj.EmptyPrefixRejected | Classes/combat/Collider.cpp:89-116 | a word with nothing before its slash (`//1`) makes `stoi` throw, so the record is skipped |
| Obj.FloatOfNat | Classes/combat/Collider.cpp:75-77 | a coordinate spelled as a plain integer reads back as that number and leaves the rest of the line |
| Obj.MantissaOfDigits | Classes/combat/Collider.cpp:75-77 | digits followed by neither a digit nor a point form the whole mantissa, with no fraction digits |
| Obj.ParseUnsigned | Classes/combat/Collider.cpp:75-77 | unsigned digits with no fraction and no exponent read as their decimal value, leaving the rest |
| Terrain.FallbackFloor | Classes/combat/Collider.cpp:127-141 | two triangles at the box's lowest height, each with the box's XZ bounds |
| Terrain.FallbackCovers | Classes/combat/Collider.cpp:133-140 | every XZ point of a non-degenerate box lies at barycentric coordinates inside one of the two floor triangles |
| Terrain.Extent | Classes/combat/Collider.cpp:147-154 | the bounds fold from ±FLT_MAX and enclose every triangle's bounds; each minimum is FLT_MAX or some triangle's own minimum, and each maximum is -FLT_MAX or some triangle's own maximum, on both x and z |
| Terrain.CellSizePositive | Classes/combat/Collider.cpp:156-161 | with ordered triangles the cell edge is at least 0.1 and the extent spans fewer than 32 cells on each axis |
| Terrain.Span | Classes/combat/Collider.cpp:168-171 | each start cell is the truncated cell of the triangle's lower bound, raised to 0 when it is below 0. Each end cell is the truncated cell of its upper bound, lowered to 31 when it is above 31. This holds for columns on x and rows on z alike |
| Terrain.File | Classes/combat/Collider.cpp:173-177 | triangle i is appended to exactly the cells of its span, other cells unchanged |
| Terrain.FileAll | Classes/combat/Collider.cpp:162-178 | after the first n triangles, a cell lists triangle i exactly when i < n and its span covers the cell, in increasing order |
| Terrain.BuildGrid | Classes/combat/Collider.cpp:143-180 | no triangles build nothing; otherwise 32 × 32 cells over the extent's corner, each listing exactly the triangles covering it |
| Terrain.EveryTriangleFiled | Classes/combat/Collider.cpp:165-178 | with ordered bounds every triangle is filed in some cell |
| Terrain.SpanNonEmpty | Classes/combat/Collider.cpp:168-171 | with ordered bounds, a triangle's start and end cells both lie in 0..31 on each axis with start ≤ end, and its span covers its own first cell |
| Terrain.FiledInCell | Classes/combat/Collider.cpp:173-177 | a triangle whose span covers a cell is listed in that cell |
| Terrain.OriginCellHoldsTriangle | Classes/combat/Collider.cpp:165-198 | a ray origin inside a triangle's XZ bounds maps to a grid cell that lists that triangle |
| Terrain.OriginInSpan | Classes/combat/Collider.cpp:168-193 | the cell of a point inside a triangle's XZ bounds lies in the grid and in the triangle's span |
| Terrain.AxisCell | Classes/combat/Collider.cpp:168-193 | on one axis, the cell of a point between a triangle's bounds lies between its clamped start and end cells |
| Terrain.SpanStartsInGrid | Classes/combat/Collider.cpp:168-171 | on one axis, the start cell is at least 0, at most the end cell and at most 31 |
| Terrain.IntersectTriangle | Classes/combat/Collider.cpp:226-256 | a hit is reported exactly when the Möller–Trumbore tests all pass: a determinant at least 1e-5 in size, u in [0, 1], v ≥ 0, u + v ≤ 1 and a distance t = tn / a above 1e-5. The reported distance is that t |
| Terrain.Accept | Classes/combat/Collider.cpp:236-255 | the same acceptance tests stated on the determinant and the numerators: a solved system is accepted exactly when it passes all of them |
| Terrain.CramerIdentity | Classes/combat/Collider.cpp:227-252 | the test's determinant and numerators solve a · s = un · e1 + vn · e2 − tn · d |
| Terrain.CramerVectors | Classes/combat/Collider.cpp:232-252 | Cramer's rule for the cross and dot products the test forms |
| Terrain.HitIsOnTriangle | Classes/combat/Collider.cpp:226-256 | an accepted hit point origin + t · direction equals v0 + u · e1 + v · e2 with u, v ≥ 0 and u + v ≤ 1, a point of the triangle |
| Terrain.OriginCell | Classes/combat/Collider.cpp:189-198 | the cell index found for an origin is a valid cell |
| Terrain.RayIntersects | Classes/combat/Collider.cpp:188-219 | outside the grid there is no hit; otherwise a hit is the smallest accepted distance among the filtered candidates of the origin's cell, positive and below FLT_MAX, and no hit means no candidate was accepted below FLT_MAX |
| Terrain.QueryFindsCoveringTriangle | Classes/combat/Collider.cpp:165-219 | the query on a built grid misses nothing: when the ray origin lies within a triangle's XZ bounds and the triangle is accepted at a distance below FLT_MAX, every answer `rayIntersects` may give is a hit, at most that distance away |
| Terrain.NearEdgeMapsToCellZero | Classes/combat/Collider.cpp:192-196 | a ray origin less than one cell from the grid's lower edge on x and on z, on either side, truncates to column 0 and row 0. So cell (0, 0) is queried even when the origin lies just outside the grid |
| Terrain.Init | Classes/combat/Collider.cpp:30-50 | a null terrain model fails initialisation and gives nothing. Otherwise the triangles are the OBJ triangles when loading succeeds, else the fallback floor, and the grid is built over them. The triangles are then never empty and always ordered |
| Terrain.InitWellIndexed | Classes/combat/Collider.cpp:143-180 | the initialised collider's grid has 32 × 32 cells listing only valid triangle indices |
| Collider.Merge | Classes/combat/CharacterCollider.h:36-44 | the merged box encloses both boxes on all three axes and is the smallest such box: every box enclosing both encloses it |
| Collider.MergeAll | Classes/combat/CharacterCollider.h:36-44 | merging a first box with the rest gives a box that encloses every one of them and lies inside any box enclosing them all. A first box with positive width keeps the width positive |
| Collider.LocalBox | Classes/combat/CharacterCollider.h:29-52 | the model's box when it has positive width. Otherwise the merge of the mesh boxes, when there are some and their merge has positive width. Otherwise the default 50 × 180 × 50 box. The result always has positive width |
| Collider.Shrink | Classes/combat/CharacterCollider.h:55-64 | a factor outside (0, 1) leaves the box; inside, y is kept and x and z shrink about the same centre to that fraction of their width |
| Collider.CalculateBoundingBox | Classes/combat/CharacterCollider.h:25-70 | no model changes nothing; otherwise the local box is the shrunk model box, the world box is untouched, and a positive factor keeps positive width |
| Collider.Update | Classes/combat/CharacterCollider.h:76-86 | no owner changes nothing; otherwise the world box is the owner's transform of the local box, which stays |
| Collider.UpdateForgetsWorldBox | Classes/combat/CharacterCollider.h:84-85 | the world box after an update depends only on the local box, not on the old world box |
| Collider.CollisionOffset | Classes/combat/CharacterCollider.h:101-121 | the offset is horizontal and along one axis only, and zero when the boxes do not overlap |
| Collider.OffsetMeetsFace | Classes/combat/CharacterCollider.h:107-120 | the offset moves the source box so that a face meets the other box's face on the chosen axis, by no more than either overlap depth |
| Collider.PushedBoxesTouch | Classes/combat/CharacterCollider.h:104-120 | pushed out, the boxes still touch (closed overlap), so the next check still reports a collision |
| Collider.OffsetIsShorterWay | Classes/combat/CharacterCollider.h:113-120 | the push is along the axis with the smaller signed overlap, and its length is that overlap's size |
| Movement.ApplyGravity | Classes/player/Character.cpp:218-225 | grounded with a terrain collider nothing changes; otherwise only the vertical speed changes, and it falls when gravity and dt are positive |
| Movement.Settle | Classes/player/Character.cpp:263-312 | no collider: clamp at y = 0 and land there; ground missed: move and leave the ground; ground hit below the step height: snap to it, landing when falling; a wall: keep x and z, fall, and land on reaching the ground |
| Movement.NeverBelowGround | Classes/player/Character.cpp:268-311 | after settling the body is never below the ground that was hit, nor below 0 without a collider |
| Movement.RisingBodySnapsToGround | Classes/player/Character.cpp:268-281 | a body moving up over terrain whose ground lies at its own height is put back at that height, keeping its velocity and grounded flag: on flat terrain a jump gains no height |
| Movement.StepOrWall | Classes/player/Character.cpp:274-295 | a horizontal move only happens when the rise is below the 40-unit step height; a rise of at least 40 keeps x and z |
| Movement.Advance | Classes/player/Character.cpp:228-229 | the new position is the old one plus velocity × dt |
| Movement.ProbeRay | Classes/player/Character.cpp:265 | the ground ray starts 500 above the new position and points straight down |
| Movement.Probe | Classes/player/Character.cpp:263-301 | no collider exactly when there is no terrain; a hit lies below the ray start at a positive distance; an origin outside the grid misses |
| Collider.LocalBoxHoldsMeshes | Classes/combat/CharacterCollider.h:33-46 | when the model's box is degenerate and some mesh box has positive width, the local box encloses every mesh box and lies inside any box enclosing them all |
| Collider.CheckCollision | Classes/combat/CharacterCollider.h:91-93 | a collision is an overlap of the world box with the other box, and it does not depend on which of the two boxes asks |
| Collider.CollisionSharesPoint | Classes/combat/CharacterCollider.h:91-93 | two ordered boxes collide exactly when they share a point. When they collide, the start of their overlap lies in both; any common point means they collide |
| Health.Init | Classes/combat/HealthComponent.cpp:60-74 | a non-positive maximum is refused and leaves the component alone; otherwise full health, alive, not invincible, and within the health invariant |
| Health.TakeDamage | Classes/combat/HealthComponent.cpp:92-138 | invincible or dead components ignore the hit; otherwise health drops by the non-negative part of the damage, floored at 0, death comes exactly at 0, and the hooks fire hurt, then dead (only on death), then change with the new and old health; the invariant is kept and health never rises |
| Health.Heal | Classes/combat/HealthComponent.cpp:152-176 | a dead component ignores healing; otherwise health rises by the non-negative amount, capped at the maximum, with one change hook; the invariant is kept and health never falls |
| Health.SetMaxHealth | Classes/combat/HealthComponent.cpp:185-204 | a non-positive maximum is refused; otherwise the maximum is replaced, current health is capped to it, one change hook fires, and the invariant is kept |
| Health.Percentage | Classes/combat/HealthComponent.cpp:226-231 | 0 without a positive maximum; otherwise the share p with p · max = current, which lies in [0, 1] for a valid component |
| Health.Reset | Classes/combat/HealthComponent.cpp:264-273 | full health and alive, the change hook receives 0 as its second argument, and the invariant is kept |
| Health.FullHeal | Classes/combat/HealthComponent.cpp:279-287 | full health with the dead flag untouched; the change hook, carrying the amount healed, fires only if health changed |
| Health.SetCurrentHealth | Classes/combat/HealthComponent.cpp:289-300 | the value is clamped into [0, max]: below 0 gives 0, above the maximum gives the maximum, and an in-range value is taken exactly. The invariant holds, the dead flag survives only at 0, and one change hook fires with the new and old health |
| Health.TakeDamages | Classes/combat/HealthComponent.cpp:92-138 | a run of hits keeps the invariant and the maximum |
| Health.CountDiedAppend | Classes/combat/HealthComponent.cpp:124-132 | dead-hook counts add up over concatenated event lists |
| Health.DiesAtMostOnce | Classes/combat/HealthComponent.cpp:99-103 | over any run of hits the dead hook fires at most once, never for a component already dead, and a component that died stays dead |
| Health.HealUndoesHit | Classes/combat/HealthComponent.cpp:152-176 | a non-lethal hit is exactly undone by healing the same amount |
| Health.DamageFloorsAtZero | Classes/combat/HealthComponent.cpp:105-132 | a hit of at least the current health leaves exactly 0 and dead; a smaller non-negative hit subtracts exactly and leaves the component alive |
| Health.HitsKeepFlags | Classes/combat/HealthComponent.cpp:92-138 | no run of hits changes the invincible flag |
| Health.ResetAfterHits | Classes/combat/HealthComponent.cpp:264-273 | after any run of hits, reset rebuilds exactly the state that init with the same maximum builds, alive |
| Health.FullHealIsHeal | Classes/combat/HealthComponent.cpp:279-287 | on a live component, full heal ends where healing the missing amount ends |
| Health.SetMaxIdempotent | Classes/combat/HealthComponent.cpp:185-204 | setting the same maximum a second time changes nothing more |
| Health.SetThenPercentage | Classes/combat/HealthComponent.cpp:289-300 | an in-range value set as current health reads back as its share of the maximum |
| Combat.CalculateDamage | Classes/combat/CombatComponent.cpp:264-274 | the damage dealt is never below 1 |
| Combat.ReductionClosedForm | Classes/combat/CombatComponent.cpp:267-270 | base · (1 − d / (d + 100)) equals base · 100 / (d + 100) |
| Combat.DamageLandmarks | Classes/combat/CombatComponent.cpp:264-274 | no defense leaves a base of at least 1 unchanged, and a defense of 100 halves the base down to the floor of 1 |
| Combat.DefenseOnlyReduces | Classes/combat/CombatComponent.cpp:264-274 | non-negative defense never raises a base of at least 1, and the result is max(1, base · 100 / (d + 100)) |
| Combat.MoreDefenseLessDamage | Classes/combat/CombatComponent.cpp:264-274 | for a positive base, more non-negative defense never yields more damage |
| Combat.MoreBaseMoreDamage | Classes/combat/CombatComponent.cpp:264-274 | against non-negative defense, a larger non-negative base never yields less damage |
| Combat.DealtDamage | Classes/combat/CombatComponent.cpp:155-171 | the damage an attack hands over is at least 1 |
| Combat.CritNeverWeakens | Classes/combat/CombatComponent.cpp:155-171 | with a crit multiplier of at least 1, a critical draw never deals less than a plain draw |
| Combat.Attack | Classes/combat/CombatComponent.cpp:137-177 | a null target fails; a custom callback's verdict is returned with the target untouched; a target with no health or a dead one fails untouched; any other target takes the dealt damage through its health component and the attack succeeds |
| Combat.Widen | Classes/combat/CombatComponent.cpp:222-226 | the attack box grows by 30 on both X sides and both Z sides and keeps its Y extent |
| Combat.WidenAddsReach | Classes/combat/CombatComponent.cpp:220-228 | whatever the plain attacker box overlaps, the widened box overlaps |
| Combat.Slot | Classes/combat/CombatComponent.cpp:174-238 | one slot: without a custom callback it counts exactly when the target is swept, only the slot's node changes, and a swept node is struck with its draw and reports exactly the callbacks its health component fires for that hit; with a custom callback nothing changes; an unswept slot or a custom callback reports no callback |
| Combat.SweepAll | Classes/combat/CombatComponent.cpp:185-242 | the hit count is at most the number of slots, one callback list is reported per slot, the node set is kept, the attacker and unlisted nodes are untouched, and a custom callback changes nothing |
| Combat.SweepAllSnoc | Classes/combat/CombatComponent.cpp:189-239 | the sweep over one more slot is the sweep so far followed by that slot |
| Combat.SweepStrikesSwept | Classes/combat/CombatComponent.cpp:185-242 | without a custom callback and with distinct nodes, the count is the number of swept slots and each swept node is struck exactly once with its slot's draw while every other listed node is unchanged |
| Combat.SweepEventsSwept | Classes/combat/CombatComponent.cpp:174-233 | without a custom callback and with distinct nodes, each slot swept in the world before the attack reports the Hurt/Died/Changed callbacks of the one hit `takeDamage` deals its node, with the slot's draw, and every other slot reports none |
| Combat.SweepCustomSilent | Classes/combat/CombatComponent.cpp:138-233 | with a custom attack callback no slot reaches a health component, so no slot reports a callback |
| Combat.SweepAllMeets | Classes/combat/CombatComponent.cpp:185-242 | the recursive sweep meets every promise of the melee attack |
| Combat.ExecuteMeleeAttack | Classes/combat/CombatComponent.cpp:185-242 | the count is at most the number of slots; one callback list per slot, in sweep order; the same nodes remain; the attacker and nodes in no slot are untouched; a custom callback changes no health and fires no callback; without one and with no node in two slots, exactly the swept slots are struck, once each, with their own draw, each reports the callbacks its target's `takeDamage` fires for that hit, the other slots report none, and the count is their number |
| Health.SetInvincible | Classes/combat/HealthComponent.cpp:248-251 | the invincibility flag takes the given value, and health, maximum and dead flag are unchanged |
| Health.InvincibleIgnoresHits | Classes/combat/HealthComponent.cpp:92-97 | an invincible component ignores every hit and fires no hooks. Switching invincibility on and then back to its old value restores the component |
| Enemy.InitMachine | Classes/enemy/Enemy.cpp:270-285 | the seven states are registered under their names and Idle becomes current with no previous state, with exactly one enter hook |
| Enemy.Create | Classes/enemy/Enemy.cpp:25-80 | a new enemy is normal with speed 50, turn rate 180, view range 200 and chase range 1000. Both capabilities are on, health is full at 100, and it has the enemy combat statistics. It rests on the ground at the given position, which is also its birth point (init records the position it finds there). It is alive and in Idle |
| Enemy.DeadIsInert | Classes/enemy/Enemy.cpp:183-198 | a dead enemy can neither move nor attack whatever its flags say, and one without a health component is never dead and follows its flags |
| Enemy.SetEnemyType | Classes/enemy/Enemy.cpp:208-224 | the normal type sets 50 / 180 / 200, the boss type 40 / 120 / 300, and nothing else changes |
| Enemy.CreateIsNormalType | Classes/enemy/Enemy.cpp:25-43 | the constructor's values are the normal row of the type table, so setting the normal type changes nothing and switching to boss and back restores the enemy |
| Enemy.SetBirthPosition | Classes/enemy/Enemy.cpp:252-255 | the birth point is set and the enemy moves there, nothing else changes |
| Enemy.ResetEnemy | Classes/enemy/Enemy.cpp:507-516 | the enemy is back at its birth point, alive, with full health and the health component's reset hooks, asked into Idle, with its flags and type untouched |
| Enemy.ResetReturnsToBirth | Classes/enemy/Enemy.cpp:507-516 | after setting a birth point, a reset returns there from wherever the enemy went, alive |
| Enemy.HealthRatio | Classes/enemy/Enemy.cpp:383-385 | 1 without a health component; otherwise the share of the maximum, within [0, 1] for a valid component |
| Enemy.LowHealthIsLowRatio | Classes/enemy/Enemy.cpp:375-378 | with a health component, low health is exactly a ratio of at most 0.3. With a positive maximum that means current health at most 0.3 of the maximum. Without a component the enemy is never low and its ratio is 1 |
| Enemy.OnHurt | Classes/enemy/Enemy.cpp:319-353 | the enemy is always asked into Hit; a living boss keeps its capabilities, every other enemy loses both |
| Enemy.OnDead | Classes/enemy/Enemy.cpp:357-370 | both capabilities are lost and the enemy is asked into Dead |
| Enemy.React | Classes/enemy/Enemy.cpp:289-299 | reacting to the health callbacks leaves the health, body, type and registry alone |
| Enemy.HitReaction | Classes/enemy/Enemy.cpp:319-370 | a killing hit ends in Dead with both capabilities off; a surviving hit ends in Hit; a surviving boss keeps its capabilities and a normal enemy loses both in any case |
| Enemy.Tick | Classes/enemy/Enemy.cpp:85-161 | the state requests are applied in order, then gravity and the terrain step rule move the body, and nothing else changes |
| Enemy.RestingStaysPut | Classes/enemy/Enemy.cpp:103-133 | an enemy at rest on terrain whose probe finds the ground at its own height stays exactly where it is, still grounded |
| Enemy.IsDead | Classes/enemy/Enemy.cpp:195-198 | an enemy without a health component is never dead; with one, it is dead exactly when its health says so |
| Enemy.CanMove | Classes/enemy/Enemy.cpp:183-187 | a dead enemy cannot move; a living one can exactly when its move flag is set |
| Enemy.CanAttack | Classes/enemy/Enemy.cpp:189-193 | a dead enemy cannot attack; a living one can exactly when its attack flag is set |
| Enemy.IsLowHealth | Classes/enemy/Enemy.cpp:375-378 | an enemy without a health component is never low on health |
| EnemyStates.Enter | Classes/enemy/EnemyStates.cpp:149-170 | entering any of the seven states gives that state with its timer at 0; Idle and Patrol take the drawn idle and patrol times, the patrol goal sits 100 · (cos, sin) from the birth point at birth height, Attack starts without a strike, Dead unprocessed and Return aimed at the birth point; an unknown name gives nothing |
| EnemyStates.IdleUpdate | Classes/enemy/EnemyStates.cpp:92-115 | the timer advances and the enemy stays put; Patrol is asked for exactly when the idle time is up and Chase exactly when a live target is in view, Chase last |
| EnemyStates.PatrolUpdate | Classes/enemy/EnemyStates.cpp:175-222 | a target in view asks only for Chase; otherwise only Idle can be asked for, exactly on arrival within 10 or on the patrol time running out; the enemy moves only when mobile, not in view and further than 10, and then by moveSpeed · dt along the unit direction to the goal |
| EnemyStates.ChaseUpdate | Classes/enemy/EnemyStates.cpp:258-352 | Return exactly when the target is missing, too far from home or out of view; Attack exactly when in view, home range, attack range 80 and able to attack; otherwise no request and a mobile enemy steps horizontally toward the player, mapped back to its own space |
| EnemyStates.AttackUpdate | Classes/enemy/EnemyStates.cpp:394-449 | the strike resolves exactly at the first update reaching 0.3 s with a combat component and a target; before 3 s nothing is asked; from 3 s a live target in view restarts the cycle when the enemy can attack and asks for Chase otherwise, and anything else asks for Return |
| EnemyStates.HitUpdate | Classes/enemy/EnemyStates.cpp:490-521 | nothing before 0.5 s; then Attack exactly for a live target within 80 when able to attack, Chase exactly for a live target within 80 unable to attack or beyond 80 but in view, Return exactly otherwise |
| EnemyStates.ReturnUpdate | Classes/enemy/EnemyStates.cpp:621-666 | a target in view (distance FLT_MAX without one) asks for Chase; an immobile enemy waits; within 10 of home the enemy snaps its X and Z home and asks for Patrol; otherwise it steps horizontally toward home by min(moveSpeed · dt, distance) |
| EnemyStates.Update | Classes/enemy/EnemyStates.cpp:578-582 | Dead only marks itself processed; every other state asks for Dead when the enemy is dead and never asks for Dead otherwise; the state kind never changes |
| EnemyStates.ReturnNeverOvershoots | Classes/enemy/EnemyStates.cpp:643-660 | a returning step never passes home: the horizontal distance left is exactly the old distance less the clamped step |
| EnemyStates.PatrolStepsTowardGoal | Classes/enemy/EnemyStates.cpp:196-210 | a patrol step no longer than the remaining distance leaves exactly the remainder to go |
| EnemyStates.ReturnWithoutTargetNeverChases | Classes/enemy/EnemyStates.cpp:627-636 | without a live target and with a finite view range, Return never asks for Chase |
| EnemyStates.IdleLaterRequestWins | Classes/enemy/EnemyStates.cpp:100-114 | when the idle time runs out with a target in view, Idle asks for Patrol and then Chase, so Chase wins |
| EnemyStates.ChaseStepsAtSpeed | Classes/enemy/EnemyStates.cpp:335-350 | a chasing step covers exactly moveSpeed · dt horizontally and keeps the height |
| EnemyStates.HitAlwaysLeaves | Classes/enemy/EnemyStates.cpp:500-520 | once the hit time is over, Hit asks for exactly one of Attack, Chase and Return |
| EnemyStates.PatrolGoalOnCircle | Classes/enemy/EnemyStates.cpp:159-166 | every patrol goal lies on the circle of radius 100 around the birth point, at birth height |
| EnemyStates.StrikeOncePerCycle | Classes/enemy/EnemyStates.cpp:404-437 | over any run of attack updates, strikes never outnumber the cycle restarts plus the one strike the current cycle still owes |
| EnemyStates.EnteredAttackStrikesOnce | Classes/enemy/EnemyStates.cpp:380-389 | a freshly entered Attack resolves at most one strike more than the cycles it restarts |
| EnemyStates.HasTarget | Classes/enemy/EnemyStates.cpp:13-17 | without a target there is none to chase. A present target counts exactly when it is not dead |
| Boss.DeadIsBusy | Classes/enemy/Boss.h:58 | a dead boss is always busy; a living one is busy exactly when its busy flag is set |
| Boss.ConsumePendingSkill | Classes/enemy/Boss.h:68-72 | returns the pending skill and leaves none pending, nothing else changes |
| Boss.PendingRoundTrip | Classes/enemy/Boss.h:64-72 | a skill is pending after setting it exactly when its name is not empty; consuming it returns exactly that name and clears it, and consuming twice returns nothing the second time |
| Boss.ApplyPhase2Buff | Classes/enemy/Boss.h:51-54 | the movement and damage multipliers take the given values and nothing else changes |
| Boss.BuffOutlivesReset | Classes/enemy/Boss.cpp:81-93 | after the phase-2 buff, a reset returns the boss to phase 1 but keeps the 1.2 and 1.15 multipliers |
| Boss.InitMachine | Classes/enemy/Boss.cpp:108-119 | the six boss states are registered under their names and Chase becomes current with exactly one enter hook |
| Boss.InitBoss | Classes/enemy/Boss.cpp:40-56 | the boss type's speed and turn rate, view and chase range 500, phase 1, unit multipliers, not busy, not healed and nothing pending, the rest of the enemy untouched |
| Boss.Create | Classes/enemy/Boss.cpp:40-77 | a new boss holds the boss states, is in Chase, has full health of 100, stands where it was born, and is in phase 1, not healed and not busy |
| Boss.RatioAsWritten | Classes/enemy/Boss.cpp:58-59 | the hook's ratio as written is its first argument over its second, undefined for a second argument of 0 |
| Boss.Ratio | Classes/enemy/Boss.cpp:58-59 | the corrected ratio is the current health over the maximum, undefined without health or with a zero maximum |
| Boss.OnHealthChange | Classes/enemy/Boss.cpp:58-72 | the hook fires exactly for a living boss not yet healed whose ratio is at most 0.5, and then the boss is marked healed, enters phase 2, is fully healed and is asked into PhaseChange; otherwise nothing changes |
| Boss.Respond | Classes/enemy/Boss.cpp:57-74 | reacting to the health callbacks never moves the boss or changes its type, registry, busy flag, pending skill or multipliers; a healed boss keeps its phase and health, and a boss left unhealed keeps them too |
| Boss.TakeDamageAsWritten | Classes/combat/HealthComponent.cpp:134-137 | as written: a boss without health is untouched, and an already healed boss only takes the hit |
| Boss.TakeDamage | Classes/enemy/Boss.cpp:57-74 | corrected: a boss without health is untouched, and an already healed boss only takes the hit |
| Boss.HalfRatio | Classes/enemy/Boss.cpp:59-63 | for a positive maximum, a ratio at most one half is exactly a current health at most half the maximum |
| Boss.HalfHealthHeals | Classes/enemy/Boss.cpp:57-74 | corrected: a hit that leaves an unhealed boss alive at no more than half its maximum heals it to full, marks it healed, enters phase 2 and asks for PhaseChange; any other hit only lowers its health |
| Boss.DeadHitKeepsPhase | Classes/enemy/Boss.cpp:63 | a killing hit never triggers phase 2 |
| Boss.LiveHitRunsHook | Classes/enemy/Boss.cpp:57-74 | a surviving hit heals and enters phase 2 exactly when the boss is unhealed and at no more than half its maximum |
| Boss.AsWrittenNeedsHalvingHit | Classes/combat/HealthComponent.cpp:134-137 | as written, phase 2 needs a single hit that at least halves the health the boss had just before it |
| Boss.HalfHealthMissedAsWritten | Classes/enemy/Boss.cpp:58-63 | from full health of 100, two hits of 30 leave the boss as written at 40 of 100, still in phase 1 and unhealed, because the hook never fires; the corrected boss is healed to 100 and in phase 2 |
| Boss.HealsAtMostOnce | Classes/enemy/Boss.cpp:63-64 | over any run of hits the boss heals at most once, never once healed, and stays healed after healing |
| Boss.HealedStays | Classes/enemy/Boss.cpp:63-64 | a healed boss stays healed after any hit |
| Boss.ResetBoss | Classes/enemy/Boss.cpp:81-93 | the enemy reset, then phase 1, unhealed, not busy and nothing pending, at the birth point, alive with full health, asked into Idle if registered; the multipliers are kept |
| Boss.ResetRearmsHeal | Classes/enemy/Boss.cpp:81-86 | after a reset, a surviving hit to at most half the maximum heals the boss and enters phase 2 again |
| Boss.DistanceToPlayer | Classes/enemy/Boss.cpp:123-126 | 1e9 without a target, otherwise the non-negative length whose square is the squared distance |
| Boss.IsBusy | Classes/enemy/Boss.h:58 | a dead boss is always busy. With its busy flag clear, it is busy exactly when dead |
| Boss.SetPendingSkill | Classes/enemy/Boss.h:64 | the given skill becomes the pending one, and phase, multipliers, flags and enemy state are unchanged |
| Boss.HasPendingSkill | Classes/enemy/Boss.h:66 | a skill is pending exactly when the stored name has at least one character |
| BossAI.OpenToBothPhases | Classes/enemy/BossAI.cpp:40-44 | Combo3, DashSlash and GroundSlam get mask 3, any other skill keeps its mask, and nothing else about a skill changes |
| BossAI.InitSkills | Classes/enemy/BossAI.cpp:25-45 | the table is the four skills in push order, with masks 3, 3, 3 and 2 after the loop |
| BossAI.Create | Classes/enemy/BossAI.cpp:17-21 | the AI starts enabled with think timer 0, the skill table, and a zero cooldown for exactly the table's names |
| BossAI.Decay | Classes/enemy/BossAI.cpp:73-75 | every cooldown is kept as a key, drops by dt and never below 0, and never rises for a non-negative dt |
| BossAI.DecayComposes | Classes/enemy/BossAI.cpp:73-75 | two decays by non-negative a and b are one decay by a + b |
| BossAI.Candidates | Classes/enemy/BossAI.cpp:101-110 | the candidates are exactly the table's skills allowed in the phase, in range and off cooldown |
| BossAI.PickFrom | Classes/enemy/BossAI.cpp:58-63 | the pick is the first candidate whose running clamped weight reaches the draw, or the last |
| BossAI.PickByWeight | Classes/enemy/BossAI.cpp:51-64 | a total clamped weight of at most 0 picks the first candidate; otherwise every earlier running total stays below the draw, and a draw within the total is reached by the pick |
| BossAI.RunningShift | Classes/enemy/BossAI.cpp:59-62 | a running total splits into the first clamped weight and the running total of the rest |
| BossAI.RunningSnoc | Classes/enemy/BossAI.cpp:59-62 | a running total one longer adds the next clamped weight |
| BossAI.PickHasWeight | Classes/enemy/BossAI.cpp:57-62 | for a draw in (0, total], a skill of weight 0 or less is never picked |
| BossAI.PickStraddles | Classes/enemy/BossAI.cpp:51-64 | for a draw in (0, total], the clamped weights before the pick stay below the draw and adding the pick's clamped weight reaches it |
| BossAI.LeapIndex | Classes/enemy/BossAI.cpp:114-121 | the first LeapSlam among the candidates, or none when no candidate is LeapSlam |
| BossAI.Choose | Classes/enemy/BossAI.cpp:112-132 | no skill exactly when there is no candidate; in phase 2 beyond 600 a LeapSlam candidate wins; otherwise the weighted pick; the chosen skill is always an eligible table skill |
| BossAI.Update | Classes/enemy/BossAI.cpp:69-136 | a disabled AI does nothing; cooldowns decay first; dead or busy bosses and an unexpired think timer wait; otherwise the timer resets, phase 2 is entered exactly when due, else a chosen skill is used and its cooldown set to its cd, or the boss chases |
| BossAI.AsWrittenPhaseTwoWithoutHeal | Classes/enemy/BossAI.cpp:87-91 | after two as-written hits of 30 on a boss at 100 of 100, the AI's phase check is due; an update that passes the dead, busy and timer gates enters phase 2, and acting on it leaves the boss in phase 2 at 40 health, never healed |
| BossAI.Act | Classes/enemy/BossAI.cpp:86-135 | phase 2 asks for PhaseChange; a skill becomes pending and asks for Attack; a chase asks for Chase; health, heal flag and busy flag stay |
| BossAI.BossUpdate | Classes/enemy/Boss.cpp:98-104 | the AI decides on the boss after its enemy update, and a chase or skill decision leaves the boss in Chase or Attack |
| BossAI.MasksByPhase | Classes/enemy/BossAI.cpp:103 | mask 3 allows both phases and mask 2 only phase 2 |
| BossAI.NothingBeyondReach | Classes/enemy/BossAI.cpp:32-37 | beyond 500 no skill is a candidate, so the LeapSlam override beyond 600 never fires |
| BossAI.NothingInTheGap | Classes/enemy/BossAI.cpp:32-37 | between 100 and 250 no skill is a candidate |
| BossAI.OutOfReachChases | Classes/enemy/BossAI.cpp:124-135 | without a target, in the gap or beyond reach, a thinking boss that is not due for phase 2 chases |
| BossAI.PhaseOneNeverLeaps | Classes/enemy/BossAI.cpp:37-44 | in phase 1 LeapSlam is never a candidate |
| BossAI.NoRecastWithinCooldown | Classes/enemy/BossAI.cpp:107 | a skill whose cooldown was set to its cd is not eligible again before that much time has passed |
| BossAI.UsedSkillCoolsDown | Classes/enemy/BossAI.cpp:126-130 | the skill an update uses is not eligible again until its full cd has elapsed |
| BossStates.GetCfg | Classes/enemy/BossStates.cpp:50-88 | a known skill gets its own configuration and any other name gets Combo3's; every configuration is one of the five and has non-negative move time, dash distance and damage |
| BossStates.MovingSkills | Classes/enemy/BossStates.cpp:50-88 | exactly DashSlash and LeapSlam move, and both lock onto the target with a dash distance of 200 |
| BossStates.DashTarget | Classes/enemy/BossStates.cpp:253-265 | the dash point keeps the start height, lies max(0, len − dash) from the start toward the player, and leaves the rest of the distance to the player |
| BossStates.DashStopsShort | Classes/enemy/BossStates.cpp:253-265 | a dash ends min(len, dash) short of the player and never further from the start than the player is |
| BossStates.EnterAttack | Classes/enemy/BossStates.cpp:237-266 | the boss becomes busy and its pending skill is consumed (Combo3 when none is pending); the attack starts in windup at timer 0 without a hit, from the boss's position, aimed at the dash point for a locking moving skill with the player not directly above, else at the player |
| BossStates.GotoStage | Classes/enemy/BossStates.cpp:285-289 | the stage changes, the timer resets, the hit flag clears on entering Active, and the configuration and endpoints stay |
| BossStates.DashPoint | Classes/enemy/BossStates.cpp:301-307 | the move interpolates from start to target by t01 = min(1, timer / max(0.0001, moveTime)), which lies in [0, 1], at the current height |
| BossStates.AttackUpdate | Classes/enemy/BossStates.cpp:271-343 | dead asks for Dead; otherwise stages only advance, each stage change resets the timer; windup leads to Move or Active, Move moves the boss and leads to Active at moveTime, Active applies the hit exactly once and leads to Recovery, Recovery ends by clearing busy and asking for Chase |
| BossStates.HitOncePerAttack | Classes/enemy/BossStates.cpp:318-323 | over any run of updates an attack applies no more hits than it owes, and at most one from windup |
| BossStates.ApplyHitOnce | Classes/enemy/BossStates.cpp:94-115 | the player takes damage × dmgMul exactly when within the hit radius and having health |
| BossStates.BuffNeverWeakens | Classes/enemy/BossStates.cpp:218-220 | a hit with the phase-2 damage multiplier never leaves the player with more health than an unbuffed one |
| BossStates.ChaseUpdate | Classes/enemy/BossStates.cpp:157-186 | dead asks for Dead; a target at the origin (none) asks for Idle; otherwise the boss moves exactly when the horizontal distance is not tiny, by moveSpeed · moveMul · dt toward the player, mapped back to its own space |
| BossStates.ChaseStepsTowardPlayer | Classes/enemy/BossStates.cpp:173-185 | a chase step no longer than the horizontal distance keeps the height and leaves exactly the remainder to the player |
| BossStates.PhaseChangeUpdate | Classes/enemy/BossStates.cpp:211-228 | dead asks for Dead; from 3.5 s the phase-2 buff of 1.2 and 1.15 is applied, busy clears and Chase is asked for; before that nothing changes |
| BossStates.HitUpdate | Classes/enemy/BossStates.cpp:371-386 | dead asks for Dead; from 0.8 s busy clears and Chase is asked for; before that nothing changes |
| BossStates.Update | Classes/enemy/BossStates.cpp:131-137 | Dead does nothing; every other state asks only for Dead when the boss is dead; the state kind never changes |
| BossStates.Enter | Classes/enemy/BossStates.cpp:195-206 | entering one of the six states gives that state; Idle and Chase clear busy and the others set it; only Attack touches anything else; PhaseChange and Hit start at timer 0 |
| BossStates.Exit | Classes/enemy/BossStates.cpp:347-351 | leaving Attack or Hit clears busy; leaving any other state changes nothing |
| BossStates.BusyWhilePlaying | Classes/enemy/BossStates.cpp:356-366 | in Attack, PhaseChange, Hit and Dead the boss is busy |
| Character.InitMachine | Classes/player/Character.cpp:56-72 | the ten player states are registered under their names and Idle is entered as the initial state with one enter hook |
| Character.Create | Classes/player/Character.cpp:8-76 | a new character is alive with 100 hp, no buffered combo, at rest on the ground, full health of 100, the player combat statistics, and in Idle |
| Character.HP | Classes/player/Character.cpp:133-136 | with a health component, the truncation of the current health; otherwise the stored hp |
| Character.MaxHP | Classes/player/Character.cpp:138-141 | with a health component, the truncation of the maximum; otherwise 100 |
| Character.Jump | Classes/player/Character.cpp:99-106 | only a living character on the ground jumps: vertical velocity becomes the jump speed, it leaves the ground and asks for Jump; otherwise nothing changes |
| Character.Roll | Classes/player/Character.cpp:108-113 | a living character asks for Roll; a dead one does nothing |
| Character.CurrentName | Classes/player/Character.cpp:120-121 | the current state's name, or empty without a current state |
| Character.AttackLight | Classes/player/Character.cpp:115-131 | a dead character does nothing; in a state whose name starts with "Attack" the combo is buffered; otherwise the buffer clears and Attack1 is asked for |
| Character.LightAttackBuffersOrStarts | Classes/player/Character.cpp:115-131 | in Attack1, Attack2 or Attack3 a light attack only buffers the combo; in any other registered state it enters Attack1 with the buffer clear |
| Character.ConsumeComboBuffered | Classes/player/Character.cpp:208-212 | returns whether a combo was buffered and clears the buffer |
| Character.ConsumeOnce | Classes/player/Character.cpp:208-212 | a buffered combo is consumed at most once |
| Character.Die | Classes/player/Character.cpp:162-170 | a dead character does nothing; otherwise hp becomes 0, the character is dead and Dead is asked for |
| Character.DieIdempotent | Classes/player/Character.cpp:162-170 | dying twice is dying once, and afterwards the character is dead with 0 hp |
| Character.TakeHit | Classes/player/Character.cpp:143-160 | a dead character ignores the hit; hp is re-read from the health component (truncated) or reduced by the damage; at 0 or below the character dies, otherwise it asks for Hurt |
| Character.React | Classes/player/Character.cpp:36-45 | the health hooks leave health, body and registry alone, and a dead character ignores them |
| Character.HitThroughHealth | Classes/player/Character.cpp:143-170 | a hit through the health component kills exactly when it leaves less than 1 health, with hp 0 and in Dead; otherwise hp is the truncated health and the character is in Hurt |
| Character.Respawn | Classes/player/Character.cpp:172-184 | the character is alive, its health component is reset and hp is the truncated maximum (100 without one), and Idle is asked for |
| Character.RespawnAfterDeath | Classes/player/Character.cpp:162-184 | after dying, a respawn leaves the character alive in Idle with full, live health |
| Character.SetHorizontalVelocity | Classes/player/Character.cpp:198-201 | X and Z velocity take the new values and the vertical velocity, position and ground flag stay |
| Character.StopHorizontal | Classes/player/Character.cpp:203-206 | X and Z velocity become 0 and everything else stays |
| Character.StopIsZeroVelocity | Classes/player/Character.cpp:198-206 | stopping is setting a zero horizontal velocity, setting keeps the vertical velocity, and stopping forgets any horizontal velocity set before |
| Character.PushOut | Classes/player/Character.cpp:243-260 | the push keeps the height and moves the box with the position; with no live enemy nothing moves |
| Character.PushOutOfOne | Classes/player/Character.cpp:243-260 | one overlapping live enemy pushes the character by the collision offset along X or Z only, leaving the boxes touching on one face |
| Character.Tick | Classes/player/Character.cpp:78-89 | the machine update runs first; a dead character then stops; a living one falls, is pushed out of enemies, settles on the terrain and refreshes its collider, nothing else changing |
| Character.DeadNeverMoves | Classes/player/Character.cpp:78-82 | a dead character's body and collider do not change in an update |
| Wukong.PlayAnim | Classes/player/Wukong.cpp:92-111 | only the current clip name changes, and it changes exactly when the clip is loaded and not already playing, to that clip |
| Wukong.PlayAnimIdempotent | Classes/player/Wukong.cpp:95 | playing the same clip twice is playing it once |
| Wukong.AnimDuration | Classes/player/Wukong.cpp:196-200 | a loaded clip's duration, else 0.6 |
| Wukong.Init | Classes/player/Wukong.cpp:17-73 | walk speed 140 and run speed 240; the collider is fitted to the model shrunk to 40%; every loaded clip is kept, "run" aliases "run_fwd"; idle plays if loaded; three skill charges, no cooldown, no locomotion direction, no jump clip playing |
| Wukong.StartJumpAnim | Classes/player/Wukong.cpp:123-145 | without a jump clip nothing changes; otherwise the jump clip is current and marked playing |
| Wukong.JumpLanded | Classes/player/Wukong.cpp:137-156 | the jump clip stops playing and the machine is asked for Move when the intent moves, else Idle |
| Wukong.LandsInMoveOrIdle | Classes/player/Wukong.cpp:147-156 | with the player states registered, landing ends in Move exactly when the intent moves and in Idle otherwise |
| Wukong.CalcLocomotionDir | Classes/player/Wukong.cpp:163-170 | no direction exactly below the dead zone 0.01; the larger axis decides, Y winning ties; its sign picks forward or back, right or left |
| Wukong.ReversedAxisReversesDir | Classes/player/Wukong.cpp:163-170 | reversing the stick reverses the direction |
| Wukong.UpdateLocomotionAnim | Classes/player/Wukong.cpp:172-194 | no direction, or the same direction and gait, changes nothing; otherwise the direction and gait are stored and the direction's clip plays, falling back to run_fwd when the clip is missing |
| Wukong.LocomotionSettles | Classes/player/Wukong.cpp:176 | a second update with the same stick and gait changes nothing |
| Wukong.CastSkill | Classes/player/Wukong.cpp:217-240 | no charges or a running cooldown refuses with a notice and changes nothing; otherwise one charge is spent, the cooldown starts, the player heals 20 and Skill is asked for |
| Wukong.NoDoubleCast | Classes/player/Wukong.cpp:223-226 | a cast that succeeds is refused when repeated at once |
| Wukong.CooldownStep | Classes/player/Wukong.cpp:212-214 | a running cooldown drops by dt; an expired one stays |
| Wukong.Update | Classes/player/Wukong.cpp:210-215 | the character update, then the cooldown step |
| Wukong.ResetSkill | Classes/player/Wukong.cpp:245-248 | three charges and no cooldown, nothing else changes |
| Wukong.Respawn | Classes/player/Wukong.cpp:250-253 | the character respawn followed by the skill reset: alive with three charges and no cooldown |
| Wukong.ChargesAccounted | Classes/player/Wukong.cpp:217-240 | over any run of casts and cooldown steps, casts made plus charges left equal the charges at the start, and charges never go negative |
| Wukong.AtMostThreeCastsPerLife | Classes/player/Wukong.cpp:245-253 | after a respawn, at most three casts succeed whatever follows |
| WukongStates.Settle | Classes/player/WukongStates.h:203-209 | the state a finished action settles into: Move exactly when the intent moves, else Idle |
| WukongStates.Fix | Classes/player/WukongStates.h:166-168 | a clip duration at or above the floor is kept, one below it is replaced by the state's default |
| WukongStates.Stop | Classes/player/WukongStates.h:24 | only the horizontal velocity is cleared |
| WukongStates.TurnDelta | Classes/player/WukongStates.h:60 | the wrapped angle difference lies in [-180, 180) whenever fmod's argument is non-negative |
| WukongStates.MoveTowardAngleDeg | Classes/player/WukongStates.h:58-64 | the angle moves by at most the step. Within the step it lands on the wrapped target. Beyond the step, on either side, it moves by exactly the step toward the target |
| WukongStates.TurnReachesTarget | Classes/player/WukongStates.h:58-64 | within one step the result equals the target up to whole turns |
| WukongStates.RollDir | Classes/player/WukongStates.h:174-186 | the roll direction is never shorter than the dead zone, and is the input whenever the input is not |
| WukongStates.EnterRoll | Classes/player/WukongStates.h:152-190 | the roll lasts the roll clip's duration (0.45 below 0.05), moves during the first 55% of it, plays the roll clip and sets the velocity to the normalised direction times 1.25 times the run speed |
| WukongStates.RollSpeed | Classes/player/WukongStates.h:186-189 | a level roll moves at exactly 1.25 times the run speed |
| WukongStates.Enter | Classes/player/WukongStates.h:20-503 | entering succeeds exactly for the registered names; each state's start: Idle stops and plays idle, Move refreshes the locomotion clip, Jump starts the jump clip, Roll as EnterRoll, attacks stop and play their clip with its raw duration, Hurt, Skill and Dead stop and play their clip with durations floored at 0.05, 0.05 and 0.5 |
| WukongStates.EnteringStops | Classes/player/WukongStates.h:20-503 | every state other than Move, Jump and Roll starts with the player standing still where it was |
| WukongStates.Exit | Classes/player/WukongStates.h:88-216 | leaving Move or Roll stops the player; leaving any other state changes nothing |
| WukongStates.IdleUpdate | Classes/player/WukongStates.h:28-36 | Idle changes nothing and asks for Move exactly when the intent moves |
| WukongStates.MoveUpdate | Classes/player/WukongStates.h:66-86 | without input the player stops and asks for Idle; with input the velocity is the normalised input times the gait's speed, the position is unchanged and nothing is asked for |
| WukongStates.GaitSpeed | Classes/player/WukongStates.h:79-83 | level input moves the player at exactly the run or walk speed |
| WukongStates.JumpUpdate | Classes/player/WukongStates.h:114-130 | the clock advances, nothing else changes and nothing is asked for; leaving the ground is noted only after the 0.08 s guard and only before landing |
| WukongStates.RollUpdate | Classes/player/WukongStates.h:192-211 | the clock advances; at the end of the moving part the slide stops once; at 95% of the clip the player stops and settles into Move or Idle |
| WukongStates.RollStopsSliding | Classes/player/WukongStates.h:192-211 | over any run of updates, once the moving part is over the player has no horizontal velocity |
| WukongStates.LiveFoes | Classes/player/WukongStates.h:345-352 | exactly the present enemies that are not dead |
| WukongStates.HitCheck | Classes/player/WukongStates.h:307-374 | the check fires at most once, inside the step's window (35%/0.08 s, 45%/0.12 s, 40%/0.15 s); it hands the live enemies to the melee attack exactly when there is a combat component and at least one live enemy |
| WukongStates.AttackUpdate | Classes/player/WukongStates.h:261-290 | the clock advances, the hit check runs, a buffered combo press is consumed and queued only inside 20%-65% of the clip; at 95% a queued step 1 or 2 asks for the next step, otherwise the player settles |
| WukongStates.ThirdStepEndsCombo | Classes/player/WukongStates.h:279-289 | the third step never asks for a further attack |
| WukongStates.MeleeOncePerActivation | Classes/player/WukongStates.h:307-374 | over any run of updates an attack step strikes at most once, and never again once it has |
| WukongStates.TimedUpdate | Classes/player/WukongStates.h:406-416 | Hurt and Skill: the clock advances and at 95% of the clip the player settles into Move or Idle |
| WukongStates.DeadUpdate | Classes/player/WukongStates.h:457-468 | once the menu is shown nothing changes; before that the clock advances and the menu shows exactly when the clip's duration is reached |
| WukongStates.MenuShownOnce | Classes/player/WukongStates.h:457-468 | over any run of updates the death menu is shown at most once |
| WukongStates.Update | Classes/player/WukongStates.h:28-518 | Jump and Dead never ask for a state; every state asked for is registered and is never Dead |
| Base.FMod | Classes/player/WukongStates.h:60 | fmod's remainder takes the sign of the dividend, is smaller in size than the divisor, and differs from the dividend by a whole multiple of the divisor |
| Events.ListenersOf | Classes/core/EventManager.cpp:87-88 | an event never registered has no listeners; otherwise its list in registration order |
| Events.AddListener | Classes/core/EventManager.cpp:52-54 | the listener is appended to its event's list; every other event's list and the delayed queue are unchanged |
| Events.RemoveListener | Classes/core/EventManager.cpp:62-64 | removing one listener is a placeholder in the source and leaves every list unchanged |
| Events.RemoveAll | Classes/core/EventManager.cpp:70-72 | the event loses all its listeners and its entry; every other event's list and the delayed queue are unchanged |
| Events.Clear | Classes/core/EventManager.cpp:77-79 | no event has listeners afterwards; the delayed queue is unchanged |
| Events.Trigger | Classes/core/EventManager.cpp:86-94 | one call per listener of the event, in registration order, each with the event's data; none for an unknown event |
| Events.CallAll | Classes/core/EventManager.cpp:90-92 | one call per listener, in order, with the given data |
| Events.AddedListenerFiresLast | Classes/core/EventManager.cpp:52-94 | after adding a listener, triggering the event makes the old calls and then exactly one call to the new listener |
| Events.TriggerDelayed | Classes/core/EventManager.cpp:102-110 | the event is queued at the end with its delay and no elapsed time; listeners are unchanged |
| Events.Bump | Classes/core/EventManager.cpp:35 | only the elapsed time grows, by dt |
| Events.Sweep | Classes/core/EventManager.cpp:33-44 | what stays queued is not yet due and what fires is due |
| Events.SweepPartitions | Classes/core/EventManager.cpp:33-44 | every queued event, with dt added, either stays or fires, none lost and none duplicated |
| Events.BumpAll | Classes/core/EventManager.cpp:35 | every queued event has dt added, in place |
| Events.Update | Classes/core/EventManager.cpp:31-45 | listeners are unchanged; the events not yet due stay queued with dt added; the due ones fire in queue order; nothing left queued is due |
| Events.SweepSplits | Classes/core/EventManager.cpp:33-44 | the sweep keeps queue order: sweeping two queues in sequence is sweeping each |
| Events.FireAllSplits | Classes/core/EventManager.cpp:38 | firing two lists of due events in sequence is firing each in turn |
| Events.FireAllReadsListeners | Classes/core/EventManager.cpp:38 | firing depends only on the listeners, not on the queue |
| Events.SweepOne | Classes/core/EventManager.cpp:35-43 | a single event fires exactly when its elapsed time, with dt added, reaches its delay |
| Events.NonPositiveDelayFiresNext | Classes/core/EventManager.cpp:31-45 | an event delayed by at most zero fires on the next update, after the due events queued before it, and leaves the queue as it was |
| Events.PositiveDelayWaits | Classes/core/EventManager.cpp:31-45 | an event whose delay exceeds dt calls nothing and stays queued at the end with dt elapsed |
| Areas.Init | Classes/core/AreaManager.cpp:19-32 | the monster area, then the boss area; teleport point A at (300, -20, 800), then B at (0, 0, -960) |
| Areas.DistanceViaSquare | Classes/core/AreaManager.cpp:53 | a distance is below the 100-unit interaction distance exactly when its square is below 100² |
| Areas.FirstNear | Classes/core/AreaManager.cpp:52-58 | the first point from the given index on that is near, or -1 when none is |
| Areas.IsNearTeleportPoint | Classes/core/AreaManager.cpp:51-60 | true exactly when some point is near, with the lowest such index; otherwise -1 |
| Areas.FirstArea | Classes/core/AreaManager.cpp:42-48 | the kind of the first area whose rectangle holds the ground position, or none when no rectangle does |
| Areas.CurrentAreaType | Classes/core/AreaManager.cpp:34-49 | near a teleport point wins; otherwise the first area holding the position |
| Areas.InitClassifies | Classes/core/AreaManager.cpp:19-49 | in the initial layout: teleport point near A or B, else the monster rectangle x in [-100, 900], z in [-900, 100], else the boss rectangle x in [-1200, 800], z in [-400, 1600], else none |
| Areas.OverlapIsMonsterArea | Classes/core/AreaManager.cpp:42-46 | the origin lies in both rectangles and counts as a monster area, because that area is listed first |
| Areas.DoTeleport | Classes/core/AreaManager.cpp:62-85 | away from every point nothing happens; near point 0 the player goes to point 1, near any other to point 0, and the destination's music starts |
| Areas.TeleportRoundTrip | Classes/core/AreaManager.cpp:62-85 | in the initial layout, from near A the player lands on B and teleporting again lands on A |
| Areas.TeleportFromA | Classes/core/AreaManager.cpp:67-72 | from near A the player lands on B |
| Areas.TeleportFromB | Classes/core/AreaManager.cpp:67-72 | from B itself the player lands on A |
| Areas.NearestFromB | Classes/core/AreaManager.cpp:51-60 | at B the first point near is B itself, at index 1 |
| Areas.PointsApart | Classes/core/AreaManager.cpp:30-31 | B is out of A's reach and within its own |
| Areas.CanHeal | Classes/core/AreaManager.cpp:87-91 | healing is allowed exactly near some teleport point |
| Areas.InitHealsAtTeleport | Classes/core/AreaManager.cpp:34-91 | healing is allowed exactly where the position classifies as a teleport point, and teleporting from there lands on A or B |
| Scenes.Create | Classes/core/SceneManager.cpp:6-10 | no creators, type NONE, no scene |
| Scenes.Register | Classes/core/SceneManager.cpp:43-45 | the type's creator is set, every other type's creator and the current scene are unchanged |
| Scenes.RegisterOverwrites | Classes/core/SceneManager.cpp:43-45 | registering twice for one type keeps only the second creator |
| Scenes.Switch | Classes/core/SceneManager.cpp:52-86 | the current type, an unregistered type or a creator yielding nothing changes nothing and replaces nothing; otherwise the created scene replaces the running one, with or without the fade, and becomes current |
| Scenes.SwitchIdempotent | Classes/core/SceneManager.cpp:54-56 | switching again to the type just reached does nothing |
| Scenes.RegisterThenSwitch | Classes/core/SceneManager.cpp:43-86 | a registered creator that yields a scene is reached by switching to its type from any other type |
| Scenes.SwitchKeepsCreators | Classes/core/SceneManager.cpp:52-86 | a switch never changes the creators, and the current type afterwards is the old one or the requested one |

## Left out

- Rendering, animation playback and the camera are left out. This covers Sprite3D, Animate3D, the `runAction` effects of `playAnim`, the skybox, and camera follow and orbit. A clip is modelled only by its name and its duration.
- Jump landing through the jump clip's completion callback is left out. The callback is engine scheduling, so `Wukong.JumpLanded` is stated for the moment the callback runs.
- UI and audio are left out: UIManager, AudioManager, the menus and the HUD. Showing the death menu and starting a music track are returned as data.
- InputController key and mouse bindings and the camera controller are left out. The move intent and the button presses are inputs.
- `GameApp`, BaseScene spawn glue and `removeDeadEnemy` are left out. So is the commented-out block in Classes/enemy/EnemyStates.cpp:265-296.
- Reading the OBJ file from disk is left out. The reader takes the file contents, or nothing when the file is missing.
- Scene-graph transforms are left out: `getNodeToWorldTransform` and `WorldToParentSpace`. `AABB::transform` is a function parameter.
- Random numbers, trigonometry and facing angles are left out. The `rand() % 100` crit roll and the boss's weighted-pick draw are parameters. So are the enemy's idle and patrol timers and the patrol angle's cosine and sine.
- Floating-point width and IEEE behaviour are left out: rounding, infinities and NaN. All arithmetic is on exact reals.
- The square roots behind `length()`, `distance()` and `normalize()` are left out. They are passed-in lengths whose square is the squared length.
- Engine-scheduled actions are left out. These are the delayed removal of dead enemies and the 0.5 s delayed re-enable of an enemy's move and attack flags in its hurt callback. The `enemy_died` dispatcher event is left out too.
- Re-entrant calls are left out. A listener that registers or triggers events while `EventManager::update` is firing is not modelled. A state change requested inside another state's hook is queued as a request, not run in place.
- Memory ownership is left out: new/delete, retain/autorelease and `setAI` deletion.
- The fallbacks for owners that are not a `Wukong` are left out. These are the `dynamic_cast<Wukong*>` else-branches and their fixed durations. Every player state belongs to a `Wukong` here.
- `Character::triggerHurt` and `triggerDead`, `setMoveAxis`, and the clip-loading helpers `loadAnimIfNeeded` and `makeAnimate` are left out. They drive animation playback only.
- `Terrain.Init`: requires a present model's box to be ordered on x and z. An empty cocos box has min above max, and what the grid does with it depends on IEEE behaviour.
- `Terrain.BuildGrid`: requires a non-zero cell size for a non-empty triangle list. This always holds for triangles ordered on x and z, because the size is at least 0.1.
- `Terrain.RayIntersects`: requires the collider to be well indexed. `Terrain.Init` builds only such colliders.
- `Combat.Attack`, `Combat.SweepCustomSilent` and `Combat.MeleeOutcome` model a custom attack callback as a pure predicate on the target. The callback `setAttackCallback` installs is a `std::function` and may have side effects, such as damaging the target itself. Those effects are not modelled, so under a custom callback "the target is untouched" and "no slot reports a callback" hold by construction. No source file installs one (Classes/combat/CombatComponent.cpp:249-251 is never called), so the game only ever uses the built-in attack.
- `Boss.RatioAsWritten`: a zero second argument yields no ratio in place of the IEEE quotient. `resetEnemy` reaches the hook that way. There the source computes infinity or NaN, neither of which compares at most 0.5. The outcome is the same: the hook does not fire.
- `Obj.ReadLines`: a number is read as an optional sign, digits, an optional fraction and an optional exponent, and its value is exact. Stream extraction of `float` values is not modelled in three respects: hexadecimal forms, infinities, and values out of the `float` range. (`std::stoi`'s out-of-range failure is modelled: `Obj.Stoi` yields no value outside the 32-bit range.)

## Findings

| source | as written | input that shows it | evidently intended | confidence | as-written member | corrected member |
|---|---|---|---|---|---|---|
| Classes/enemy/Boss.cpp:58-63 with Classes/combat/HealthComponent.cpp:136 | the phase-2 hook computes its ratio as its first argument over its second. The health component passes the new and the previous health there, so the ratio is new over previous health | a boss at full health 100 takes two hits of 30. The hook sees 70/100 and then 40/70 ≈ 0.57 and never fires, so the once-only full heal is missed. Phase 2 still comes when the AI next thinks, because its own check uses current over maximum health (BossAI.cpp:87-91), but the boss enters it at 40 health instead of 100 | the ratio is current over maximum health: the boss heals to full and enters phase 2 on the first hit that leaves it alive at half its maximum or less | not executed | Boss.TakeDamageAsWritten, Boss.AsWrittenNeedsHalvingHit, Boss.HalfHealthMissedAsWritten, BossAI.AsWrittenPhaseTwoWithoutHeal | Boss.TakeDamage, Boss.HalfHealthHeals |
