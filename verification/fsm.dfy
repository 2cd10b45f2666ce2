/** The generic state machine every actor owns (`StateMachine<T>`).
    States are identified by the object they are (a `StateRef` with its
    own identity) and registered under the name they report. The hook
    calls a change makes on the states are returned as a list, in order. */
module Fsm {
  import opened Base

  /** A state object: `id` stands for its address, `name` for what
      `getStateName()` reports. */
  datatype StateRef = StateRef(id: nat, name: string)

  /** A call into a state's hooks. */
  datatype Hook = OnEnter(state: StateRef) | OnExit(state: StateRef) | OnUpdate(state: StateRef, dt: real)

  datatype Machine = Machine(current: Option<StateRef>, previous: Option<StateRef>, states: map<string, StateRef>)

  /** The machine after an operation and the hooks it ran. */
  datatype Step = Step(machine: Machine, hooks: seq<Hook>)

  /** A freshly constructed machine: no current, no previous, nothing registered. */
  const Fresh: Machine := Machine(None, None, map[])

  /** A machine that has a previous state also has a current one. */
  predicate Coherent(m: Machine)
  {
    m.previous.Some? ==> m.current.Some?
  }

  /** `init`: the initial state becomes current and is entered; there is
      no exit and the previous state is left alone. */
  function Init(m: Machine, s: Option<StateRef>): (r: Step)
    ensures r.machine.current == s
    ensures r.machine.previous == m.previous && r.machine.states == m.states
    ensures s.None? ==> r.hooks == []
    ensures s.Some? ==> r.hooks == [OnEnter(s.value)]
  {
    Step(m.(current := s), if s.Some? then [OnEnter(s.value)] else [])
  }

  /** `update`: forwards the frame to the current state only. */
  function Update(m: Machine, dt: real): (r: seq<Hook>)
    ensures |r| <= 1
    ensures r != [] <==> m.current.Some?
    ensures forall h :: h in r ==> h == OnUpdate(m.current.value, dt)
  {
    if m.current.Some? then [OnUpdate(m.current.value, dt)] else []
  }

  /** `registerState`: keyed by the state's own name, later registrations
      replace earlier ones, a null state is ignored. */
  function Register(m: Machine, s: Option<StateRef>): (r: Machine)
    ensures r.current == m.current && r.previous == m.previous
    ensures s.None? ==> r == m
    ensures s.Some? ==> s.value.name in r.states && r.states[s.value.name] == s.value
    ensures s.Some? ==> r.states.Keys == m.states.Keys + {s.value.name}
    ensures forall n :: n in m.states && (s.None? || n != s.value.name) ==> n in r.states && r.states[n] == m.states[n]
  {
    if s.Some? then m.(states := m.states[s.value.name := s.value]) else m
  }

  /** The names carried by a list of states. */
  function Names(refs: seq<StateRef>): set<string>
    decreases |refs|
  {
    if |refs| == 0 then {} else Names(refs[..|refs| - 1]) + {refs[|refs| - 1].name}
  }

  /** Several `registerState` calls in order (an owner registering its
      whole state set): every name ends up registered, under the last
      state that carries it, and names not in the list keep their state. */
  function RegisterAll(m: Machine, refs: seq<StateRef>): (r: Machine)
    ensures r.current == m.current && r.previous == m.previous
    ensures r.states.Keys == m.states.Keys + Names(refs)
    ensures forall i :: 0 <= i < |refs| ==> refs[i].name in r.states
    ensures forall i :: 0 <= i < |refs| && (forall j :: i < j < |refs| ==> refs[j].name != refs[i].name) ==>
              r.states[refs[i].name] == refs[i]
    ensures forall n :: n in m.states && n !in Names(refs) ==> r.states[n] == m.states[n]
    decreases |refs|
  {
    NamesListed(refs);
    if |refs| == 0 then m
    else Register(RegisterAll(m, refs[..|refs| - 1]), Some(refs[|refs| - 1]))
  }

  lemma {:induction false} NamesListed(refs: seq<StateRef>)
    ensures forall i :: 0 <= i < |refs| ==> refs[i].name in Names(refs)
    decreases |refs|
  {
    if |refs| > 0 {
      var front := refs[..|refs| - 1];
      NamesListed(front);
      assert forall i :: 0 <= i < |front| ==> front[i] == refs[i];
    }
  }

  /** `changeState(BaseState*)`. */
  function ChangeTo(m: Machine, s: Option<StateRef>): (r: Step)
    ensures r.machine.states == m.states
    ensures s.None? || s == m.current ==> r == Step(m, [])
    ensures s.Some? && s != m.current ==>
              r.machine.current == s &&
              r.machine.previous == (if m.current.Some? then m.current else m.previous) &&
              r.hooks == (if m.current.Some? then [OnExit(m.current.value)] else []) + [OnEnter(s.value)]
  {
    if s.None? || s == m.current then Step(m, [])
    else
      var prev := if m.current.Some? then m.current else m.previous;
      var exits := if m.current.Some? then [OnExit(m.current.value)] else [];
      Step(Machine(s, prev, m.states), exits + [OnEnter(s.value)])
  }

  /** `changeState(name)`: only registered names lead anywhere. */
  function ChangeByName(m: Machine, name: string): (r: Step)
    ensures name !in m.states ==> r == Step(m, [])
    ensures name in m.states ==> r == ChangeTo(m, Some(m.states[name]))
  {
    if name in m.states then ChangeTo(m, Some(m.states[name])) else Step(m, [])
  }

  /** `revertToPreviousState`. */
  function Revert(m: Machine): (r: Step)
    ensures m.previous.None? ==> r == Step(m, [])
    ensures m.previous.Some? ==> r == ChangeTo(m, m.previous)
  {
    if m.previous.Some? then ChangeTo(m, m.previous) else Step(m, [])
  }

  /** `isInState(name)`: never without a current state. */
  function IsInState(m: Machine, name: string): (r: bool)
    ensures m.current.None? ==> !r
  {
    m.current.Some? && m.current.value.name == name
  }

  /** Names requested by a state's update, applied in order: each request
      goes through `changeState(name)`. */
  function ChangeAll(m: Machine, names: seq<string>): (r: Step)
    ensures r.machine.states == m.states
    ensures |names| == 0 ==> r == Step(m, [])
    decreases |names|
  {
    if |names| == 0 then Step(m, [])
    else
      var first := ChangeByName(m, names[0]);
      var rest := ChangeAll(first.machine, names[1..]);
      Step(rest.machine, first.hooks + rest.hooks)
  }

  // ---------------------------------------------------------------------
  // Properties relating the operations

  /** A transition that happens exits the old state before entering the new
      one, and the entered state is the current one afterwards. */
  lemma TransitionOrder(m: Machine, s: StateRef)
    requires m.current.Some? && m.current.value != s
    ensures var r := ChangeTo(m, Some(s));
            r.hooks == [OnExit(m.current.value), OnEnter(s)] &&
            r.machine.previous == m.current && IsInState(r.machine, s.name)
  {
  }

  /** A machine is in at most one state at a time, and after a change to
      a state it is in exactly that state, whether or not a transition
      happened. */
  lemma OneStateAtATime(m: Machine, a: string, b: string, s: StateRef)
    ensures IsInState(m, a) && IsInState(m, b) ==> a == b
    ensures IsInState(ChangeTo(m, Some(s)).machine, a) <==> a == s.name
  {
  }

  /** With no current state a transition only enters. */
  lemma TransitionFromNothing(m: Machine, s: StateRef)
    requires m.current.None?
    ensures var r := ChangeTo(m, Some(s));
            r.hooks == [OnEnter(s)] && r.machine.previous == m.previous && r.machine.current == Some(s)
  {
  }

  /** Every operation keeps a coherent machine coherent (`init` only with a
      non-null state). */
  lemma CoherencePreserved(m: Machine, s: Option<StateRef>, name: string)
    requires Coherent(m)
    ensures Coherent(Register(m, s))
    ensures Coherent(ChangeTo(m, s).machine)
    ensures Coherent(ChangeByName(m, name).machine)
    ensures Coherent(Revert(m).machine)
    ensures s.Some? ==> Coherent(Init(m, s).machine)
  {
  }

  /** Revert swaps current and previous when they differ, running the
      current state's exit and the previous state's enter. */
  lemma RevertSwaps(m: Machine)
    requires Coherent(m) && m.previous.Some? && m.previous != m.current
    ensures Revert(m).machine == Machine(m.previous, m.current, m.states)
    ensures Revert(m).hooks == [OnExit(m.current.value), OnEnter(m.previous.value)]
  {
  }

  /** Changing away from a state and reverting comes back to it: the
      machine ends with the original current state and the visited state
      as previous. */
  lemma ChangeThenRevert(m: Machine, s: StateRef)
    requires m.current.Some? && m.current != Some(s)
    ensures var back := Revert(ChangeTo(m, Some(s)).machine);
            back.machine == Machine(m.current, Some(s), m.states) &&
            back.hooks == [OnExit(s), OnEnter(m.current.value)]
  {
  }

  /** Registering a state makes its name reachable: changing to that name
      afterwards enters exactly that state (unless it is already current). */
  lemma RegisterThenChange(m: Machine, s: StateRef)
    requires Some(s) != m.current
    ensures var r := ChangeByName(Register(m, Some(s)), s.name);
            r.machine.current == Some(s) && r.hooks[|r.hooks| - 1] == OnEnter(s)
  {
  }

  /** After a request sequence the machine is in the state registered under
      the last registered name requested, or untouched when no requested
      name was registered. */
  lemma {:induction false} ChangeAllLastWins(m: Machine, names: seq<string>)
    ensures var r := ChangeAll(m, names);
            (forall i :: 0 <= i < |names| ==> names[i] !in m.states) ==> r.machine == m
    ensures var r := ChangeAll(m, names);
            |names| > 0 && names[|names| - 1] in m.states ==>
              r.machine.current == Some(m.states[names[|names| - 1]])
    decreases |names|
  {
    if |names| > 0 {
      var first := ChangeByName(m, names[0]);
      ChangeAllLastWins(first.machine, names[1..]);
      if |names| > 1 {
        assert names[1..][|names[1..]| - 1] == names[|names| - 1];
      }
    }
  }
}
