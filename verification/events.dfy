/** The event manager (`EventManager`): listeners registered per event
    name, fired in registration order, and a queue of delayed events that
    `update` advances, fires and removes. A listener is an opaque id and
    firing it is recorded as a `Call`; the `void*` payload is an opaque
    token. */
module Events {

  type Listener = nat
  type Payload = nat

  /** One listener invocation, in the order the manager makes them. */
  datatype Call = Call(listener: Listener, data: Payload)

  /** A queued `triggerEventDelayed` entry. */
  datatype Delayed = Delayed(name: string, delay: real, elapsed: real, data: Payload)

  datatype Manager = Manager(listeners: map<string, seq<Listener>>, pending: seq<Delayed>)

  /** A fresh manager: no listeners, nothing queued. */
  const Empty: Manager := Manager(map[], [])

  /** The listeners of `name`, in registration order (none when unknown). */
  function ListenersOf(m: Manager, name: string): (r: seq<Listener>)
    ensures name !in m.listeners ==> r == []
    ensures name in m.listeners ==> r == m.listeners[name]
  {
    if name in m.listeners then m.listeners[name] else []
  }

  /** `addEventListener`: appends to the name's list (creating it); every
      other name and the queue are untouched. */
  function AddListener(m: Manager, name: string, l: Listener): (r: Manager)
    ensures ListenersOf(r, name) == ListenersOf(m, name) + [l]
    ensures forall n :: n != name ==> ListenersOf(r, n) == ListenersOf(m, n)
    ensures r.listeners.Keys == m.listeners.Keys + {name}
    ensures r.pending == m.pending
  {
    Manager(m.listeners[name := ListenersOf(m, name) + [l]], m.pending)
  }

  /** `removeEventListener` is a placeholder: `std::function` values cannot
      be compared, so nothing is removed. */
  function RemoveListener(m: Manager, name: string, l: Listener): (r: Manager)
    ensures forall n :: ListenersOf(r, n) == ListenersOf(m, n)
    ensures r == m
  {
    m
  }

  /** `removeAllEventListeners(name)`: only that name loses its listeners. */
  function RemoveAll(m: Manager, name: string): (r: Manager)
    ensures ListenersOf(r, name) == []
    ensures forall n :: n != name ==> ListenersOf(r, n) == ListenersOf(m, n)
    ensures r.listeners.Keys == m.listeners.Keys - {name}
    ensures r.pending == m.pending
  {
    Manager(m.listeners - {name}, m.pending)
  }

  /** `removeAllEventListeners()`: every name loses its listeners; the
      queue stays. */
  function Clear(m: Manager): (r: Manager)
    ensures forall n :: ListenersOf(r, n) == []
    ensures r.pending == m.pending
  {
    Manager(map[], m.pending)
  }

  /** `triggerEvent`: each listener of the name is called once with the
      payload, in registration order; an unknown name calls nothing. */
  function Trigger(m: Manager, name: string, data: Payload): (r: seq<Call>)
    ensures |r| == |ListenersOf(m, name)|
    ensures forall i :: 0 <= i < |r| ==> r[i] == Call(ListenersOf(m, name)[i], data)
  {
    CallAll(ListenersOf(m, name), data)
  }

  function CallAll(ls: seq<Listener>, data: Payload): (r: seq<Call>)
    ensures |r| == |ls|
    ensures forall i :: 0 <= i < |r| ==> r[i] == Call(ls[i], data)
    decreases |ls|
  {
    if |ls| == 0 then [] else [Call(ls[0], data)] + CallAll(ls[1..], data)
  }

  /** Adding a listener makes it the last one a trigger of its name
      calls, after the earlier ones in their order. */
  lemma AddedListenerFiresLast(m: Manager, name: string, l: Listener, data: Payload)
    ensures Trigger(AddListener(m, name, l), name, data) == Trigger(m, name, data) + [Call(l, data)]
  {
    var a := Trigger(AddListener(m, name, l), name, data);
    var b := Trigger(m, name, data) + [Call(l, data)];
    assert |a| == |b|;
    forall i | 0 <= i < |a| ensures a[i] == b[i] {
      if i < |Trigger(m, name, data)| {
        assert ListenersOf(AddListener(m, name, l), name)[i] == ListenersOf(m, name)[i];
      }
    }
  }

  /** `triggerEventDelayed`: appends the event with nothing elapsed. */
  function TriggerDelayed(m: Manager, name: string, delay: real, data: Payload): (r: Manager)
    ensures r.pending == m.pending + [Delayed(name, delay, 0.0, data)]
    ensures r.listeners == m.listeners
  {
    Manager(m.listeners, m.pending + [Delayed(name, delay, 0.0, data)])
  }

  /** A queued event once `dt` more has elapsed. */
  function Bump(e: Delayed, dt: real): (r: Delayed)
    ensures r.elapsed == e.elapsed + dt
    ensures r.name == e.name && r.delay == e.delay && r.data == e.data
  {
    e.(elapsed := e.elapsed + dt)
  }

  predicate Due(e: Delayed)
  {
    e.elapsed >= e.delay
  }

  /** The queue pass of `update`: every entry gains `dt`; the due ones are
      fired (in queue order) and erased, the others kept (in queue order).
      Returns (kept, fired). */
  function Sweep(q: seq<Delayed>, dt: real): (r: (seq<Delayed>, seq<Delayed>))
    ensures forall e :: e in r.0 ==> !Due(e)
    ensures forall e :: e in r.1 ==> Due(e)
    decreases |q|
  {
    if |q| == 0 then ([], [])
    else
      var e := Bump(q[0], dt);
      var rest := Sweep(q[1..], dt);
      if Due(e) then (rest.0, [e] + rest.1) else ([e] + rest.0, rest.1)
  }

  /** The sweep loses and invents nothing: kept and fired together are
      exactly the queue with `dt` added to each entry. */
  lemma {:induction false} SweepPartitions(q: seq<Delayed>, dt: real)
    ensures multiset(Sweep(q, dt).0) + multiset(Sweep(q, dt).1) == multiset(BumpAll(q, dt))
    decreases |q|
  {
    if |q| > 0 {
      SweepPartitions(q[1..], dt);
      assert BumpAll(q, dt) == [Bump(q[0], dt)] + BumpAll(q[1..], dt);
    }
  }

  function BumpAll(q: seq<Delayed>, dt: real): (r: seq<Delayed>)
    ensures |r| == |q|
    ensures forall i :: 0 <= i < |q| ==> r[i] == Bump(q[i], dt)
    decreases |q|
  {
    if |q| == 0 then [] else [Bump(q[0], dt)] + BumpAll(q[1..], dt)
  }

  /** The listener calls of the fired events, event by event. */
  function FireAll(m: Manager, fired: seq<Delayed>): (r: seq<Call>)
    decreases |fired|
  {
    if |fired| == 0 then []
    else Trigger(m, fired[0].name, fired[0].data) + FireAll(m, fired[1..])
  }

  /** `update`: sweeps the queue; the listeners called are those of the
      fired events, in queue order. */
  function Update(m: Manager, dt: real): (r: (Manager, seq<Call>))
    ensures r.0.listeners == m.listeners
    ensures r.0.pending == Sweep(m.pending, dt).0
    ensures r.1 == FireAll(m, Sweep(m.pending, dt).1)
    ensures forall e :: e in r.0.pending ==> e.elapsed < e.delay
  {
    var s := Sweep(m.pending, dt);
    (Manager(m.listeners, s.0), FireAll(m, s.1))
  }

  /** The sweep works entry by entry: sweeping a queue in two parts and
      concatenating gives the sweep of the whole, so the kept entries and
      the fired ones both keep their queue order. */
  lemma {:induction false} SweepSplits(a: seq<Delayed>, b: seq<Delayed>, dt: real)
    ensures Sweep(a + b, dt).0 == Sweep(a, dt).0 + Sweep(b, dt).0
    ensures Sweep(a + b, dt).1 == Sweep(a, dt).1 + Sweep(b, dt).1
    decreases |a|
  {
    if |a| > 0 {
      assert (a + b)[1..] == a[1..] + b;
      assert (a + b)[0] == a[0];
      SweepSplits(a[1..], b, dt);
      var e := Bump(a[0], dt);
      var ra := Sweep(a[1..], dt);
      if Due(e) {
        assert Sweep(a, dt) == (ra.0, [e] + ra.1);
      } else {
        assert Sweep(a, dt) == ([e] + ra.0, ra.1);
      }
    } else {
      assert a + b == b;
    }
  }

  lemma {:induction false} FireAllSplits(m: Manager, a: seq<Delayed>, b: seq<Delayed>)
    ensures FireAll(m, a + b) == FireAll(m, a) + FireAll(m, b)
    decreases |a|
  {
    if |a| > 0 {
      assert (a + b)[1..] == a[1..] + b;
      assert (a + b)[0] == a[0];
      FireAllSplits(m, a[1..], b);
    } else {
      assert a + b == b;
    }
  }

  /** Firing reads only the listener table, not the queue. */
  lemma {:induction false} FireAllReadsListeners(m1: Manager, m2: Manager, fired: seq<Delayed>)
    requires m1.listeners == m2.listeners
    ensures FireAll(m1, fired) == FireAll(m2, fired)
    decreases |fired|
  {
    if |fired| > 0 {
      assert ListenersOf(m1, fired[0].name) == ListenersOf(m2, fired[0].name);
      FireAllReadsListeners(m1, m2, fired[1..]);
    }
  }

  /** An entry is fired by a sweep exactly when it is due once `dt` is
      added; otherwise it is kept, with `dt` added. */
  lemma SweepOne(e: Delayed, dt: real)
    ensures Due(Bump(e, dt)) ==> Sweep([e], dt) == ([], [Bump(e, dt)])
    ensures !Due(Bump(e, dt)) ==> Sweep([e], dt) == ([Bump(e, dt)], [])
  {
    var q := [e];
    assert q[0] == e && q[1..] == [];
    var rest := Sweep(q[1..], dt);
    assert rest.0 == [] && rest.1 == [];
    var b := Bump(e, dt);
    assert [b] + rest.1 == [b] && [b] + rest.0 == [b];
    if Due(b) {
      assert Sweep(q, dt) == (rest.0, [b] + rest.1);
      assert Sweep(q, dt).0 == [] && Sweep(q, dt).1 == [b];
    } else {
      assert Sweep(q, dt) == ([b] + rest.0, rest.1);
      assert Sweep(q, dt).0 == [b] && Sweep(q, dt).1 == [];
    }
  }

  /** A delayed event whose delay is at most zero fires on the very next
      `update` for any dt ≥ 0: its listeners are called last, after those
      of the events that were queued before it and are due. */
  lemma NonPositiveDelayFiresNext(m: Manager, name: string, delay: real, data: Payload, dt: real)
    requires delay <= 0.0 && dt >= 0.0
    ensures var r := Update(TriggerDelayed(m, name, delay, data), dt);
            r.0.pending == Sweep(m.pending, dt).0 &&
            r.1 == Update(m, dt).1 + Trigger(m, name, data)
  {
    var e := Delayed(name, delay, 0.0, data);
    SweepSplits(m.pending, [e], dt);
    SweepOne(e, dt);
    assert Sweep(m.pending + [e], dt).1 == Sweep(m.pending, dt).1 + [Bump(e, dt)];
    FireAllSplits(m, Sweep(m.pending, dt).1, [Bump(e, dt)]);
    FireAllReadsListeners(m, TriggerDelayed(m, name, delay, data), Sweep(m.pending + [e], dt).1);
    assert FireAll(m, [Bump(e, dt)]) == Trigger(m, name, data) + FireAll(m, []);
  }

  /** A positive delay is not due on an update that leaves the elapsed
      time below it: the event stays queued, at the end, with the time
      added, and calls nothing. */
  lemma PositiveDelayWaits(m: Manager, name: string, delay: real, data: Payload, dt: real)
    requires dt < delay
    ensures var r := Update(TriggerDelayed(m, name, delay, data), dt);
            r.0.pending == Sweep(m.pending, dt).0 + [Delayed(name, delay, dt, data)] &&
            r.1 == Update(m, dt).1
  {
    var e := Delayed(name, delay, 0.0, data);
    SweepSplits(m.pending, [e], dt);
    SweepOne(e, dt);
    assert Sweep(m.pending + [e], dt).1 == Sweep(m.pending, dt).1 + [];
    assert Sweep(m.pending, dt).1 + [] == Sweep(m.pending, dt).1;
    FireAllReadsListeners(m, TriggerDelayed(m, name, delay, data), Sweep(m.pending, dt).1);
  }
}
