/** The table-driven dispatch engine of fsm/FSM.py: `STATE`, `EVENT`, `FSM`, the `state`
    property and `handle`.

    Actions are opaque identifiers of type `A`. Calling one is delegated to a caller-supplied
    interpretation that threads a world value `W` and either returns an optional next event
    or raises an exception of type `E`. Calls to the observer hooks and to actions are
    recorded, in order, in a log. Because a chain of returned events need not end, `Handle`
    takes a bound on the number of lookups and reports running out of it separately. */
module Engine {
  import opened Base

  /** `EVENT`: the actions to run, in declared order, and the state to move to, if any. */
  datatype Event<A> = Event(name: string, actions: seq<A>, next: Option<string>)

  /** `STATE`: the optional enter and exit actions and the events by name. */
  datatype State<A> = State(name: string, enter: Option<A>, exit: Option<A>, events: map<string, Event<A>>)

  /** Which of the observer attributes `trace`, `on_state_change` and `undefined` are set. */
  datatype Hooks = Hooks(trace: bool, stateChange: bool, undefined: bool)

  const NoHooks := Hooks(false, false, false)

  /** `FSM`: the states by name, the current state (unset until first assigned), the hooks. */
  datatype Machine<A> = Machine(states: map<string, State<A>>, current: Option<string>, hooks: Hooks)

  /** What one call of an action did: returned a value (`None` or an event name) or raised. */
  datatype Outcome<W, E> = Returned(world: W, value: Option<string>) | Raised(world: W, error: E)

  /** One observable call during a dispatch: a hook, or an action that returned or raised. */
  datatype Entry<A> =
    | Trace(state: string, event: string, isDefault: bool, isInternal: bool)
    | Undefined(state: string, event: string, isDefault: bool, isInternal: bool)
    | StateChange(newState: string, oldState: string)
    | Call(action: A, returned: Option<string>)
    | Threw(action: A)

  /** How `handle` ended: returned True or False, let an exception through, or hit the bound. */
  datatype Status<E> = Done(handled: bool) | Failed(error: E) | OutOfFuel

  datatype Run<A, W, E> = Run(status: Status<E>, machine: Machine<A>, world: W, log: seq<Entry<A>>)

  /** The effect of running part of one matched event: `next` is the continuation so far. */
  datatype Step<A, W, E> = Step(machine: Machine<A>, world: W, log: seq<Entry<A>>, next: Option<string>, raised: Option<E>)

  /** The event name a state falls back to when it has no event of the requested name. */
  const DEFAULT := "default"

  /** Every state is stored under its own name, as `FSM.__init__` keys them. */
  ghost predicate Named<A>(states: map<string, State<A>>) {
    forall n :: n in states ==> states[n].name == n
  }

  /** Every `next_state` of every event is a state of the machine: in the source it is an
      object reference, so it cannot dangle. */
  ghost predicate Closed<A>(states: map<string, State<A>>) {
    forall n, e :: n in states && e in states[n].events && states[n].events[e].next.Some? ==>
      states[n].events[e].next.value in states
  }

  /** A machine `handle` can run on: named and closed, with its current state assigned. */
  ghost predicate WellFormed<A>(m: Machine<A>) {
    Named(m.states) && Closed(m.states) && m.current.Some? && m.current.value in m.states
  }

  function Current<A>(m: Machine<A>): State<A>
    requires m.current.Some? && m.current.value in m.states
  {
    m.states[m.current.value]
  }

  /** No later state in the list carries the name of the `i`-th. */
  ghost predicate LastOfName<A>(states: seq<State<A>>, i: nat)
    requires i < |states|
  {
    forall j :: i < j < |states| ==> states[j].name != states[i].name
  }

  /** `FSM(states)`: the states keyed by name, no current state, no hooks set. */
  function New<A>(states: seq<State<A>>): (m: Machine<A>)
    ensures m.current.None? && m.hooks == NoHooks
    ensures Named(m.states)
    ensures forall i :: 0 <= i < |states| ==> states[i].name in m.states
    ensures forall n :: n in m.states ==> m.states[n] in states
  {
    if states == [] then Machine(map[], None, NoHooks)
    else
      var init := New(states[..|states| - 1]);
      var s := states[|states| - 1];
      assert forall i :: 0 <= i < |states| - 1 ==> states[..|states| - 1][i] == states[i];
      init.(states := init.states[s.name := s])
  }

  /** A name given twice keeps the state that comes last, as the dict assignment in the loop
      of `FSM.__init__` does. */
  lemma {:induction false} NewKeepsLast<A>(states: seq<State<A>>, i: nat)
    requires i < |states| && LastOfName(states, i)
    ensures New(states).states[states[i].name] == states[i]
    decreases |states|
  {
    var front := states[..|states| - 1];
    if i < |front| {
      assert front[i] == states[i];
      assert states[|states| - 1].name != states[i].name;
      assert LastOfName(front, i) by {
        forall j | i < j < |front|
          ensures front[j].name != front[i].name
        {
          assert front[j] == states[j];
        }
      }
      NewKeepsLast(front, i);
    }
  }

  /** The `state` setter: `self.states[state]`, raising KeyError(name) for an undeclared name.
      Reading the `state` getter back gives the name that was set. */
  function SetState<A>(m: Machine<A>, name: string): (r: Result<Machine<A>, string>)
    requires Named(m.states)
    ensures r.Ok? <==> name in m.states
    ensures r.Err? ==> r.error == name
    ensures r.Ok? ==> r.value.states == m.states && r.value.hooks == m.hooks
    ensures r.Ok? ==> r.value.current.Some? && r.value.current.value in r.value.states && StateName(r.value) == name
  {
    if name in m.states then Ok(m.(current := Some(name))) else Err(name)
  }

  /** The `state` getter: the name of the current state. */
  function StateName<A>(m: Machine<A>): string
    requires m.current.Some? && m.current.value in m.states
  {
    Current(m).name
  }

  /** The truthiness test of `while event:`: `None` and the empty name stop the loop. */
  predicate Falsy(event: Option<string>) {
    event.None? || event.value == ""
  }

  /** The event handler `handle` uses: the exact name first, else the state's own `default`
      event; the flag says whether the fallback was taken. */
  function Lookup<A>(s: State<A>, event: string): (r: Option<(Event<A>, bool)>)
    ensures r.None? <==> event !in s.events && DEFAULT !in s.events
    ensures r.Some? ==> (r.value.1 <==> event !in s.events)
    ensures r.Some? ==> r.value.0 == s.events[if r.value.1 then DEFAULT else event]
  {
    if event in s.events then Some((s.events[event], false))
    else if DEFAULT in s.events then Some((s.events[DEFAULT], true))
    else None
  }

  /** Calls one action; its return value replaces the continuation. */
  function Invoke<A, W, E>(m: Machine<A>, w: W, a: A, interp: (A, W) -> Outcome<W, E>, next: Option<string>): Step<A, W, E> {
    match interp(a, w)
    case Raised(w', e) => Step(m, w', [Threw(a)], next, Some(e))
    case Returned(w', v) => Step(m, w', [Call(a, v)], v, None)
  }

  /** Calls an optional hook (`if self._state.exit: ...`). */
  function CallHook<A, W, E>(m: Machine<A>, w: W, hook: Option<A>, interp: (A, W) -> Outcome<W, E>, next: Option<string>): Step<A, W, E> {
    match hook
    case None => Step(m, w, [], next, None)
    case Some(a) => Invoke(m, w, a, interp, next)
  }

  /** `for action in event.actions: next_event = action()`, stopping at the first raise. */
  function RunActions<A, W, E>(m: Machine<A>, w: W, actions: seq<A>, interp: (A, W) -> Outcome<W, E>, next: Option<string>): (r: Step<A, W, E>)
    ensures r.machine == m
    ensures r.raised.Some? ==> |r.log| > 0 && r.log[|r.log| - 1].Threw?
    decreases |actions|
  {
    if actions == [] then Step(m, w, [], next, None)
    else
      var first := Invoke(m, w, actions[0], interp, next);
      if first.raised.Some? then first
      else
        var rest := RunActions(m, first.world, actions[1..], interp, first.next);
        rest.(log := first.log + rest.log)
  }

  function Opt<A>(o: Option<A>): seq<A> {
    if o.Some? then [o.value] else []
  }

  /** `_handle(event)`: the event's actions, then, when it names a next state, the old
      state's exit, the state-change hook, the switch and the new state's enter. The
      continuation is what the last of these calls returned. */
  function Fire<A, W, E>(m: Machine<A>, w: W, ev: Event<A>, interp: (A, W) -> Outcome<W, E>): (r: Step<A, W, E>)
    requires WellFormed(m)
    requires ev.next.Some? ==> ev.next.value in m.states
    ensures WellFormed(r.machine)
    ensures r.machine.states == m.states && r.machine.hooks == m.hooks
    ensures r.raised.Some? ==> |r.log| > 0 && r.log[|r.log| - 1].Threw?
  {
    var acts := RunActions(m, w, ev.actions, interp, None);
    if acts.raised.Some? || ev.next.None? then acts
    else
      var from := Current(m);
      var target := ev.next.value;
      var ex := CallHook(m, acts.world, from.exit, interp, acts.next);
      if ex.raised.Some? then ex.(log := acts.log + ex.log)
      else
        var change := if m.hooks.stateChange then [StateChange(m.states[target].name, from.name)] else [];
        var moved := m.(current := Some(target));
        var en := CallHook(moved, ex.world, m.states[target].enter, interp, ex.next);
        en.(log := acts.log + ex.log + change + en.log)
  }

  /** The trace entry of one lookup, present when the hook is set. */
  function TraceOf<A>(m: Machine<A>, event: string, isDefault: bool, internal: bool): seq<Entry<A>>
    requires m.current.Some? && m.current.value in m.states
  {
    if m.hooks.trace then [Trace(StateName(m), event, isDefault, internal)] else []
  }

  /** The undefined-event entry of a failed lookup, present when the hook is set. */
  function UndefinedOf<A>(m: Machine<A>, event: string, internal: bool): seq<Entry<A>>
    requires m.current.Some? && m.current.value in m.states
  {
    if m.hooks.undefined then [Undefined(StateName(m), event, false, internal)] else []
  }

  /** The `while event:` loop of `handle`, with `internal` the value of `is_internal` and
      `fuel` the number of lookups still allowed. */
  function Dispatch<A, W, E>(m: Machine<A>, w: W, event: Option<string>, internal: bool, interp: (A, W) -> Outcome<W, E>, fuel: nat): (r: Run<A, W, E>)
    requires WellFormed(m)
    ensures WellFormed(r.machine)
    ensures r.machine.states == m.states && r.machine.hooks == m.hooks
    ensures r.status.Failed? ==> |r.log| > 0 && r.log[|r.log| - 1].Threw?
    ensures r.status == Done(false) && m.hooks.undefined ==>
      |r.log| > 0 && r.log[|r.log| - 1].Undefined? && r.log[|r.log| - 1].state == StateName(r.machine)
    decreases fuel
  {
    if Falsy(event) then Run(Done(true), m, w, [])
    else if fuel == 0 then Run(OutOfFuel, m, w, [])
    else
      var found := Lookup(Current(m), event.value);
      var trace := TraceOf(m, event.value, found.Some? && found.value.1, internal);
      if found.None? then
        Run(Done(false), m, w, trace + UndefinedOf(m, event.value, internal))
      else
        var s := Fire(m, w, found.value.0, interp);
        if s.raised.Some? then Run(Failed(s.raised.value), s.machine, s.world, trace + s.log)
        else
          var rest := Dispatch(s.machine, s.world, s.next, true, interp, fuel - 1);
          rest.(log := trace + s.log + rest.log)
  }

  /** `handle(event)`: the caller's event is looked up with `is_internal` false. A falsy
      event returns True at once, with no call and no change. */
  function Handle<A, W, E>(m: Machine<A>, w: W, event: Option<string>, interp: (A, W) -> Outcome<W, E>, fuel: nat): (r: Run<A, W, E>)
    requires WellFormed(m)
    ensures WellFormed(r.machine)
    ensures r.machine.states == m.states && r.machine.hooks == m.hooks
    ensures Falsy(event) ==> r == Run(Done(true), m, w, [])
  {
    Dispatch(m, w, event, false, interp, fuel)
  }
}
