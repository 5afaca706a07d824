/** `Parser.build` of fsm/parser.py: the parsed description turned into a runtime machine of
    the engine, every action name replaced by the callable bound to it. The first pass builds
    one state per parsed state and one event per parsed event, in declaration order; the
    second resolves every next-state name against the states built, so a description may
    refer to a state declared further down. Callables are values of a type `F`. */
module Builder {
  import opened Base
  import opened Dicts
  import opened Engine
  import opened Directives

  /** The exceptions `build` lets through: a KeyError on the callables, a KeyError on the
      built states, a KeyError from assigning the first state, and the TypeError of an
      unexpected keyword argument. */
  datatype BuildError =
    | MissingAction(name: string)
    | MissingState(name: string)
    | UnknownStart(first: Option<string>)
    | UnexpectedKeyword(keyword: string)

  /** The shape of a parsed context `build` relies on: dictionaries whose records are stored
      under their own names. */
  ghost predicate Shaped(c: Context) {
    && Dicts.Valid(c.states)
    && forall n :: n in c.states.items ==>
         && c.states.items[n].name == n
         && Dicts.Valid(c.states.items[n].events)
         && forall e :: e in c.states.items[n].events.items ==> c.states.items[n].events.items[e].name == e
  }

  lemma ValidIsShaped(c: Context)
    requires Directives.Valid(c)
    ensures Shaped(c)
  {
    forall n | n in c.states.items
      ensures StateValid(n, c.states.items[n])
    {
    }
  }

  predicate AllBound<F>(names: seq<string>, actions: map<string, F>) {
    forall i :: 0 <= i < |names| ==> names[i] in actions
  }

  /** A hook is bound when it is unset, empty, or named after a callable. */
  predicate HookBound<F>(h: Option<string>, actions: map<string, F>) {
    Truthy(h) ==> h.value in actions
  }

  /** Every action name the state refers to has a callable. */
  predicate StateBound<F>(s: PState, actions: map<string, F>) {
    && HookBound(s.enter, actions)
    && HookBound(s.exit, actions)
    && forall e :: e in s.events.items ==> AllBound(s.events.items[e].actions, actions)
  }

  ghost predicate Bound<F>(c: Context, actions: map<string, F>) {
    forall n :: n in c.states.items ==> StateBound(c.states.items[n], actions)
  }

  /** Every non-empty next-state name of every event names a declared state. */
  ghost predicate Targeted(c: Context) {
    forall n, e :: n in c.states.items && e in c.states.items[n].events.items && Truthy(c.states.items[n].events.items[e].next) ==>
      c.states.items[n].events.items[e].next.value in c.states.items
  }

  /** A state is bound exactly when every name it refers to is. */
  lemma StateBoundIsRefs<F>(s: PState, actions: map<string, F>)
    ensures StateBound(s, actions) <==> Refs(s) <= actions.Keys
  {
    if Refs(s) <= actions.Keys {
      forall e | e in s.events.items
        ensures AllBound(s.events.items[e].actions, actions)
      {
        forall i | 0 <= i < |s.events.items[e].actions|
          ensures s.events.items[e].actions[i] in actions
        {
          var a := s.events.items[e].actions[i];
          assert e in s.events.items && a in s.events.items[e].actions;
          assert a in Refs(s);
        }
      }
    }
  }

  /** The next state a runtime event keeps: an empty name is left unresolved, and the engine
      tests it as false, so it moves nowhere, like an unset one. */
  function Resolved(next: Option<string>): Option<string> {
    if Truthy(next) then next else None
  }

  /** The runtime event made of a parsed one: the callables in the listed order. */
  function BuiltEvent<F>(ev: PEvent, actions: map<string, F>): Event<F>
    requires AllBound(ev.actions, actions)
  {
    Event(ev.name, seq(|ev.actions|, i requires 0 <= i < |ev.actions| => actions[ev.actions[i]]), Resolved(ev.next))
  }

  /** The runtime state made of a parsed one. */
  function BuiltState<F>(s: PState, actions: map<string, F>): State<F>
    requires StateBound(s, actions)
  {
    State(
      s.name,
      if Truthy(s.enter) then Some(actions[s.enter.value]) else None,
      if Truthy(s.exit) then Some(actions[s.exit.value]) else None,
      map e | e in s.events.items :: BuiltEvent(s.events.items[e], actions))
  }

  /** `[actions[n] for n in names]`: the first unbound name fails. */
  function BindNames<F>(names: seq<string>, actions: map<string, F>): (r: Result<seq<F>, BuildError>)
    ensures r.Ok? <==> AllBound(names, actions)
    ensures r.Ok? ==> |r.value| == |names| && forall i :: 0 <= i < |names| ==> r.value[i] == actions[names[i]]
    ensures r.Err? ==>
      exists i :: 0 <= i < |names| && r.error == MissingAction(names[i]) && names[i] !in actions && AllBound(names[..i], actions)
  {
    if names == [] then Ok([])
    else if names[0] !in actions then
      assert AllBound(names[..0], actions);
      Err(MissingAction(names[0]))
    else
      match BindNames(names[1..], actions)
      case Err(e) =>
        assert exists i :: 1 <= i < |names| && e == MissingAction(names[i]) && names[i] !in actions && AllBound(names[..i], actions) by {
          var i :| 0 <= i < |names[1..]| && e == MissingAction(names[1..][i]) && names[1..][i] !in actions && AllBound(names[1..][..i], actions);
          assert names[..i + 1] == [names[0]] + names[1..][..i];
        }
        Err(e)
      case Ok(rest) => Ok([actions[names[0]]] + rest)
  }

  /** `actions[h] if h else None`. */
  function BindHook<F>(h: Option<string>, actions: map<string, F>): (r: Result<Option<F>, BuildError>)
    ensures r.Ok? <==> HookBound(h, actions)
    ensures r.Ok? ==> r.value.Some? == Truthy(h) && (Truthy(h) ==> r.value.value == actions[h.value])
    ensures r.Err? ==> Truthy(h) && r.error == MissingAction(h.value) && h.value !in actions
  {
    if !Truthy(h) then Ok(None)
    else if h.value in actions then Ok(Some(actions[h.value]))
    else Err(MissingAction(h.value))
  }

  /** The events of a state from the `j`-th on, in declaration order, each stored under its
      name; the first unbound action name fails. */
  function BindEvents<F>(s: PState, j: nat, actions: map<string, F>): Result<map<string, Event<F>>, BuildError>
    requires Dicts.Valid(s.events) && j <= |s.events.keys|
    decreases |s.events.keys| - j
  {
    if j == |s.events.keys| then Ok(map[])
    else
      var ev := s.events.items[s.events.keys[j]];
      match BindNames(ev.actions, actions)
      case Err(e) => Err(e)
      case Ok(fs) =>
        match BindEvents(s, j + 1, actions)
        case Err(e) => Err(e)
        case Ok(rest) => Ok(rest[ev.name := Event(ev.name, fs, Resolved(ev.next))])
  }

  /** The events from the `j`-th on bind exactly when all their action names are bound. */
  predicate EventsBoundFrom<F>(s: PState, j: nat, actions: map<string, F>)
    requires Dicts.Valid(s.events) && j <= |s.events.keys|
  {
    forall k :: j <= k < |s.events.keys| ==> AllBound(s.events.items[s.events.keys[k]].actions, actions)
  }

  lemma {:induction false} BindEventsOk<F>(s: PState, j: nat, actions: map<string, F>)
    requires Dicts.Valid(s.events) && j <= |s.events.keys|
    ensures BindEvents(s, j, actions).Ok? <==> EventsBoundFrom(s, j, actions)
    ensures BindEvents(s, j, actions).Err? ==>
      var err := BindEvents(s, j, actions).error;
      && err.MissingAction? && err.name !in actions
      && exists k :: j <= k < |s.events.keys| && err.name in s.events.items[s.events.keys[k]].actions
    decreases |s.events.keys| - j
  {
    if j < |s.events.keys| {
      BindEventsOk(s, j + 1, actions);
      var ev := s.events.items[s.events.keys[j]];
      var b := BindNames(ev.actions, actions);
      if b.Err? {
        var i :| 0 <= i < |ev.actions| && b.error == MissingAction(ev.actions[i]) && ev.actions[i] !in actions && AllBound(ev.actions[..i], actions);
        assert ev.actions[i] in ev.actions;
      }
    }
  }

  /** One step of a successful binding: the rest bound, and the `j`-th event added. */
  lemma BindEventsStep<F>(s: PState, j: nat, actions: map<string, F>)
    requires Dicts.Valid(s.events) && j < |s.events.keys|
    requires forall e :: e in s.events.items ==> s.events.items[e].name == e
    requires BindEvents(s, j, actions).Ok?
    ensures var key := s.events.keys[j];
      && AllBound(s.events.items[key].actions, actions)
      && BindEvents(s, j + 1, actions).Ok?
      && BindEvents(s, j, actions).value
         == BindEvents(s, j + 1, actions).value[key := BuiltEvent(s.events.items[key], actions)]
  {
    var key := s.events.keys[j];
    var ev := s.events.items[key];
    var fs := BindNames(ev.actions, actions).value;
    assert fs == BuiltEvent(ev, actions).actions;
  }

  /** A successful binding holds one event per declared event from the `j`-th on. */
  lemma {:induction false} BindEventsKeys<F>(s: PState, j: nat, actions: map<string, F>)
    requires Dicts.Valid(s.events) && j <= |s.events.keys|
    requires forall e :: e in s.events.items ==> s.events.items[e].name == e
    requires BindEvents(s, j, actions).Ok?
    ensures forall e :: e in BindEvents(s, j, actions).value <==> e in s.events.keys[j..]
    decreases |s.events.keys| - j
  {
    if j < |s.events.keys| {
      BindEventsStep(s, j, actions);
      BindEventsKeys(s, j + 1, actions);
      assert s.events.keys[j..] == [s.events.keys[j]] + s.events.keys[j + 1..];
    }
  }

  /** Each event of a successful binding is the built form of the declared event. */
  lemma {:induction false} BindEventsEntries<F>(s: PState, j: nat, actions: map<string, F>)
    requires Dicts.Valid(s.events) && j <= |s.events.keys|
    requires forall e :: e in s.events.items ==> s.events.items[e].name == e
    requires BindEvents(s, j, actions).Ok?
    ensures var m := BindEvents(s, j, actions).value;
      forall e :: e in m ==> e in s.events.items && AllBound(s.events.items[e].actions, actions) && m[e] == BuiltEvent(s.events.items[e], actions)
    decreases |s.events.keys| - j
  {
    if j < |s.events.keys| {
      BindEventsStep(s, j, actions);
      BindEventsEntries(s, j + 1, actions);
    }
  }

  /** One parsed state made into a runtime state: its enter action, its exit action, then its
      events in declaration order. */
  function BindState<F>(s: PState, actions: map<string, F>): Result<State<F>, BuildError>
    requires Dicts.Valid(s.events)
  {
    match BindHook(s.enter, actions)
    case Err(e) => Err(e)
    case Ok(en) =>
      match BindHook(s.exit, actions)
      case Err(e) => Err(e)
      case Ok(ex) =>
        match BindEvents(s, 0, actions)
        case Err(e) => Err(e)
        case Ok(events) => Ok(State(s.name, en, ex, events))
  }

  lemma EventsBoundAll<F>(s: PState, actions: map<string, F>)
    requires Dicts.Valid(s.events)
    ensures EventsBoundFrom(s, 0, actions) <==> forall e :: e in s.events.items ==> AllBound(s.events.items[e].actions, actions)
  {
    if EventsBoundFrom(s, 0, actions) {
      forall e | e in s.events.items
        ensures AllBound(s.events.items[e].actions, actions)
      {
        var k :| 0 <= k < |s.events.keys| && s.events.keys[k] == e;
      }
    }
  }

  /** A state binds exactly when every name it refers to is bound; otherwise the name
      reported is one it refers to that has no callable. */
  lemma BindStateOk<F>(s: PState, actions: map<string, F>)
    requires Dicts.Valid(s.events)
    ensures BindState(s, actions).Ok? <==> StateBound(s, actions)
    ensures BindState(s, actions).Err? ==>
      var err := BindState(s, actions).error;
      err.MissingAction? && err.name in Refs(s) && err.name !in actions
  {
    BindEventsOk(s, 0, actions);
    EventsBoundAll(s, actions);
    var r := BindState(s, actions);
    if r.Err? && HookBound(s.enter, actions) && HookBound(s.exit, actions) {
      var err := r.error;
      var k :| 0 <= k < |s.events.keys| && err.name in s.events.items[s.events.keys[k]].actions;
      var e := s.events.keys[k];
      assert e in s.events.items && err.name in s.events.items[e].actions;
    }
  }

  /** A state that binds is the built state. */
  lemma BindStateValue<F>(s: PState, actions: map<string, F>)
    requires Dicts.Valid(s.events)
    requires forall e :: e in s.events.items ==> s.events.items[e].name == e
    requires BindState(s, actions).Ok?
    ensures StateBound(s, actions) && BindState(s, actions).value == BuiltState(s, actions)
  {
    BindStateOk(s, actions);
    BindEventsKeys(s, 0, actions);
    BindEventsEntries(s, 0, actions);
    assert s.events.keys[0..] == s.events.keys;
    var m := BindEvents(s, 0, actions).value;
    assert m == BuiltState(s, actions).events;
  }

  /** The declared states from the `i`-th on, in declaration order. */
  function BindStates<F>(c: Context, i: nat, actions: map<string, F>): Result<seq<State<F>>, BuildError>
    requires Shaped(c) && i <= |c.states.keys|
    decreases |c.states.keys| - i
  {
    if i == |c.states.keys| then Ok([])
    else
      match BindState(c.states.items[c.states.keys[i]], actions)
      case Err(e) => Err(e)
      case Ok(st) =>
        match BindStates(c, i + 1, actions)
        case Err(e) => Err(e)
        case Ok(rest) => Ok([st] + rest)
  }

  lemma {:induction false} BindStatesOk<F>(c: Context, i: nat, actions: map<string, F>)
    requires Shaped(c) && i <= |c.states.keys|
    ensures BindStates(c, i, actions).Ok? <==>
      forall k :: i <= k < |c.states.keys| ==> StateBound(c.states.items[c.states.keys[k]], actions)
    ensures BindStates(c, i, actions).Err? ==>
      var err := BindStates(c, i, actions).error;
      && err.MissingAction? && err.name !in actions
      && exists n :: n in c.states.items && err.name in Refs(c.states.items[n])
    decreases |c.states.keys| - i
  {
    if i < |c.states.keys| {
      BindStateOk(c.states.items[c.states.keys[i]], actions);
      BindStatesOk(c, i + 1, actions);
    }
  }

  lemma {:induction false} BindStatesLength<F>(c: Context, i: nat, actions: map<string, F>)
    requires Shaped(c) && i <= |c.states.keys|
    requires BindStates(c, i, actions).Ok?
    ensures |BindStates(c, i, actions).value| == |c.states.keys| - i
    decreases |c.states.keys| - i
  {
    if i < |c.states.keys| {
      BindStatesLength(c, i + 1, actions);
    }
  }

  /** The state built at a position is the built form of the state declared there. */
  lemma {:induction false} BindStatesAt<F>(c: Context, i: nat, actions: map<string, F>, k: nat)
    requires Shaped(c) && i <= k < |c.states.keys|
    requires BindStates(c, i, actions).Ok?
    ensures |BindStates(c, i, actions).value| == |c.states.keys| - i
    ensures StateBound(c.states.items[c.states.keys[k]], actions)
    ensures BindStates(c, i, actions).value[k - i] == BuiltState(c.states.items[c.states.keys[k]], actions)
    decreases |c.states.keys| - i
  {
    BindStatesLength(c, i, actions);
    var st := c.states.items[c.states.keys[i]];
    BindStateValue(st, actions);
    if k > i {
      BindStatesAt(c, i + 1, actions, k);
    }
  }

  /** `x` is the non-empty next-state name of one of the state's events. */
  ghost predicate NextOf(s: PState, x: string) {
    x != "" && exists e :: e in s.events.items && s.events.items[e].next == Some(x)
  }

  /** The second pass over one state, from its `j`-th event on: the first non-empty
      next-state name that is not a built state; `if event.next_state:` skips the rest. */
  function DanglingEvent(s: PState, j: nat, declared: set<string>): Option<string>
    requires Dicts.Valid(s.events) && j <= |s.events.keys|
    decreases |s.events.keys| - j
  {
    if j == |s.events.keys| then None
    else
      var next := s.events.items[s.events.keys[j]].next;
      if Truthy(next) && next.value !in declared then next else DanglingEvent(s, j + 1, declared)
  }

  /** The second pass from the `i`-th declared state on. */
  function Dangling(c: Context, i: nat, declared: set<string>): Option<string>
    requires Shaped(c) && i <= |c.states.keys|
    decreases |c.states.keys| - i
  {
    if i == |c.states.keys| then None
    else
      match DanglingEvent(c.states.items[c.states.keys[i]], 0, declared)
      case Some(n) => Some(n)
      case None => Dangling(c, i + 1, declared)
  }

  /** Every non-empty next-state name of the state's events from the `j`-th on is declared. */
  ghost predicate EventsTargetedFrom(s: PState, j: nat, declared: set<string>)
    requires Dicts.Valid(s.events) && j <= |s.events.keys|
  {
    forall k :: j <= k < |s.events.keys| && Truthy(s.events.items[s.events.keys[k]].next) ==>
      s.events.items[s.events.keys[k]].next.value in declared
  }

  ghost predicate StateTargeted(s: PState, declared: set<string>) {
    forall x :: NextOf(s, x) ==> x in declared
  }

  lemma {:induction false} DanglingEventSpec(s: PState, j: nat, declared: set<string>)
    requires Dicts.Valid(s.events) && j <= |s.events.keys|
    ensures DanglingEvent(s, j, declared).None? <==> EventsTargetedFrom(s, j, declared)
    ensures DanglingEvent(s, j, declared).Some? ==>
      var x := DanglingEvent(s, j, declared).value;
      x !in declared && NextOf(s, x)
    decreases |s.events.keys| - j
  {
    if j < |s.events.keys| {
      DanglingEventSpec(s, j + 1, declared);
      var e := s.events.keys[j];
      assert e in s.events.items;
    }
  }

  lemma DanglingEventAll(s: PState, declared: set<string>)
    requires Dicts.Valid(s.events)
    ensures DanglingEvent(s, 0, declared).None? <==> StateTargeted(s, declared)
    ensures DanglingEvent(s, 0, declared).Some? ==>
      var x := DanglingEvent(s, 0, declared).value;
      x !in declared && NextOf(s, x)
  {
    DanglingEventSpec(s, 0, declared);
    if EventsTargetedFrom(s, 0, declared) {
      forall x | NextOf(s, x)
        ensures x in declared
      {
        var e :| e in s.events.items && s.events.items[e].next == Some(x);
        var k :| 0 <= k < |s.events.keys| && s.events.keys[k] == e;
      }
    }
  }

  lemma {:induction false} DanglingSpec(c: Context, i: nat, declared: set<string>)
    requires Shaped(c) && i <= |c.states.keys|
    ensures Dangling(c, i, declared).None? <==>
      forall k :: i <= k < |c.states.keys| ==> StateTargeted(c.states.items[c.states.keys[k]], declared)
    ensures Dangling(c, i, declared).Some? ==>
      var x := Dangling(c, i, declared).value;
      x !in declared && exists n :: n in c.states.items && NextOf(c.states.items[n], x)
    decreases |c.states.keys| - i
  {
    if i < |c.states.keys| {
      DanglingEventAll(c.states.items[c.states.keys[i]], declared);
      DanglingSpec(c, i + 1, declared);
    }
  }

  /** The first state assigned, as `fsm.state = self.first_state` does. */
  function Start<F>(m: Machine<F>, first: Option<string>): Result<Machine<F>, BuildError>
    requires Named(m.states)
  {
    match first
    case None => Err(UnknownStart(None))
    case Some(n) =>
      match SetState(m, n)
      case Ok(started) => Ok(started)
      case Err(_) => Err(UnknownStart(first))
  }

  /** `build(**actions)`: the first pass binds every state, the second resolves every
      next-state name against the states built, then the machine starts in the first state. */
  function Build<F>(c: Context, actions: map<string, F>): Result<Machine<F>, BuildError>
    requires Shaped(c)
  {
    match BindStates(c, 0, actions)
    case Err(e) => Err(e)
    case Ok(built) =>
      var m := New(built);
      match Dangling(c, 0, m.states.Keys)
      case Some(n) => Err(MissingState(n))
      case None => Start(m, c.firstState)
  }

  /** In a machine made of states with distinct names, each state is stored under its name. */
  lemma NewAt<A>(t: seq<State<A>>, k: nat)
    requires k < |t|
    requires forall j :: 0 <= j < |t| && j != k ==> t[j].name != t[k].name
    ensures t[k].name in New(t).states && New(t).states[t[k].name] == t[k]
  {
    var m := New(t);
    var j :| 0 <= j < |t| && t[j] == m.states[t[k].name];
  }

  lemma NewIn<A>(t: seq<State<A>>, n: string)
    requires n in New(t).states
    ensures exists j :: 0 <= j < |t| && t[j].name == n
  {
    var m := New(t);
    var j :| 0 <= j < |t| && t[j] == m.states[n];
  }

  /** The `k`-th built state carries the `k`-th declared name. */
  lemma BuiltNames<F>(c: Context, actions: map<string, F>)
    requires Shaped(c)
    requires BindStates(c, 0, actions).Ok?
    ensures |BindStates(c, 0, actions).value| == |c.states.keys|
    ensures forall k :: 0 <= k < |c.states.keys| ==> BindStates(c, 0, actions).value[k].name == c.states.keys[k]
  {
    BindStatesLength(c, 0, actions);
    forall k | 0 <= k < |c.states.keys|
      ensures BindStates(c, 0, actions).value[k].name == c.states.keys[k]
    {
      BindStatesAt(c, 0, actions, k);
    }
  }

  lemma NewOfBuiltAt<F>(c: Context, actions: map<string, F>, n: string)
    requires Shaped(c)
    requires BindStates(c, 0, actions).Ok?
    requires n in c.states.items
    ensures var m := New(BindStates(c, 0, actions).value);
      n in m.states && StateBound(c.states.items[n], actions) && m.states[n] == BuiltState(c.states.items[n], actions)
  {
    var built := BindStates(c, 0, actions).value;
    var k :| 0 <= k < |c.states.keys| && c.states.keys[k] == n;
    BuiltApart(c, actions, k);
    BindStatesAt(c, 0, actions, k);
    NewAt(built, k);
  }

  /** No other built state shares the name of the `k`-th. */
  lemma BuiltApart<F>(c: Context, actions: map<string, F>, k: nat)
    requires Shaped(c)
    requires BindStates(c, 0, actions).Ok?
    requires k < |c.states.keys|
    ensures var built := BindStates(c, 0, actions).value;
      && k < |built| && built[k].name == c.states.keys[k]
      && forall j :: 0 <= j < |built| && j != k ==> built[j].name != built[k].name
  {
    BuiltNames(c, actions);
    var built := BindStates(c, 0, actions).value;
    forall j | 0 <= j < |built| && j != k
      ensures built[j].name != built[k].name
    {
      if j < k {
        assert c.states.keys[j] != c.states.keys[k];
      } else {
        assert c.states.keys[k] != c.states.keys[j];
      }
    }
  }

  lemma NewOfBuiltIn<F>(c: Context, actions: map<string, F>, n: string)
    requires Shaped(c)
    requires BindStates(c, 0, actions).Ok?
    requires n in New(BindStates(c, 0, actions).value).states
    ensures n in c.states.items
  {
    BuiltNames(c, actions);
    NewIn(BindStates(c, 0, actions).value, n);
  }

  /** The machine made of the built states holds one state per declared state, under the
      same name, and that state is the built form of the declared one. */
  lemma NewOfBuilt<F>(c: Context, actions: map<string, F>)
    requires Shaped(c)
    requires BindStates(c, 0, actions).Ok?
    ensures var m := New(BindStates(c, 0, actions).value);
      && m.states.Keys == c.states.items.Keys
      && forall n :: n in c.states.items ==>
           StateBound(c.states.items[n], actions) && m.states[n] == BuiltState(c.states.items[n], actions)
  {
    var m := New(BindStates(c, 0, actions).value);
    forall n | n in c.states.items
      ensures n in m.states && StateBound(c.states.items[n], actions) && m.states[n] == BuiltState(c.states.items[n], actions)
    {
      NewOfBuiltAt(c, actions, n);
    }
    forall n | n in m.states
      ensures n in c.states.items
    {
      NewOfBuiltIn(c, actions, n);
    }
  }

  lemma BoundAll<F>(c: Context, actions: map<string, F>)
    requires Shaped(c)
    ensures (forall k :: 0 <= k < |c.states.keys| ==> StateBound(c.states.items[c.states.keys[k]], actions)) <==> Bound(c, actions)
  {
    if forall k :: 0 <= k < |c.states.keys| ==> StateBound(c.states.items[c.states.keys[k]], actions) {
      forall n | n in c.states.items
        ensures StateBound(c.states.items[n], actions)
      {
        var k :| 0 <= k < |c.states.keys| && c.states.keys[k] == n;
      }
    }
  }

  lemma TargetedAll(c: Context)
    requires Shaped(c)
    ensures (forall k :: 0 <= k < |c.states.keys| ==> StateTargeted(c.states.items[c.states.keys[k]], c.states.items.Keys)) <==> Targeted(c)
  {
    if forall k :: 0 <= k < |c.states.keys| ==> StateTargeted(c.states.items[c.states.keys[k]], c.states.items.Keys) {
      forall n, e | n in c.states.items && e in c.states.items[n].events.items && Truthy(c.states.items[n].events.items[e].next)
        ensures c.states.items[n].events.items[e].next.value in c.states.items
      {
        var k :| 0 <= k < |c.states.keys| && c.states.keys[k] == n;
        assert NextOf(c.states.items[n], c.states.items[n].events.items[e].next.value);
      }
    }
    if Targeted(c) {
      forall k | 0 <= k < |c.states.keys|
        ensures StateTargeted(c.states.items[c.states.keys[k]], c.states.items.Keys)
      {
        var n := c.states.keys[k];
        forall x | NextOf(c.states.items[n], x)
          ensures x in c.states.items
        {
          var e :| e in c.states.items[n].events.items && c.states.items[n].events.items[e].next == Some(x);
        }
      }
    }
  }

  /** `build` succeeds exactly when every referenced action name has a callable, every
      next-state name is declared and a first state exists. */
  lemma BuildOk<F>(c: Context, actions: map<string, F>)
    requires Shaped(c)
    ensures Build(c, actions).Ok? <==>
      Bound(c, actions) && Targeted(c) && c.firstState.Some? && c.firstState.value in c.states.items
  {
    BindStatesOk(c, 0, actions);
    BoundAll(c, actions);
    if BindStates(c, 0, actions).Ok? {
      NewOfBuilt(c, actions);
      var m := New(BindStates(c, 0, actions).value);
      DanglingSpec(c, 0, m.states.Keys);
      TargetedAll(c);
    }
  }

  /** A built machine holds the built form of every declared state under its name, its
      next-state references all resolve, and it starts in the first state, no hook set. */
  lemma BuildValue<F>(c: Context, actions: map<string, F>)
    requires Shaped(c)
    requires Build(c, actions).Ok?
    ensures var m := Build(c, actions).value;
      && WellFormed(m)
      && m.current == c.firstState && m.hooks == NoHooks
      && m.states.Keys == c.states.items.Keys
      && forall n :: n in c.states.items ==>
           StateBound(c.states.items[n], actions) && m.states[n] == BuiltState(c.states.items[n], actions)
  {
    BuildOk(c, actions);
    NewOfBuilt(c, actions);
    var m := Build(c, actions).value;
    forall n, e | n in m.states && e in m.states[n].events && m.states[n].events[e].next.Some?
      ensures m.states[n].events[e].next.value in m.states
    {
      BuiltTarget(c, actions, c.states.items[n], e);
    }
  }

  /** The next state of a built event is a non-empty next-state name of the declared one. */
  lemma BuiltTarget<F>(c: Context, actions: map<string, F>, s: PState, e: string)
    requires StateBound(s, actions) && e in BuiltState(s, actions).events
    requires Targeted(c) && s.name in c.states.items && c.states.items[s.name] == s
    ensures var next := BuiltState(s, actions).events[e].next;
      next.Some? ==> next.value in c.states.items
  {
    assert e in s.events.items;
  }

  /** A failed `build` reports the first problem met: an action name some state refers to
      that has no callable; else a next-state name no state has; else the missing first
      state. */
  lemma BuildErr<F>(c: Context, actions: map<string, F>)
    requires Shaped(c)
    requires Build(c, actions).Err?
    ensures var err := Build(c, actions).error;
      || (err.MissingAction? && err.name !in actions && exists n :: n in c.states.items && err.name in Refs(c.states.items[n]))
      || (err.MissingState? && Bound(c, actions) && err.name !in c.states.items
          && exists n :: n in c.states.items && NextOf(c.states.items[n], err.name))
      || (err.UnknownStart? && Bound(c, actions) && Targeted(c) && err.first == c.firstState)
  {
    BindStatesOk(c, 0, actions);
    BoundAll(c, actions);
    if BindStates(c, 0, actions).Ok? {
      BuildErrBound(c, actions);
    }
  }

  /** The failures after the first pass: an undeclared next state, then the first state. */
  lemma BuildErrBound<F>(c: Context, actions: map<string, F>)
    requires Shaped(c)
    requires BindStates(c, 0, actions).Ok? && Build(c, actions).Err?
    ensures var err := Build(c, actions).error;
      || (err.MissingState? && err.name !in c.states.items
          && exists n :: n in c.states.items && NextOf(c.states.items[n], err.name))
      || (err.UnknownStart? && Targeted(c) && err.first == c.firstState)
  {
    NewOfBuilt(c, actions);
    var m := New(BindStates(c, 0, actions).value);
    DanglingSpec(c, 0, m.states.Keys);
    TargetedAll(c);
  }

  /** `STATE s` with an empty enter name and an event whose next-state name is empty: with no
      callable at all, `build` skips both names and the machine has no enter hook and no
      next state. */
  lemma EmptyNamesSkipped()
    ensures var s := PState("s", Some(""), None, Put(Dicts.Empty(), "go", PEvent("go", Some(""), [])));
      var c := Fresh().(states := Put(Dicts.Empty(), "s", s), firstState := Some("s"), actions := [""]);
      && Shaped(c)
      && Build<int>(c, map[]).Ok?
      && Build<int>(c, map[]).value.states["s"].enter.None?
      && Build<int>(c, map[]).value.states["s"].events["go"].next.None?
  {
    var s := PState("s", Some(""), None, Put(Dicts.Empty(), "go", PEvent("go", Some(""), [])));
    var c := Fresh().(states := Put(Dicts.Empty(), "s", s), firstState := Some("s"), actions := [""]);
    var actions: map<string, int> := map[];
    assert Shaped(c);
    assert Bound(c, actions) && Targeted(c);
    BuildOk(c, actions);
    BuildValue(c, actions);
  }

  /** An event action name is looked up whatever its value: `[actions[n] for n in
      event.actions]` has no truth test, so an empty name with no callable fails. */
  lemma EmptyActionLookedUp()
    ensures var s := PState("s", None, None, Put(Dicts.Empty(), "go", PEvent("go", None, [""])));
      var c := Fresh().(states := Put(Dicts.Empty(), "s", s), firstState := Some("s"), actions := [""]);
      && Shaped(c)
      && Build<int>(c, map[]) == Err(MissingAction(""))
  {
    var s := PState("s", None, None, Put(Dicts.Empty(), "go", PEvent("go", None, [""])));
    var c := Fresh().(states := Put(Dicts.Empty(), "s", s), firstState := Some("s"), actions := [""]);
    var actions: map<string, int> := map[];
    assert Shaped(c);
    assert "" in Refs(s) by {
      assert "go" in s.events.items && "" in s.events.items["go"].actions;
    }
    BuildErr(c, actions);
  }

  /** `build` as written passes `on_enter` and `on_exit` to a `STATE` constructor whose
      parameters are `enter` and `exit`: once the first state's hook names are looked up,
      the call raises TypeError. With no state declared the loops do nothing and assigning
      the missing first state fails. */
  function BuildAsWritten<F>(c: Context, actions: map<string, F>): (r: Result<Machine<F>, BuildError>)
    requires Shaped(c)
    ensures r.Err?
    ensures c.states.keys != [] ==>
      var s := c.states.items[c.states.keys[0]];
      HookBound(s.enter, actions) && HookBound(s.exit, actions) ==> r == Err(UnexpectedKeyword("on_enter"))
  {
    if c.states.keys == [] then
      var m := New<F>([]);
      Start(m, c.firstState)
    else
      var s := c.states.items[c.states.keys[0]];
      match BindHook(s.enter, actions)
      case Err(e) => Err(e)
      case Ok(_) =>
        match BindHook(s.exit, actions)
        case Err(e) => Err(e)
        case Ok(_) => Err(UnexpectedKeyword("on_enter"))
  }

  /** Every description the corrected `build` turns into a machine is one the code as written
      rejects. */
  lemma BuildAsWrittenRejects<F>(c: Context, actions: map<string, F>)
    requires Shaped(c)
    requires Build(c, actions).Ok?
    ensures Build(c, actions).value.current.Some?
    ensures BuildAsWritten(c, actions) == Err(UnexpectedKeyword("on_enter"))
  {
    BuildOk(c, actions);
    BuildValue(c, actions);
    assert c.states.keys[0] in c.states.items;
  }

  /** For a parsed description, supplying a callable for every name in its sorted action
      list binds every state, and a first state exists as soon as one state is declared. */
  lemma BuildParsed<F>(c: Context, actions: map<string, F>)
    requires Directives.Valid(c)
    requires forall a :: a in c.actions ==> a in actions
    ensures Shaped(c)
    ensures Build(c, actions).Ok? <==> c.states.keys != [] && Targeted(c)
  {
    ValidIsShaped(c);
    forall n | n in c.states.items
      ensures StateBound(c.states.items[n], actions)
    {
      StateBoundIsRefs(c.states.items[n], actions);
    }
    if c.states.keys != [] {
      assert c.states.keys[0] in c.states.items;
    }
    BuildOk(c, actions);
  }
}
