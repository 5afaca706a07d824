/** The directive actions of fsm/actions.py and the `Context` they accumulate.

    Each `act_*` reads the text after the keyword (`line`), splits it into tokens, checks the
    token count and uniqueness, and records the directive in the context. The context's
    `state` and `event` are references to the state and event being described; here they
    are the names under which those records are stored. `import_by_path` is a caller-supplied
    resolver that either finds the named object or fails. */
module Directives {
  import opened Base
  import opened Text
  import opened Dicts

  /** The `count` argument of `ExtraToken`: omitted (one token) or 'one or two'. */
  datatype Count = One | OneOrTwo

  /** The exceptions a description can raise. `NoCursor` is the AttributeError of a directive
      that needs a current state or event when there is none; `Unpack` is the ValueError of
      `name, path = args`; `Unresolved` is a failure of `import_by_path`. */
  datatype ParseError =
    | TooFewTokens(directive: string, line: nat)
    | ExtraToken(directive: string, count: Count, line: nat)
    | DuplicateName(directive: string, line: nat)
    | DuplicateDirective(directive: string, line: nat)
    | UnexpectedDirective(directive: string, line: nat)
    | NoCursor(directive: string, line: nat)
    | Unpack(line: nat)
    | Unresolved(path: string)

  /** An object found by `import_by_path`. */
  datatype Symbol = Symbol(ref: nat)

  /** `import_by_path`: the object a dotted path names, if there is one. */
  type Resolver = string -> Option<Symbol>

  /** actions.py `Event`: the name, the optional next state's name, the action names. */
  datatype PEvent = PEvent(name: string, next: Option<string>, actions: seq<string>)

  /** actions.py `State`: the name, the enter and exit action names, the events by name. */
  datatype PState = PState(name: string, enter: Option<string>, exit: Option<string>, events: Dict<PEvent>)

  /** `Context`: the states in declaration order, the first state's name, the state and the
      event being described, the sorted action names, the context object, the handlers, and
      the current line's text and number. */
  datatype Context = Context(
    states: Dict<PState>,
    firstState: Option<string>,
    state: Option<string>,
    event: Option<(string, string)>,
    actions: seq<string>,
    context: Option<Symbol>,
    handlers: map<string, Symbol>,
    line: string,
    lineNum: nat)

  /** `Context()`; the unset `line` and `line_num` are the empty line and 0. */
  function Fresh(): (c: Context)
    ensures Valid(c)
    ensures c.states.keys == [] && c.firstState.None? && c.actions == [] && c.context.None? && c.handlers == map[]
  {
    Context(Dicts.Empty(), None, None, None, [], None, map[], "", 0)
  }

  function NewState(name: string): PState {
    PState(name, None, None, Dicts.Empty())
  }

  /** Every action name a state refers to; an empty hook name is no reference, as `build`
      skips it. */
  ghost function Refs(s: PState): set<string> {
    (if Truthy(s.enter) then {s.enter.value} else {})
    + (if Truthy(s.exit) then {s.exit.value} else {})
    + (set e, a | e in s.events.items && a in s.events.items[e].actions :: a)
  }

  predicate NoDup(s: seq<string>) {
    forall i, j :: 0 <= i < j < |s| ==> s[i] != s[j]
  }

  ghost predicate StateValid(n: string, s: PState) {
    && s.name == n
    && Dicts.Valid(s.events)
    && (forall e :: e in s.events.items ==> s.events.items[e].name == e && NoDup(s.events.items[e].actions))
  }

  /** The state and event references point at records of the context. */
  predicate Cursors(c: Context) {
    && (c.state.Some? ==> c.state.value in c.states.items)
    && (c.event.Some? ==> c.event.value.0 in c.states.items && c.event.value.1 in c.states.items[c.event.value.0].events.items)
  }

  /** What every context built by the directives satisfies: records stored under their own
      names, no action listed twice in one event, the action list sorted and holding every
      name referred to, the first state the first one declared, and references that resolve. */
  ghost predicate Valid(c: Context) {
    && Dicts.Valid(c.states)
    && (forall n :: n in c.states.items ==> StateValid(n, c.states.items[n]))
    && Sorted(c.actions)
    && (forall n :: n in c.states.items ==> forall a :: a in Refs(c.states.items[n]) ==> a in c.actions)
    && c.firstState == (if c.states.keys == [] then None else Some(c.states.keys[0]))
    && Cursors(c)
  }

  /** `add_action`: the list stays sorted and free of duplicates; a known name changes nothing. */
  function AddAction(actions: seq<string>, name: string): (r: seq<string>)
    ensures forall x :: x in r <==> x in actions || x == name
    ensures Sorted(actions) ==> Sorted(r)
    ensures Sorted(actions) && name in actions ==> r == actions
  {
    Insert(actions, name)
  }

  /** The list `add_action` leaves is `sorted(actions + [name])` without duplicates: any sorted
      duplicate-free list with the same names is that list. */
  lemma AddActionIsSorted(actions: seq<string>, name: string, other: seq<string>)
    requires Sorted(actions) && Sorted(other)
    requires forall x :: x in other <==> x in actions || x == name
    ensures AddAction(actions, name) == other
  {
    SortedUnique(AddAction(actions, name), other);
  }

  /** `act_state`: one token, a name not yet declared; the new state becomes current and,
      if none was declared before, the first state. */
  function ActState(c: Context): (r: Result<Context, ParseError>)
    ensures var args := Words(c.line);
      r.Ok? <==> |args| == 1 && args[0] !in c.states.items
    ensures var args := Words(c.line);
      r.Err? ==> r.error == if |args| != 1 then ExtraToken("STATE", One, c.lineNum) else DuplicateName("STATE", c.lineNum)
    ensures r.Ok? ==> var name := Words(c.line)[0];
      && r.value.states.items == c.states.items[name := NewState(name)]
      && r.value.states.keys == c.states.keys + [name]
      && r.value.state == Some(name)
      && r.value.firstState == (if c.firstState.None? then Some(name) else c.firstState)
      && r.value.(states := c.states, state := c.state, firstState := c.firstState) == c
    ensures Valid(c) && r.Ok? ==> Valid(r.value)
  {
    var args := Words(c.line);
    if |args| != 1 then Err(ExtraToken("STATE", One, c.lineNum))
    else
      var name := args[0];
      if name in c.states.items then Err(DuplicateName("STATE", c.lineNum))
      else
        assert Valid(c) ==> Valid(AddState(c, name)) by {
          if Valid(c) {
            AddStateValid(c, name);
          }
        }
        Ok(AddState(c, name))
  }

  function AddState(c: Context, name: string): Context {
    c.(firstState := if c.firstState.None? then Some(name) else c.firstState,
       state := Some(name),
       states := Put(c.states, name, NewState(name)))
  }

  lemma AddStateValid(c: Context, name: string)
    requires Valid(c) && name !in c.states.items
    ensures Valid(AddState(c, name))
  {
    var r := AddState(c, name);
    assert c.states.keys == [] <==> c.firstState.None?;
    assert c.states.keys != [] ==> r.states.keys[0] == c.states.keys[0];
    assert Refs(NewState(name)) == {};
  }

  /** The state being described, when the reference is set. */
  function CurrentState(c: Context): (r: Option<string>)
    ensures r.Some? ==> r.value in c.states.items
    ensures r.None? ==> c.state.None? || c.state.value !in c.states.items
  {
    if c.state.Some? && c.state.value in c.states.items then c.state else None
  }

  /** Replaces the record of a declared state; the declaration order stays as it was. */
  function PutState(c: Context, n: string, s: PState): (r: Context)
    requires n in c.states.items
    ensures r.states.keys == c.states.keys
    ensures r.states.items == c.states.items[n := s]
    ensures r.(states := c.states) == c
  {
    c.(states := Put(c.states, n, s))
  }

  datatype Hook = Enter | Exit

  function HookName(h: Hook): string {
    if h == Enter then "ENTER" else "EXIT"
  }

  function GetHook(s: PState, h: Hook): Option<string> {
    if h == Enter then s.enter else s.exit
  }

  function SetHook(s: PState, h: Hook, name: string): (r: PState)
    ensures GetHook(r, h) == Some(name)
    ensures r.name == s.name && r.events == s.events
    ensures h == Enter ==> r.exit == s.exit
    ensures h == Exit ==> r.enter == s.enter
  {
    if h == Enter then s.(enter := Some(name)) else s.(exit := Some(name))
  }

  /** `act_enter` and `act_exit`: one token, a current state whose hook is not yet set; the
      hook is set and the name registered as an action. */
  function ActHook(c: Context, h: Hook): (r: Result<Context, ParseError>)
    ensures var args := Words(c.line);
      r.Ok? <==> |args| == 1 && CurrentState(c).Some? && GetHook(c.states.items[c.state.value], h).None?
    ensures r.Err? ==>
      var args := Words(c.line);
      r.error == (if |args| != 1 then ExtraToken(HookName(h), One, c.lineNum)
                  else if CurrentState(c).None? then NoCursor(HookName(h), c.lineNum)
                  else DuplicateDirective(HookName(h), c.lineNum))
    ensures r.Ok? ==> var name := Words(c.line)[0]; var n := c.state.value;
      && r.value.states.keys == c.states.keys
      && r.value.states.items == c.states.items[n := SetHook(c.states.items[n], h, name)]
      && r.value.actions == AddAction(c.actions, name)
      && r.value.(states := c.states, actions := c.actions) == c
    ensures Valid(c) && r.Ok? ==> Valid(r.value)
  {
    var args := Words(c.line);
    if |args| != 1 then Err(ExtraToken(HookName(h), One, c.lineNum))
    else if CurrentState(c).None? then Err(NoCursor(HookName(h), c.lineNum))
    else
      var n := c.state.value;
      var s := c.states.items[n];
      if GetHook(s, h).Some? then Err(DuplicateDirective(HookName(h), c.lineNum))
      else
        var name := args[0];
        var r := PutState(c, n, SetHook(s, h, name)).(actions := AddAction(c.actions, name));
        assert Valid(c) ==> Valid(r) by {
          if Valid(c) {
            SetHookValid(c, h, name);
          }
        }
        Ok(r)
  }

  lemma SetHookValid(c: Context, h: Hook, name: string)
    requires Valid(c) && CurrentState(c).Some?
    ensures var n := c.state.value;
      Valid(PutState(c, n, SetHook(c.states.items[n], h, name)).(actions := AddAction(c.actions, name)))
  {
    var n := c.state.value;
    var s := c.states.items[n];
    var s2 := SetHook(s, h, name);
    var r := PutState(c, n, s2).(actions := AddAction(c.actions, name));
    assert Refs(s2) <= Refs(s) + {name};
    forall m | m in r.states.items
      ensures forall a :: a in Refs(r.states.items[m]) ==> a in r.actions
    {
      if m != n {
        assert r.states.items[m] == c.states.items[m];
      }
    }
  }

  function ActEnter(c: Context): Result<Context, ParseError> {
    ActHook(c, Enter)
  }

  function ActExit(c: Context): Result<Context, ParseError> {
    ActHook(c, Exit)
  }

  /** The name and optional next state of an EVENT line, when it has one or two tokens. */
  function EventArgs(args: seq<string>): Option<(string, Option<string>)> {
    if |args| == 2 then Some((args[0], Some(args[1])))
    else if |args| == 1 then Some((args[0], None))
    else None
  }

  /** `act_event`: one or two tokens, a current state; the event is stored under its name in
      that state, replacing an earlier event of the same name in its place, and becomes the
      event being described. */
  function ActEvent(c: Context): (r: Result<Context, ParseError>)
    ensures var args := Words(c.line);
      r.Ok? <==> (|args| == 1 || |args| == 2) && CurrentState(c).Some?
    ensures r.Err? ==>
      var args := Words(c.line);
      r.error == (if |args| != 1 && |args| != 2 then ExtraToken("EVENT", OneOrTwo, c.lineNum)
                  else NoCursor("EVENT", c.lineNum))
    ensures r.Ok? ==> c.state.Some? && c.state.value in r.value.states.items
    ensures r.Ok? ==>
      var args := Words(c.line); var n := c.state.value; var old_s := c.states.items[n];
      var name := args[0]; var next := if |args| == 2 then Some(args[1]) else None;
      var s := r.value.states.items[n];
      && r.value.states.keys == c.states.keys
      && r.value.states.items == c.states.items[n := s]
      && s.(events := old_s.events) == old_s
      && s.events.items == old_s.events.items[name := PEvent(name, next, [])]
      && s.events.keys == (if name in old_s.events.items then old_s.events.keys else old_s.events.keys + [name])
      && r.value.event == Some((n, name))
      && r.value.(states := c.states, event := c.event) == c
    ensures Valid(c) && r.Ok? ==> Valid(r.value)
  {
    var args := Words(c.line);
    var parsed := EventArgs(args);
    if parsed.None? then Err(ExtraToken("EVENT", OneOrTwo, c.lineNum))
    else if CurrentState(c).None? then Err(NoCursor("EVENT", c.lineNum))
    else
      var (name, next) := parsed.value;
      var n := c.state.value;
      var s := c.states.items[n];
      var r := AddEvent(c, n, name, next);
      assert Valid(c) ==> Valid(r) by {
        if Valid(c) {
          AddEventValid(c, n, name, next);
        }
      }
      Ok(r)
  }

  function AddEvent(c: Context, n: string, name: string, next: Option<string>): (r: Context)
    requires n in c.states.items
  {
    var s := c.states.items[n];
    PutState(c, n, s.(events := Put(s.events, name, PEvent(name, next, [])))).(event := Some((n, name)))
  }

  lemma RefsAddEvent(s: PState, name: string, next: Option<string>)
    ensures Refs(s.(events := Put(s.events, name, PEvent(name, next, [])))) <= Refs(s)
  {
    var s2 := s.(events := Put(s.events, name, PEvent(name, next, [])));
    forall a | a in Refs(s2)
      ensures a in Refs(s)
    {
      if a !in (if s.enter.Some? then {s.enter.value} else {}) + (if s.exit.Some? then {s.exit.value} else {}) {
        var e :| e in s2.events.items && a in s2.events.items[e].actions;
        assert e != name;
      }
    }
  }

  lemma AddEventValid(c: Context, n: string, name: string, next: Option<string>)
    requires Valid(c) && n in c.states.items
    ensures Valid(AddEvent(c, n, name, next))
  {
    var s := c.states.items[n];
    var s2 := s.(events := Put(s.events, name, PEvent(name, next, [])));
    var r := AddEvent(c, n, name, next);
    RefsAddEvent(s, name, next);
    assert StateValid(n, s2);
    forall m | m in r.states.items
      ensures forall a :: a in Refs(r.states.items[m]) ==> a in r.actions
    {
      if m != n {
        assert r.states.items[m] == c.states.items[m];
      }
    }
  }

  /** The event being described, when the reference is set. */
  function CurrentEvent(c: Context): (r: Option<(string, string)>)
    ensures r.Some? ==> r.value.0 in c.states.items && r.value.1 in c.states.items[r.value.0].events.items
    ensures r.None? ==> !Cursors(c) || c.event.None?
  {
    if c.event.Some? && c.event.value.0 in c.states.items && c.event.value.1 in c.states.items[c.event.value.0].events.items
    then c.event else None
  }

  /** `act_action`: one token, a current event not already listing the name; the name is
      appended to that event's actions and registered as an action. */
  function ActAction(c: Context): (r: Result<Context, ParseError>)
    ensures var args := Words(c.line);
      r.Ok? <==> |args| == 1 && CurrentEvent(c).Some?
                 && args[0] !in c.states.items[c.event.value.0].events.items[c.event.value.1].actions
    ensures r.Err? ==>
      var args := Words(c.line);
      r.error == (if |args| != 1 then ExtraToken("ACTION", One, c.lineNum)
                  else if CurrentEvent(c).None? then NoCursor("ACTION", c.lineNum)
                  else DuplicateName("ACTION", c.lineNum))
    ensures r.Ok? ==>
      var name := Words(c.line)[0]; var (n, e) := c.event.value;
      var s := c.states.items[n]; var ev := s.events.items[e];
      && r.value.states.keys == c.states.keys
      && r.value.states.items == c.states.items[n := s.(events := Put(s.events, e, ev.(actions := ev.actions + [name])))]
      && r.value.actions == AddAction(c.actions, name)
      && r.value.(states := c.states, actions := c.actions) == c
    ensures Valid(c) && r.Ok? ==> Valid(r.value)
  {
    var args := Words(c.line);
    if |args| != 1 then Err(ExtraToken("ACTION", One, c.lineNum))
    else if CurrentEvent(c).None? then Err(NoCursor("ACTION", c.lineNum))
    else
      var name := args[0];
      var (n, e) := c.event.value;
      if name in c.states.items[n].events.items[e].actions then Err(DuplicateName("ACTION", c.lineNum))
      else
        var r := AppendAction(c, n, e, name);
        assert Valid(c) ==> Valid(r) by {
          if Valid(c) {
            AppendActionValid(c, n, e, name);
          }
        }
        Ok(r)
  }

  function AppendAction(c: Context, n: string, e: string, name: string): Context
    requires n in c.states.items && e in c.states.items[n].events.items
  {
    var s := c.states.items[n];
    var ev := s.events.items[e];
    PutState(c, n, s.(events := Put(s.events, e, ev.(actions := ev.actions + [name])))).(actions := AddAction(c.actions, name))
  }

  lemma RefsAppendAction(s: PState, e: string, name: string)
    requires e in s.events.items
    ensures var ev := s.events.items[e];
      Refs(s.(events := Put(s.events, e, ev.(actions := ev.actions + [name])))) <= Refs(s) + {name}
  {
    var ev := s.events.items[e];
    var s2 := s.(events := Put(s.events, e, ev.(actions := ev.actions + [name])));
    forall a | a in Refs(s2) && a != name
      ensures a in Refs(s)
    {
      if a !in (if s.enter.Some? then {s.enter.value} else {}) + (if s.exit.Some? then {s.exit.value} else {}) {
        var e' :| e' in s2.events.items && a in s2.events.items[e'].actions;
        if e' == e {
          assert a in ev.actions;
        }
      }
    }
  }

  lemma AppendStateValid(n: string, s: PState, e: string, name: string)
    requires StateValid(n, s) && e in s.events.items
    requires name !in s.events.items[e].actions
    ensures var ev := s.events.items[e];
      StateValid(n, s.(events := Put(s.events, e, ev.(actions := ev.actions + [name]))))
  {
    var ev := s.events.items[e];
    assert NoDup(ev.actions + [name]) by {
      assert forall i :: 0 <= i < |ev.actions| ==> (ev.actions + [name])[i] == ev.actions[i];
    }
  }

  lemma AppendActionValid(c: Context, n: string, e: string, name: string)
    requires Valid(c) && n in c.states.items && e in c.states.items[n].events.items
    requires name !in c.states.items[n].events.items[e].actions
    ensures Valid(AppendAction(c, n, e, name))
  {
    var s := c.states.items[n];
    var ev := s.events.items[e];
    var s2 := s.(events := Put(s.events, e, ev.(actions := ev.actions + [name])));
    var r := AppendAction(c, n, e, name);
    RefsAppendAction(s, e, name);
    AppendStateValid(n, s, e, name);
    forall m | m in r.states.items
      ensures forall a :: a in Refs(r.states.items[m]) ==> a in r.actions
    {
      if m != n {
        assert r.states.items[m] == c.states.items[m];
      }
    }
  }

  /** `act_context`: one token and no context yet; the whole text after the keyword, as it
      stands, is the path handed to the resolver. */
  function ActContext(c: Context, resolve: Resolver): (r: Result<Context, ParseError>)
    ensures r.Ok? <==> |Words(c.line)| == 1 && c.context.None? && resolve(c.line).Some?
    ensures r.Err? ==>
      r.error == (if |Words(c.line)| != 1 then ExtraToken("CONTEXT", One, c.lineNum)
                  else if c.context.Some? then DuplicateName("CONTEXT", c.lineNum)
                  else Unresolved(c.line))
    ensures r.Ok? ==> r.value == c.(context := resolve(c.line))
    ensures Valid(c) && r.Ok? ==> Valid(r.value)
  {
    if |Words(c.line)| != 1 then Err(ExtraToken("CONTEXT", One, c.lineNum))
    else if c.context.Some? then Err(DuplicateName("CONTEXT", c.lineNum))
    else
      match resolve(c.line)
      case None => Err(Unresolved(c.line))
      case Some(sym) => Ok(c.(context := Some(sym)))
  }

  /** `act_handler` with the check the error type names: fewer than two tokens is too few,
      more than two is too many; the short name must be new and the path must resolve. */
  function ActHandler(c: Context, resolve: Resolver): (r: Result<Context, ParseError>)
    ensures var args := Words(c.line);
      r.Ok? <==> |args| == 2 && args[0] !in c.handlers && resolve(args[1]).Some?
    ensures r.Err? ==>
      var args := Words(c.line);
      r.error == (if |args| < 2 then TooFewTokens("HANDLER", c.lineNum)
                  else if |args| > 2 then ExtraToken("HANDLER", One, c.lineNum)
                  else if args[0] in c.handlers then DuplicateName("HANDLER", c.lineNum)
                  else Unresolved(args[1]))
    ensures r.Ok? ==> var args := Words(c.line);
      r.value == c.(handlers := c.handlers[args[0] := resolve(args[1]).value])
    ensures Valid(c) && r.Ok? ==> Valid(r.value)
  {
    var args := Words(c.line);
    if |args| < 2 then Err(TooFewTokens("HANDLER", c.lineNum))
    else if |args| > 2 then Err(ExtraToken("HANDLER", One, c.lineNum))
    else Bind(c, args[0], args[1], resolve)
  }

  function Bind(c: Context, name: string, path: string, resolve: Resolver): Result<Context, ParseError> {
    if name in c.handlers then Err(DuplicateName("HANDLER", c.lineNum))
    else
      match resolve(path)
      case None => Err(Unresolved(path))
      case Some(sym) => Ok(c.(handlers := c.handlers[name := sym]))
  }

  /** `act_handler` as written: only exactly one token counts as too few, so a line with no
      token reaches `name, path = args` and fails to unpack. */
  function ActHandlerAsWritten(c: Context, resolve: Resolver): (r: Result<Context, ParseError>)
    ensures Words(c.line) == [] ==> r == Err(Unpack(c.lineNum))
    ensures Words(c.line) != [] ==> r == ActHandler(c, resolve)
  {
    var args := Words(c.line);
    if |args| == 1 then Err(TooFewTokens("HANDLER", c.lineNum))
    else if |args| > 2 then Err(ExtraToken("HANDLER", One, c.lineNum))
    else if |args| != 2 then Err(Unpack(c.lineNum))
    else Bind(c, args[0], args[1], resolve)
  }

  /** An empty HANDLER line: the function as written fails with an unpacking error where the
      corrected one reports too few tokens. */
  lemma HandlerEmptyLine(c: Context, resolve: Resolver)
    requires Words(c.line) == []
    ensures ActHandlerAsWritten(c, resolve) == Err(Unpack(c.lineNum))
    ensures ActHandler(c, resolve) == Err(TooFewTokens("HANDLER", c.lineNum))
  {
  }

  /** The semantic actions the grammar machine calls, one per directive. */
  datatype Directive = StateDirective | EnterDirective | ExitDirective | EventDirective
    | ActionDirective | ContextDirective | HandlerDirective

  /** Calls the semantic action of a directive on the context. */
  function Apply(d: Directive, c: Context, resolve: Resolver): (r: Result<Context, ParseError>)
    ensures Valid(c) && r.Ok? ==> Valid(r.value)
    ensures r.Ok? ==> r.value.line == c.line && r.value.lineNum == c.lineNum
    ensures r.Ok? && c.firstState.Some? ==> r.value.firstState == c.firstState
    ensures r.Ok? ==> c.states.keys <= r.value.states.keys
    ensures r.Err? && !r.error.Unresolved? ==> r.error.line == c.lineNum
    ensures r.Err? && r.error.NoCursor? ==>
      || !Cursors(c)
      || ((d == EnterDirective || d == ExitDirective || d == EventDirective) && c.state.None?)
      || (d == ActionDirective && c.event.None?)
    ensures r.Ok? && d == StateDirective ==> r.value.state.Some?
    ensures r.Ok? && d == EventDirective ==> r.value.state == c.state && r.value.event.Some?
    ensures r.Ok? && (d == EnterDirective || d == ExitDirective || d == ActionDirective) ==>
      r.value.state == c.state && r.value.event == c.event
  {
    match d
    case StateDirective => ActState(c)
    case EnterDirective => ActEnter(c)
    case ExitDirective => ActExit(c)
    case EventDirective => ActEvent(c)
    case ActionDirective => ActAction(c)
    case ContextDirective => ActContext(c, resolve)
    case HandlerDirective => ActHandlerAsWritten(c, resolve)
  }

  /** `Context.events`: the distinct names of the events of every declared state. */
  function Events(c: Context): set<string> {
    set n, e | n in c.states.items && e in c.states.items[n].events.items :: c.states.items[n].events.items[e].name
  }

  /** `x` names one of the first `j` events of `s`, in declaration order. */
  ghost predicate AmongFirst(s: PState, j: nat, x: string)
    requires Dicts.Valid(s.events) && j <= |s.events.keys|
  {
    exists k :: 0 <= k < j && s.events.items[s.events.keys[k]].name == x
  }

  /** `x` names an event of one of the first `i` states, in declaration order. */
  ghost predicate InFirstStates(c: Context, i: nat, x: string)
    requires Dicts.Valid(c.states) && i <= |c.states.keys|
  {
    exists k, e :: 0 <= k < i && e in c.states.items[c.states.keys[k]].events.items
      && c.states.items[c.states.keys[k]].events.items[e].name == x
  }

  lemma AmongAll(s: PState, x: string)
    requires Dicts.Valid(s.events)
    ensures AmongFirst(s, |s.events.keys|, x) <==> exists e :: e in s.events.items && s.events.items[e].name == x
  {
    if exists e :: e in s.events.items && s.events.items[e].name == x {
      var e :| e in s.events.items && s.events.items[e].name == x;
      var k :| 0 <= k < |s.events.keys| && s.events.keys[k] == e;
    }
  }

  lemma InFirstStatesNext(c: Context, i: nat, x: string)
    requires Dicts.Valid(c.states) && i < |c.states.keys|
    requires Dicts.Valid(c.states.items[c.states.keys[i]].events)
    ensures InFirstStates(c, i + 1, x) <==>
      InFirstStates(c, i, x) || AmongFirst(c.states.items[c.states.keys[i]], |c.states.items[c.states.keys[i]].events.keys|, x)
  {
    var s := c.states.items[c.states.keys[i]];
    AmongAll(s, x);
    if InFirstStates(c, i + 1, x) && !InFirstStates(c, i, x) {
      var k, e :| 0 <= k < i + 1 && e in c.states.items[c.states.keys[k]].events.items
        && c.states.items[c.states.keys[k]].events.items[e].name == x;
      assert k == i;
    }
    if AmongFirst(s, |s.events.keys|, x) {
      var e :| e in s.events.items && s.events.items[e].name == x;
      assert 0 <= i < i + 1 && e in c.states.items[c.states.keys[i]].events.items;
    }
  }

  lemma InAllStates(c: Context, x: string)
    requires Dicts.Valid(c.states)
    ensures InFirstStates(c, |c.states.keys|, x) <==> x in Events(c)
  {
    if x in Events(c) {
      var n, e :| n in c.states.items && e in c.states.items[n].events.items && c.states.items[n].events.items[e].name == x;
      var k :| 0 <= k < |c.states.keys| && c.states.keys[k] == n;
    }
  }

  /** The loop of `Context.events`, keeping each name once. */
  method CollectEvents(c: Context) returns (names: seq<string>)
    requires Dicts.Valid(c.states)
    requires forall n :: n in c.states.items ==> Dicts.Valid(c.states.items[n].events)
    ensures NoDup(names)
    ensures forall x :: x in names <==> x in Events(c)
  {
    names := [];
    var i := 0;
    while i < |c.states.keys|
      invariant 0 <= i <= |c.states.keys|
      invariant NoDup(names)
      invariant forall x :: x in names <==> InFirstStates(c, i, x)
    {
      var s := c.states.items[c.states.keys[i]];
      var j := 0;
      while j < |s.events.keys|
        invariant 0 <= j <= |s.events.keys|
        invariant NoDup(names)
        invariant forall x :: x in names <==> InFirstStates(c, i, x) || AmongFirst(s, j, x)
      {
        var name := s.events.items[s.events.keys[j]].name;
        if name !in names {
          names := names + [name];
        }
        assert forall x :: AmongFirst(s, j + 1, x) <==> AmongFirst(s, j, x) || x == name;
        j := j + 1;
      }
      forall x
        ensures InFirstStates(c, i + 1, x) <==> InFirstStates(c, i, x) || AmongFirst(s, j, x)
      {
        InFirstStatesNext(c, i, x);
      }
      i := i + 1;
    }
    forall x
      ensures InFirstStates(c, i, x) <==> x in Events(c)
    {
      InAllStates(c, x);
    }
  }
}
