/** The grammar of the description language, fsm/fsm_machine.py: a machine of the engine
    whose states are positions in a description and whose events are the lower-cased
    directive keywords. Its actions are the directives' semantic actions, run on the
    `Context` as the world; they return nothing, so every dispatch is a single lookup. */
module Grammar {
  import opened Base
  import opened Engine
  import opened Directives
  import EngineFacts

  const Init := "init"
  const InState := "state"
  const InEvent := "event"
  const InContext := "context"
  const InHandler := "handler"
  const Error := "error"

  /** `EVENT(name, [], S_<name>)`: a keyword that moves to the position of the same name. */
  function Go(name: string): Event<Directive> {
    Event(name, [], Some(name))
  }

  /** `EVENT(name, [act])`: a keyword that runs a directive and stays where it is. */
  function Stay(name: string, d: Directive): Event<Directive> {
    Event(name, [d], None)
  }

  const InitEvents: map<string, Event<Directive>> := map[InState := Go(InState)]

  const StateEvents: map<string, Event<Directive>> := map[
    Error := Go(Error),
    "enter" := Stay("enter", EnterDirective),
    "exit" := Stay("exit", ExitDirective),
    InEvent := Go(InEvent),
    InState := Go(InState),
    InContext := Go(InContext),
    InHandler := Go(InHandler)]

  const EventEvents: map<string, Event<Directive>> := map[
    Error := Go(Error),
    "action" := Stay("action", ActionDirective),
    InEvent := Go(InEvent),
    InState := Go(InState),
    InContext := Go(InContext),
    InHandler := Go(InHandler)]

  const HandlerEvents: map<string, Event<Directive>> := map[InHandler := Go(InHandler)]

  /** The six `STATE`s of `create`, in the order they are passed to `FSM`. */
  function Table(): seq<State<Directive>> {
    [ State(Init, None, None, InitEvents),
      State(InState, Some(StateDirective), None, StateEvents),
      State(InEvent, Some(EventDirective), None, EventEvents),
      State(InContext, Some(ContextDirective), None, HandlerEvents),
      State(InHandler, Some(HandlerDirective), None, HandlerEvents),
      State(Error, None, None, map[]) ]
  }

  /** The states of the table keyed by their names. */
  const Positions: map<string, State<Directive>> := map[
    Init := Table()[0], InState := Table()[1], InEvent := Table()[2],
    InContext := Table()[3], InHandler := Table()[4], Error := Table()[5]]

  lemma PositionsKeys()
    ensures Positions.Keys == {Init, InState, InEvent, InContext, InHandler, Error}
  {
  }

  lemma PositionsNamed()
    ensures Named(Positions)
  {
  }

  lemma PositionsClosed()
    ensures Closed(Positions)
  {
  }

  /** `create(...)`: the grammar machine, no position assigned yet. */
  function Create(): (m: Machine<Directive>)
    ensures Named(m.states) && Closed(m.states)
    ensures m.states.Keys == {Init, InState, InEvent, InContext, InHandler, Error}
    ensures m.current.None? && m.hooks == NoHooks
  {
    PositionsKeys();
    PositionsNamed();
    PositionsClosed();
    Machine(Positions, None, NoHooks)
  }

  lemma NewStep<A>(t: seq<State<A>>, k: nat)
    requires k < |t|
    ensures New(t[..k + 1]) == New(t[..k]).(states := New(t[..k]).states[t[k].name := t[k]])
  {
    assert t[..k + 1][..k] == t[..k];
  }

  /** The machine is what `FSM` makes of the table: each state keyed by its name. */
  lemma CreateIsNew()
    ensures New(Table()) == Create()
  {
    var t := Table();
    assert t[..0] == [];
    NewStep(t, 0);
    NewStep(t, 1);
    NewStep(t, 2);
    NewStep(t, 3);
    NewStep(t, 4);
    NewStep(t, 5);
    assert t[..6] == t;
  }

  /** The keywords legal at each position of a description. */
  function Legal(pos: string): set<string> {
    if pos == Init then {InState}
    else if pos == InState then {Error, "enter", "exit", InEvent, InState, InContext, InHandler}
    else if pos == InEvent then {Error, "action", InEvent, InState, InContext, InHandler}
    else if pos == InContext || pos == InHandler then {InHandler}
    else {}
  }

  /** The directive a keyword runs; `error` runs none. */
  function Runs(kw: string): Option<Directive> {
    if kw == InState then Some(StateDirective)
    else if kw == "enter" then Some(EnterDirective)
    else if kw == "exit" then Some(ExitDirective)
    else if kw == InEvent then Some(EventDirective)
    else if kw == "action" then Some(ActionDirective)
    else if kw == InContext then Some(ContextDirective)
    else if kw == InHandler then Some(HandlerDirective)
    else None
  }

  /** ENTER, EXIT and ACTION run their directive in place; every other keyword moves to the
      position of its own name. */
  predicate Moves(kw: string) {
    kw != "enter" && kw != "exit" && kw != "action"
  }

  /** The table agrees with the reference above: a position's events are exactly its legal
      keywords, a moving keyword goes to the position of its name whose enter action is the
      keyword's directive, a staying keyword runs its directive, and no position has a
      `default` event to fall back on. */
  lemma TableIsLegal(pos: string, kw: string)
    requires pos in Positions
    ensures kw in Positions[pos].events <==> kw in Legal(pos)
    ensures DEFAULT !in Positions[pos].events
    ensures Positions[pos].exit.None?
    ensures kw in Legal(pos) && !Moves(kw) ==>
      Runs(kw).Some? && Positions[pos].events[kw] == Stay(kw, Runs(kw).value)
    ensures kw in Legal(pos) && Moves(kw) ==>
      Positions[pos].events[kw] == Go(kw) && kw in Positions && Positions[kw].enter == Runs(kw)
  {
    PositionsKeys();
    if pos == Init {
      assert Positions[pos] == Table()[0];
    } else if pos == InState {
      assert Positions[pos] == Table()[1];
    } else if pos == InEvent {
      assert Positions[pos] == Table()[2];
    } else if pos == InContext {
      assert Positions[pos] == Table()[3];
    } else if pos == InHandler {
      assert Positions[pos] == Table()[4];
    } else {
      assert Positions[pos] == Table()[5];
    }
  }

  /** A directive's act as an action of the engine: it returns nothing, and an error leaves
      the context as it was before the call. */
  function Perform(resolve: Resolver, d: Directive, c: Context): (o: Outcome<Context, ParseError>)
    ensures o.Returned? <==> Apply(d, c, resolve).Ok?
    ensures o.Returned? ==> o.value.None? && o.world == Apply(d, c, resolve).value
    ensures o.Raised? ==> o.world == c && o.error == Apply(d, c, resolve).error
  {
    match Apply(d, c, resolve)
    case Ok(c2) => Returned(c2, None)
    case Err(e) => Raised(c, e)
  }

  function Interp(resolve: Resolver): (Directive, Context) -> Outcome<Context, ParseError> {
    (d, c) => Perform(resolve, d, c)
  }

  /** The grammar machine at a given position. */
  function At(pos: string): (m: Machine<Directive>)
    requires pos in Positions
    ensures WellFormed(m) && m.hooks == NoHooks
  {
    Create().(current := Some(pos))
  }

  /** The effect of one keyword, by the reference grammar: a keyword not legal where it
      stands is unhandled and changes nothing; a legal one moves to its target and runs its
      directive once, an error of the directive propagating out with the context as it was. */
  datatype Turn = Turn(status: Status<ParseError>, pos: string, ctx: Context)

  function Expected(pos: string, kw: string, c: Context, resolve: Resolver): Turn {
    if kw == "" then Turn(Done(true), pos, c)
    else if kw !in Legal(pos) then Turn(Done(false), pos, c)
    else
      var target := if Moves(kw) then kw else pos;
      match Runs(kw)
      case None => Turn(Done(true), target, c)
      case Some(d) =>
        match Apply(d, c, resolve)
        case Ok(c2) => Turn(Done(true), target, c2)
        case Err(e) => Turn(Failed(e), target, c)
  }

  /** One action run alone: what `Perform` made of it. */
  lemma RunOne(m: Machine<Directive>, c: Context, d: Directive, resolve: Resolver)
    ensures var s := RunActions(m, c, [d], Interp(resolve), None);
      s.machine == m && s.next.None? &&
      (s.raised.None? <==> Apply(d, c, resolve).Ok?) &&
      (s.raised.None? ==> s.world == Apply(d, c, resolve).value) &&
      (s.raised.Some? ==> s.world == c && s.raised.value == Apply(d, c, resolve).error)
  {
    var I := Interp(resolve);
    var o := Perform(resolve, d, c);
    assert I(d, c) == o;
    var first := Invoke(m, c, d, I, None);
    assert first.raised.None? ==> first.next.None?;
    assert [d][1..] == [];
    assert first.raised.None? ==> RunActions(m, first.world, [d][1..], I, first.next).next.None?;
  }

  lemma FireStay(m: Machine<Directive>, c: Context, kw: string, d: Directive, resolve: Resolver)
    requires WellFormed(m)
    ensures Fire(m, c, Stay(kw, d), Interp(resolve)) == RunActions(m, c, [d], Interp(resolve), None)
  {
  }

  lemma FireGo(m: Machine<Directive>, c: Context, kw: string, resolve: Resolver)
    requires WellFormed(m) && kw in m.states
    requires Current(m).exit.None? && !m.hooks.stateChange
    ensures var s := Fire(m, c, Go(kw), Interp(resolve));
      var moved := m.(current := Some(kw));
      s == CallHook(moved, c, m.states[kw].enter, Interp(resolve), None)
  {
    var I := Interp(resolve);
    var moved := m.(current := Some(kw));
    var en := CallHook(moved, c, m.states[kw].enter, I, None);
    assert [] + [] + [] + en.log == en.log;
  }

  /** An optional hook called alone: what `Perform` made of it. */
  lemma HookOne(m: Machine<Directive>, c: Context, h: Option<Directive>, resolve: Resolver)
    ensures var s := CallHook(m, c, h, Interp(resolve), None);
      s.machine == m && s.next.None? &&
      (s.raised.None? <==> h.None? || Apply(h.value, c, resolve).Ok?) &&
      (s.raised.None? ==> s.world == if h.None? then c else Apply(h.value, c, resolve).value) &&
      (s.raised.Some? ==> s.world == c && s.raised.value == Apply(h.value, c, resolve).error)
  {
    if h.Some? {
      assert Interp(resolve)(h.value, c) == Perform(resolve, h.value, c);
    }
  }

  /** A dispatch whose one matched event returns nothing ends after that event. */
  lemma HandleOnce<A, W, E>(m: Machine<A>, w: W, kw: string, interp: (A, W) -> Outcome<W, E>, fuel: nat)
    requires WellFormed(m) && kw != "" && fuel > 0
    requires Lookup(Current(m), kw).Some?
    requires m.hooks == NoHooks
    ensures var r := Handle(m, w, Some(kw), interp, fuel);
      var s := Fire(m, w, Lookup(Current(m), kw).value.0, interp);
      (s.raised.Some? ==> r.status == Failed(s.raised.value) && r.machine == s.machine && r.world == s.world) &&
      (s.raised.None? && s.next.None? ==> r.status == Done(true) && r.machine == s.machine && r.world == s.world)
  {
    var s := Fire(m, w, Lookup(Current(m), kw).value.0, interp);
    if s.raised.Some? {
      EngineFacts.DispatchRaise(m, w, Some(kw), false, interp, fuel);
    } else {
      EngineFacts.DispatchCont(m, w, Some(kw), false, interp, fuel);
    }
  }

  /** Handling one keyword at a position does what the reference grammar says: the status,
      the position afterwards and the context all agree with `Expected`. */
  lemma HandleIsExpected(pos: string, kw: string, c: Context, resolve: Resolver, fuel: nat)
    requires pos in Positions
    requires fuel >= 1
    ensures var r := Handle(At(pos), c, Some(kw), Interp(resolve), fuel);
      var e := Expected(pos, kw, c, resolve);
      e.pos in Positions && r.status == e.status && r.machine == At(e.pos) && r.world == e.ctx
  {
    var m := At(pos);
    var I := Interp(resolve);
    TableIsLegal(pos, kw);
    if kw == "" {
    } else if kw !in Legal(pos) {
      EngineFacts.DispatchMiss(m, c, Some(kw), false, I, fuel);
    } else {
      var ev := Positions[pos].events[kw];
      assert Lookup(Current(m), kw) == Some((ev, false));
      HandleOnce(m, c, kw, I, fuel);
      if Moves(kw) {
        FireGo(m, c, kw, resolve);
        HookOne(m.(current := Some(kw)), c, Positions[kw].enter, resolve);
      } else {
        FireStay(m, c, kw, Runs(kw).value, resolve);
        RunOne(m, c, Runs(kw).value, resolve);
      }
    }
  }

  /** A description must open with STATE: at `init` every other keyword is unexpected and
      changes nothing. */
  lemma FirstMustBeState(kw: string, c: Context, resolve: Resolver, fuel: nat)
    requires kw != "" && fuel >= 1
    ensures var r := Handle(At(Init), c, Some(kw), Interp(resolve), fuel);
      (r.status == Done(false) <==> kw != InState) &&
      (kw != InState ==> r.machine == At(Init) && r.world == c)
  {
    HandleIsExpected(Init, kw, c, resolve, fuel);
    var e := Expected(Init, kw, c, resolve);
    if kw == InState {
      assert e.status != Done(false);
    }
  }

  /** Nothing leaves the `error` position, and nothing there touches the context. */
  lemma ErrorIsSink(kw: string, c: Context, resolve: Resolver, fuel: nat)
    requires kw != "" && fuel >= 1
    ensures var r := Handle(At(Error), c, Some(kw), Interp(resolve), fuel);
      r.status == Done(false) && r.machine == At(Error) && r.world == c
  {
    HandleIsExpected(Error, kw, c, resolve, fuel);
  }

  /** After CONTEXT or HANDLER only HANDLER is accepted. */
  lemma HandlersOnly(pos: string, kw: string, c: Context, resolve: Resolver, fuel: nat)
    requires pos == InContext || pos == InHandler
    requires kw != "" && fuel >= 1
    ensures var r := Handle(At(pos), c, Some(kw), Interp(resolve), fuel);
      (r.status == Done(false) <==> kw != InHandler) &&
      (kw == InHandler ==> r.machine == At(InHandler))
  {
    HandleIsExpected(pos, kw, c, resolve, fuel);
    assert Legal(pos) == {InHandler};
    var e := Expected(pos, kw, c, resolve);
    if kw == InHandler {
      assert Moves(kw) && Runs(kw) == Some(HandlerDirective);
      assert e.pos == InHandler && e.status != Done(false);
    }
  }
}
