/** `Parser.parse` of fsm/parser.py: the line driver that feeds a description to the grammar
    machine. Every non-empty line is split at its first space into a keyword and the rest;
    the rest becomes the context's current line, and the lower-cased keyword is handled by
    the grammar, whose actions are the directives. A keyword the grammar does not expect where
    it stands is an error naming the keyword as written. The lines are those left after
    comments are stripped, numbered from 1. */
module Parsing {
  import opened Base
  import opened Text
  import opened Engine
  import opened Directives
  import opened Grammar
  import Loop

  /** `Parser`: the grammar machine and the context its actions fill in. */
  datatype Parser = Parser(fsm: Machine<Directive>, ctx: Context)

  /** The cursors a position relies on: after STATE, ENTER or EXIT there is a state being
      described, after EVENT or ACTION also an event. */
  predicate CursorsAt(pos: string, c: Context) {
    && (pos == InState ==> c.state.Some?)
    && (pos == InEvent ==> c.state.Some? && c.event.Some?)
  }

  /** What holds between lines: the grammar sits at one of its positions, the context is
      consistent and holds the cursors that position relies on. */
  ghost predicate Ready(p: Parser) {
    && p.fsm.current.Some? && p.fsm.current.value in Positions
    && p.fsm == At(p.fsm.current.value)
    && Directives.Valid(p.ctx)
    && CursorsAt(p.fsm.current.value, p.ctx)
  }

  /** A parser between lines. */
  type Live = p: Parser | Ready(p) witness Start()

  /** `Parser()`: a fresh context and the grammar set to `init`. */
  function Start(): (p: Parser)
    ensures Ready(p)
    ensures p.fsm.current == Some(Init) && p.ctx == Fresh()
  {
    PositionsKeys();
    Parser(At(Init), Fresh())
  }

  /** What the reference grammar makes of one keyword keeps the parser consistent: nothing is
      left to a further lookup, a directive that fails never lacks a cursor and reports the
      current line, and a handled keyword leaves a consistent context holding the cursors of
      its new position, with every state declared so far still declared in order. */
  lemma TurnKeepsReady(pos: string, kw: string, c: Context, resolve: Resolver)
    requires pos in Positions
    requires Directives.Valid(c) && CursorsAt(pos, c)
    ensures var e := Expected(pos, kw, c, resolve);
      && !e.status.OutOfFuel?
      && (e.status.Done? ==>
            && Directives.Valid(e.ctx) && CursorsAt(e.pos, e.ctx)
            && c.states.keys <= e.ctx.states.keys
            && e.ctx.line == c.line && e.ctx.lineNum == c.lineNum)
      && (e.status.Failed? ==>
            && !e.status.error.NoCursor?
            && (!e.status.error.Unresolved? ==> e.status.error.line == c.lineNum))
  {
    if kw != "" && kw in Legal(pos) && Runs(kw).Some? {
      DirectiveKeepsReady(pos, kw, c, resolve);
    }
  }

  lemma DirectiveKeepsReady(pos: string, kw: string, c: Context, resolve: Resolver)
    requires kw in Legal(pos) && Runs(kw).Some?
    requires Directives.Valid(c) && CursorsAt(pos, c)
    ensures var r := Apply(Runs(kw).value, c, resolve);
      && (r.Ok? ==> CursorsAt(if Moves(kw) then kw else pos, r.value))
      && (r.Err? ==> !r.error.NoCursor?)
  {
    var d := Runs(kw).value;
    assert d == EnterDirective || d == ExitDirective || d == EventDirective ==> pos == InState || pos == InEvent;
    assert d == ActionDirective ==> pos == InEvent;
  }

  /** Handling a keyword at the parser's position, with the rest of the line and its number
      set in the context first. */
  lemma HandleKeepsReady(p: Parser, kw: string, rest: string, num: nat, resolve: Resolver)
    requires Ready(p)
    ensures var c := p.ctx.(line := rest, lineNum := num);
      var run := Handle(p.fsm, c, Some(kw), Interp(resolve), 1);
      && !run.status.OutOfFuel?
      && (run.status.Done? ==> Ready(Parser(run.machine, run.world)) && p.ctx.states.keys <= run.world.states.keys)
      && (run.status.Failed? ==>
            && !run.status.error.NoCursor?
            && (!run.status.error.Unresolved? ==> run.status.error.line == num))
  {
    var pos := p.fsm.current.value;
    var c := p.ctx.(line := rest, lineNum := num);
    assert Directives.Valid(c);
    HandleIsExpected(pos, kw, c, resolve, 1);
    TurnKeepsReady(pos, kw, c, resolve);
  }

  /** One line of `parse`. */
  function Step(p: Live, line: string, num: nat, resolve: Resolver): (r: Result<Live, ParseError>)
    ensures r.Ok? ==> Extends(p, r.value)
    ensures r.Err? ==> Reported(r.error, num)
  {
    if line == "" then Ok(p)
    else
      var split := SplitAtSpace(line);
      var kw := split.0;
      if split.1.None? then Err(TooFewTokens(kw, num))
      else
        HandleKeepsReady(p, Lower(kw), split.1.value, num, resolve);
        var run := Handle(p.fsm, p.ctx.(line := split.1.value, lineNum := num), Some(Lower(kw)), Interp(resolve), 1);
        if run.status.Failed? then Err(run.status.error)
        else if run.status.handled then Ok(Parser(run.machine, run.world))
        else Err(UnexpectedDirective(kw, num))
  }

  /** Every state declared before is still declared, in the same order and ahead of any new
      one. */
  predicate Extends(p: Live, q: Live) {
    p.ctx.states.keys <= q.ctx.states.keys
  }

  /** An error that is never a missing cursor and that, unless it is about an import, names
      line `num`. */
  predicate Reported(e: ParseError, num: nat) {
    !e.NoCursor? && (e.Unresolved? || e.line == num)
  }

  function Stepper(resolve: Resolver): (Live, string, nat) -> Result<Live, ParseError> {
    (p, line, num) => Step(p, line, num, resolve)
  }

  /** The loop of `parse` from line number `num` on. */
  function ParseFrom(p: Live, lines: seq<string>, num: nat, resolve: Resolver): (r: Result<Live, ParseError>)
    ensures r.Ok? ==> Extends(p, r.value)
    ensures r.Err? ==> !r.error.NoCursor?
    ensures r.Err? && !r.error.Unresolved? ==> num <= r.error.line < num + |lines|
  {
    Loop.FoldKeeps(Stepper(resolve), Extends, p, lines, num);
    Loop.FoldErr(Stepper(resolve), Reported, p, lines, num);
    Loop.Fold(Stepper(resolve), p, lines, num)
  }

  /** `Parser.parse(lines)`: the lines numbered from 1. */
  function Parse(lines: seq<string>, resolve: Resolver): (r: Result<Live, ParseError>)
    ensures r.Err? ==> !r.error.NoCursor?
    ensures r.Err? && !r.error.Unresolved? ==> 1 <= r.error.line <= |lines|
  {
    ParseFrom(Start(), lines, 1, resolve)
  }

  /** Parsing stops at the first error: lines after a failing line are never looked at, and
      parsing a description in two pieces is parsing it at once. */
  lemma ParseAppend(p: Live, a: seq<string>, b: seq<string>, num: nat, resolve: Resolver)
    ensures ParseFrom(p, a + b, num, resolve) ==
      match ParseFrom(p, a, num, resolve)
      case Err(e) => Err(e)
      case Ok(q) => ParseFrom(q, b, num + |a|, resolve)
  {
    Loop.FoldAppend(Stepper(resolve), p, a, b, num);
  }

  /** Once a state is declared it stays the first state: every later line keeps the states
      declared so far, in order, and the first state is the first of them. */
  lemma FirstStateKept(p: Live, lines: seq<string>, num: nat, resolve: Resolver)
    requires p.ctx.firstState.Some?
    ensures ParseFrom(p, lines, num, resolve).Ok? ==> ParseFrom(p, lines, num, resolve).value.ctx.firstState == p.ctx.firstState
  {
    var r := ParseFrom(p, lines, num, resolve);
    if r.Ok? {
      assert p.ctx.states.keys[0] == r.value.ctx.states.keys[0];
    }
  }

  /** What one line `keyword rest` does is what the grammar makes of the lower-cased keyword
      at the parser's position, once the context's current line is `rest` and its line
      number `num`: a keyword unexpected there raises UnexpectedDirective with the keyword as
      written, an error of a directive propagates unchanged, and a handled keyword leaves the
      grammar at its new position with the context the directive produced. */
  lemma StepIsExpected(p: Live, kw: string, rest: string, num: nat, resolve: Resolver)
    requires kw != "" && ' ' !in kw
    ensures var c := p.ctx.(line := rest, lineNum := num);
      var e := Expected(p.fsm.current.value, Lower(kw), c, resolve);
      var r := Step(p, kw + " " + rest, num, resolve);
      && (e.status == Done(false) ==> r == Err(UnexpectedDirective(kw, num)))
      && (e.status.Failed? ==> r == Err(e.status.error))
      && (e.status == Done(true) ==> r.Ok? && e.pos in Positions && r.value.fsm == At(e.pos) && r.value.ctx == e.ctx)
  {
    SplitKeyword(kw, rest);
    var c := p.ctx.(line := rest, lineNum := num);
    HandleIsExpected(p.fsm.current.value, Lower(kw), c, resolve, 1);
  }

  /** `if not line: continue`: an empty line changes nothing. */
  lemma BlankLine(p: Live, num: nat, resolve: Resolver)
    ensures Step(p, "", num, resolve) == Ok(p)
  {
  }

  /** The first line of a description is the first step, from a fresh parser; the rest is
      parsed from what it left, numbered from 2. */
  lemma ParseFirst(line: string, more: seq<string>, resolve: Resolver)
    ensures Parse([line] + more, resolve) ==
      match Step(Start(), line, 1, resolve)
      case Err(e) => Err(e)
      case Ok(q) => ParseFrom(q, more, 2, resolve)
  {
    ParseAppend(Start(), [line], more, 1, resolve);
    assert [line][1..] == [];
  }

  /** A description whose first keyword, lower-cased, is not STATE is rejected on line 1 with
      UnexpectedDirective naming the keyword as written. */
  lemma UnexpectedFirst(kw: string, rest: string, more: seq<string>, resolve: Resolver)
    requires kw != "" && ' ' !in kw && Lower(kw) != InState
    ensures Parse([kw + " " + rest] + more, resolve) == Err(UnexpectedDirective(kw, 1))
  {
    ParseFirst(kw + " " + rest, more, resolve);
    StepIsExpected(Start(), kw, rest, 1, resolve);
  }

  /** A description whose first line is a lone keyword is rejected on line 1 with
      TooFewTokens naming the line. */
  lemma TooFewFirst(line: string, more: seq<string>, resolve: Resolver)
    requires line != [] && ' ' !in line
    ensures Parse([line] + more, resolve) == Err(TooFewTokens(line, 1))
  {
    ParseFirst(line, more, resolve);
    NoSpace(Start(), line, 1, resolve);
  }

  /** The rejection `test_too_few_tokens` expects of the description `FOO`. */
  lemma LoneKeywordRejected(resolve: Resolver)
    ensures Parse(["FOO"], resolve) == Err(TooFewTokens("FOO", 1))
  {
    assert ["FOO"] == ["FOO"] + [];
    TooFewFirst("FOO", [], resolve);
  }

  /** The rejection `test_unexpected_directive` expects of the description `FOO bar`. */
  lemma UnknownKeywordRejected(resolve: Resolver)
    ensures Parse(["FOO bar"], resolve) == Err(UnexpectedDirective("FOO", 1))
  {
    assert "FOO bar" == "FOO" + " " + "bar";
    assert ["FOO bar"] == ["FOO" + " " + "bar"] + [];
    assert Lower("FOO")[0] == 'f';
    UnexpectedFirst("FOO", "bar", [], resolve);
  }

  /** A line starting with a space has the empty keyword, which `handle` treats as no event:
      the line is accepted and does nothing but become the current line. */
  lemma LeadingSpace(p: Live, line: string, num: nat, resolve: Resolver)
    requires line != [] && line[0] == ' '
    ensures Step(p, line, num, resolve) == Ok(p.(ctx := p.ctx.(line := line[1..], lineNum := num)))
  {
    assert Lower("") == "";
  }

  /** A non-empty line without a space has no text after its keyword. */
  lemma NoSpace(p: Live, line: string, num: nat, resolve: Resolver)
    requires line != [] && ' ' !in line
    ensures Step(p, line, num, resolve) == Err(TooFewTokens(line, num))
  {
  }
}
