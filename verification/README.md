# fsm: the dispatch engine and the description-language parser

This project models, in Dafny, the core of the `fsm` package: a small table-driven finite
state machine and the parser of its description language. The parser is itself one of
those machines.

- **Engine** (`fsm/FSM.py`), module `Engine`.
  - `STATE`, `EVENT` and `FSM` are immutable datatypes.
  - The engine is generic over opaque action identifiers `A`, a world `W` threaded through
    the action calls, and an exception type `E`.
  - A caller-supplied interpretation says what calling an action does: it returns an
    optional next event or raises.
  - Calls to `trace`, `undefined` and `on_state_change`, and to the actions, are recorded
    in order in a log.
  - `handle` is a recursion bounded by a number of lookups. Running out of that bound is
    reported apart from returning True, returning False and raising.
  - `EngineFacts` holds the ordering and flag properties of `handle` and `_handle`.
- **Grammar** (`fsm/fsm_machine.py`), module `Grammar`.
  - The fixed table of six positions, as a machine of the engine.
  - Its actions are the directives.
- **Directives** (`fsm/actions.py`), module `Directives`.
  - The `Context` accumulator.
  - `add_action` and `events`.
  - One function per `act_*`, returning the updated context or the exception raised.
  - Helper modules:
    - `Dicts` models Python's insertion-ordered `dict`.
    - `Text` models `str.split()`, `str.split(' ', 1)`, `lower()` and the order `sorted()`
      uses.
- **Parser** (`fsm/parser.py`):
  - `Parsing`: `Parser()` and `Parser.parse`. The line loop is the generic fold of `Loop`.
  - `Builder`: `Parser.build`.
  - `Dump`: the `_define` and `_set_events` fragments, each with a reader that recovers
    what was written.

`import_by_path` is a parameter, a `Resolver` that either finds a `Symbol` or fails. The
lines given to `parse` are the lines `un_comment` yields, with comments and surrounding
whitespace stripped, numbered from 1. Exceptions
are those the code raises: a failed import is `Unresolved` and a missing callable in `build`
is the KeyError `MissingAction`.

## Model

| member | source | states |
|---|---|---|
| Engine.New | fsm/FSM.py:29-36 | the name of every state passed in is a key, every key holds a state passed in, stored under its own name, and the machine starts with no current state and no hooks |
| Engine.NewKeepsLast | fsm/FSM.py:31-32 | a name given twice keeps the state that comes last in the list |
| Engine.SetState | fsm/FSM.py:42-44 | assigning `state` succeeds exactly when the name is declared, and reading it back then gives that name; an undeclared name fails with that name (the KeyError) and nothing else changes |
| Engine.Lookup | fsm/FSM.py:72-82 | an exact match wins over the state's `default` event; the fallback flag is set exactly when the name is absent; no handler exactly when neither the name nor `default` is present |
| Engine.Fire | fsm/FSM.py:46-63 | one `_handle` step keeps the machine well formed, never changes the table or the hooks, and a raise is the last call logged |
| Engine.Dispatch | fsm/FSM.py:65-98 | the loop keeps the machine well formed, leaves table and hooks alone, ends a raise on the raising call, and a False result with `undefined` set ends on the undefined call for the final current state |
| Engine.Handle | fsm/FSM.py:65-98 | a falsy event returns True at once, with no call, no hook and no state change |
| EngineFacts.RunActionsOrder | fsm/FSM.py:49-50 | the actions run in declared order, one call each; a raise stops the list at a prefix; the continuation is the last action's return value, or what it was before when the list is empty |
| EngineFacts.HookOrder | fsm/FSM.py:52-61 | an optional hook is called once when set and not at all otherwise, and its return value replaces the continuation |
| EngineFacts.FireOrder | fsm/FSM.py:46-63 | without a next state only the actions run and the machine is unchanged; with one, the order is actions, old exit, `on_state_change(new, old)`, switch, new enter (self-transitions included); the continuation is the last callable's value, even a later `None`; no lookup hook is called |
| EngineFacts.FireNoLookups | fsm/FSM.py:46-63 | `_handle` never calls `trace` |
| EngineFacts.InternalFlag | fsm/FSM.py:66-96 | of the trace calls of one loop, the first carries the caller's flag and every later one True |
| EngineFacts.HandleInternalFlag | fsm/FSM.py:65-98 | as `handle` is called, the trace calls report `is_internal` False for the first lookup and True for every later one, and the `undefined` call reports it False exactly when the caller's own event found no handler, whether or not `trace` is set |
| EngineFacts.LookupsReported | fsm/FSM.py:69-92 | over a whole loop, every `trace` call names a declared state and reports `is_default` exactly when the event is missing there and `default` is present; every `undefined` call names a declared state lacking both, with `is_default` False and `is_internal` False only for the first lookup of a call with `is_internal` False |
| EngineFacts.HandledIsQuiet | fsm/FSM.py:88-98 | when `handle` returns True, no lookup failed and nothing raised on the way |
| EngineFacts.UnhandledStopsInPlace | fsm/FSM.py:80-92 | a False result ends on `undefined` for the state the machine is left in, which has neither the event nor `default`, right after the trace of that same lookup, reported as no fallback |
| EngineFacts.FuelMonotone | fsm/FSM.py:68-96 | the lookup bound only cuts a chain short: a run that finishes within a bound gives the same run under any larger one |
| Grammar.Create | fsm/fsm_machine.py:9-22 | the grammar machine has exactly the positions init, state, event, context, handler and error, each stored under its name, closed under next states, not yet placed |
| Grammar.CreateIsNew | fsm/fsm_machine.py:22 | the grammar is what `FSM(...)` makes of the six `STATE`s of `create` |
| Grammar.TableIsLegal | fsm/fsm_machine.py:16-21 | at each position the legal keywords are exactly those listed; `enter`, `exit` and `action` run their directive and stay; every other keyword moves to the position of its own name, whose enter hook is the directive |
| Grammar.HandleIsExpected | fsm/fsm_machine.py:10-21 | handling a keyword at a position runs the matching directive exactly once, lands on the position the table names, and returns False for an illegal keyword without running anything |
| Grammar.FirstMustBeState | fsm/fsm_machine.py:16 | from `init` only `state` is legal |
| Grammar.ErrorIsSink | fsm/fsm_machine.py:21 | `error` has no events: every later keyword is unhandled and changes nothing |
| Grammar.HandlersOnly | fsm/fsm_machine.py:19-20 | after CONTEXT or HANDLER only `handler` is legal |
| Directives.Fresh | fsm/actions.py:59-69 | a new context has no states, no first state, no actions, no context and no handlers, and is consistent |
| Directives.AddAction | fsm/actions.py:71-74 | the list holds the old names and the new one, stays sorted and duplicate-free, and is unchanged for a known name |
| Directives.AddActionIsSorted | fsm/actions.py:71-74 | the result is the one sorted duplicate-free list of those names, i.e. `sorted(actions + [name])` |
| Directives.ActState | fsm/actions.py:85-95 | succeeds exactly with one token naming an undeclared state; the state is appended and becomes current, the first state is set only the first time; otherwise ExtraToken or DuplicateName for the line |
| Directives.ActHook | fsm/actions.py:98-117 | ENTER/EXIT succeed exactly with one token, a current state and that hook unset; the hook is set, the other fields stay, the name is added with `add_action`; otherwise ExtraToken, the missing cursor or DuplicateDirective |
| Directives.ActEvent | fsm/actions.py:120-130 | EVENT succeeds exactly with one or two tokens and a current state, else ExtraToken with 'one or two'; the new event, with its optional next state and no actions, is stored in the current state, an event of the same name is replaced in its place without complaint, and it becomes the current event |
| Directives.ActAction | fsm/actions.py:133-141 | ACTION succeeds exactly with one token not already in the current event; it is appended at the end and added with `add_action`; otherwise ExtraToken, the missing cursor or DuplicateName |
| Directives.ActContext | fsm/actions.py:144-149 | CONTEXT succeeds exactly with one token, no context yet and a path that resolves; the whole rest of the line is the path |
| Directives.ActHandler | fsm/actions.py:152-163 | HANDLER succeeds exactly with two tokens, a new short name and a path that resolves; fewer tokens are TooFewTokens, more are ExtraToken, a known name is DuplicateName |
| Directives.ActHandlerAsWritten | fsm/actions.py:152-158 | a line with no token fails unpacking `name, path = args`; any other line behaves as `ActHandler` |
| Directives.HandlerEmptyLine | fsm/actions.py:152-158 | on an empty HANDLER line the code as written raises the unpacking error where the corrected function reports TooFewTokens |
| Directives.Apply | fsm/actions.py:85-163 | every directive keeps the context consistent (sorted actions, first state the first declared, every referenced name registered), keeps the states declared and the first state, and reports errors for the current line |
| Directives.CollectEvents | fsm/actions.py:76-82 | `events` lists each event name of every declared state, and only those, once |
| Directives.InAllStates | fsm/actions.py:79-81 | the nested loop over states and their events visits exactly the event names of the declared states |
| Dicts.Put | fsm/actions.py:130 | storing under a key keeps the insertion order; a known key keeps its place and takes the new value |
| Dicts.Values | fsm/parser.py:180 | `values()` yields one value per key, in insertion order |
| Text.Words | fsm/actions.py:86 | `str.split()` yields non-empty tokens free of whitespace |
| Text.WordsBase | fsm/actions.py:86 | the empty string has no words and a whitespace-free non-empty string is one word |
| Text.WordsSpace | fsm/actions.py:86 | any whitespace character, however many and wherever they stand, splits the words on its two sides and yields none itself; with `WordsBase` this fixes `split()` on every string |
| Text.WordsJoin | fsm/actions.py:86 | splitting tokens joined by single spaces gives the tokens back |
| Text.SplitAtSpace | fsm/parser.py:100-104 | `split(' ', 1)`: the keyword holds no space and, with the rest, rebuilds the line around the first space; no rest when there is no space |
| Text.Lower | fsm/parser.py:107 | `lower()` keeps the length and lower-cases each ASCII letter |
| Text.SortedUnique | fsm/actions.py:74 | two sorted duplicate-free lists with the same names are equal |
| Parsing.Start | fsm/parser.py:27-40 | a new parser has a fresh context and its grammar set to `init` |
| Parsing.HandleKeepsReady | fsm/parser.py:104-107 | handling a keyword never runs out of its single lookup; success leaves the grammar at a position with the cursors it relies on and keeps the declared states; a failure never lacks a cursor and names the line |
| Parsing.Step | fsm/parser.py:98-108 | one line either keeps every declared state or fails with an error naming that line (or the unresolved path), never a missing cursor |
| Parsing.ParseFrom | fsm/parser.py:93-108 | the loop keeps every declared state, and any error names a line of the input |
| Parsing.Parse | fsm/parser.py:84-109 | `parse` errors name a line between 1 and the number of lines, and are never a missing cursor |
| Parsing.StepIsExpected | fsm/parser.py:99-108 | a line `keyword rest` sets the current line to `rest` and the line number, and the lower-cased keyword then does what the reference grammar says: an unexpected keyword raises UnexpectedDirective with the keyword as written and the line number, a directive's error propagates unchanged, a handled keyword leaves the grammar at its new position with the directive's context |
| Parsing.BlankLine | fsm/parser.py:98-99 | an empty line is skipped and changes nothing |
| Parsing.ParseFirst | fsm/parser.py:93-108 | the first line is one step from a fresh parser, and the rest is parsed from what it left, numbered from 2 |
| Parsing.UnexpectedFirst | fsm/parser.py:107-108 | a description whose first keyword, lower-cased, is not `state` raises UnexpectedDirective for line 1, naming the keyword as written |
| Parsing.TooFewFirst | fsm/parser.py:101-102 | a description whose first line is a lone keyword raises TooFewTokens for that line, numbered 1 |
| Parsing.LoneKeywordRejected | tests/test_parser.py:10-14 | `parse(['FOO'])` raises TooFewTokens |
| Parsing.UnknownKeywordRejected | tests/test_parser.py:17-21 | `parse(['FOO bar'])` raises UnexpectedDirective |
| Parsing.ParseAppend | fsm/parser.py:93-108 | parsing stops at the first error: lines after it are never looked at, and parsing two pieces in turn, the second numbered on, is parsing them together |
| Parsing.FirstStateKept | fsm/actions.py:92-93 | once a first state is set, no later line changes it |
| Parsing.LeadingSpace | fsm/parser.py:100-107 | a line starting with a space, which `un_comment` never yields since it strips each line, would have the empty keyword; `handle` treats it as no event, so `parse` would accept the line and only make it the current line |
| Parsing.NoSpace | fsm/parser.py:100-102 | a non-empty line without a space raises TooFewTokens with the whole line and its number |
| Loop.FoldAppend | fsm/parser.py:93-108 | the line loop over two pieces is the loop over the first followed by the loop over the second; a raise skips the rest |
| Loop.FoldKeeps | fsm/parser.py:93-108 | a reflexive, transitive relation every accepted line respects holds between the first and the last parser |
| Loop.FoldErr | fsm/parser.py:93-108 | the loop's exception is one a step raised, for one of the lines |
| Builder.BindNames | fsm/parser.py:156 | `[actions[n] for n in names]` succeeds exactly when every name is bound, gives the callables in order, and otherwise reports the first unbound name |
| Builder.BindHook | fsm/parser.py:149-150 | an unset or empty hook name gives no hook; a non-empty one becomes its callable or fails with its name |
| Builder.BindStateOk | fsm/parser.py:147-159 | a state is built exactly when every name it refers to has a callable; otherwise the name reported is one it refers to |
| Builder.BindStatesOk | fsm/parser.py:146-159 | the first pass succeeds exactly when every state is bound, and otherwise reports a name some state refers to |
| Builder.NewOfBuilt | fsm/parser.py:164 | the machine holds one state per declared state, under the same name, the built form of the declared one |
| Builder.DanglingSpec | fsm/parser.py:160-163 | the second pass fails exactly when some event has a non-empty next-state name that is not declared, and reports such a name; an empty name is skipped |
| Builder.BuildOk | fsm/parser.py:139-166 | `build` succeeds exactly when every action name referred to (an empty enter or exit name is none) has a callable, every non-empty next-state name is declared and the first state exists |
| Builder.EmptyActionLookedUp | fsm/parser.py:156 | an event action name is looked up even when empty: an event whose action list is `['']`, with no callables, fails with that name |
| Builder.BuildValue | fsm/parser.py:145-166 | a built machine is well formed, holds the built form of each declared state with every event and non-empty next state resolved, and starts in the first state |
| Builder.EmptyNamesSkipped | fsm/parser.py:149-162 | a state whose enter name is empty, with an event whose next-state name is empty, builds with no callable at all: no enter hook and no next state |
| Builder.BuildErr | fsm/parser.py:145-165 | a failure is the first problem met: an unbound action name, then an undeclared next state, then the missing first state |
| Builder.BuildParsed | fsm/parser.py:139-166 | for a parsed description, a callable for each name of its sorted action list builds it exactly when a state is declared and every next state resolves |
| Builder.BuildAsWritten | fsm/parser.py:147-151 | as written, `STATE(..., on_enter=..., on_exit=...)` raises TypeError once the first state's hooks are looked up |
| Builder.BuildAsWrittenRejects | fsm/parser.py:147-151 | every description the corrected `build` accepts, the code as written rejects |
| Dump.DefineRoundTrip | fsm/parser.py:168-175 | a `_define` line read back gives the state's name and its enter and exit actions; each fragment appears only when set |
| Dump.ReadActionList | fsm/parser.py:182 | the comma-joined action references read back as the action list, in order |
| Dump.ReadEventText | fsm/parser.py:180-186 | one `EVENT(...)` fragment reads back as the event's name, actions and next state, with `, S_<next>` present only for a next state |
| Dump.SetEventsRoundTrip | fsm/parser.py:177-188 | a `_set_events` line read back gives the state's name and its events in declaration order |
| Dump.DefineAsWrittenRejected | fsm/parser.py:168-175 | for a state with an enter action, `_define` writes a keyword `STATE` does not take, so the line is no definition `STATE` accepts |
| Dump.SetEventsAsWrittenRejected | fsm/parser.py:177-179 | `_set_events` calls a method `STATE` does not have |
| Dump.IntendedRoundTrip | fsm/parser.py:168-188 | with the spelling of `STATE` (`enter=`, `exit=`, `set_events`), as in fsm/fsm_machine.py, both fragments read back whole |

## Left out

- `load_lines_from_path` and `un_comment`: file input and comment stripping are external. The model takes the lines `un_comment` yields and assumes they carry no leading or trailing whitespace, as the indented description of tests/test_machine.py:21-30 needs for its events to be read.
- `import_by_path`: an external module lookup, modelled as the `Resolver` parameter.
- `Parser.bind` and `Parser.load`: they instantiate Python objects and curry callables with `functools.partial`. Handlers stay opaque `Symbol`s.
- `Parser.__str__`: only its two per-state fragments are modelled.
  - The header lines, the sorted action comment and the final `FSM([...])` line are left out.
  - Whether the generated module imports and runs is not modelled.
- The read-only property accessors of `Parser` (fsm/parser.py:54-82). They return context fields and hold no logic.
- The exception hook and the DEFAULT/EXCEPTION directives. Neither is part of the engine nor of the grammar.
- The `example/` scripts, the `__main__` block and `setup.py`.
- The light-bulb description of tests/test_machine.py is not replayed as a concrete run. The general lemmas cover each of its steps.
- Engine.Handle: `handle` need not terminate, because a chain of returned events can loop. The lookup bound reports `OutOfFuel` instead, and `EngineFacts.FuelMonotone` shows the bound never changes a run that finishes.
- Engine.Dispatch: hooks are recorded as calls in the log with their arguments. What a hook does to the program is not modelled, and a hook that raises is not modelled.
- Text.Lower: only ASCII letters are lower-cased. Python's full Unicode case mapping is not modelled.
- Directives.Fresh: `line` and `line_num` start as `None` in the source, and here as the empty line and 0. No directive reads them before `parse` sets them.
- Directives.Apply: a directive that raises returns only the error, so any partial update is dropped. In the source, `act_event` sets the event cursor before it finds there is no current state. Parsing stops at that raise anyway, so nothing observable is lost.
- Directives.AddAction: the list is kept sorted and duplicate-free. It equals `sorted(actions + [name])` only on a list that was already sorted, which is the only kind `add_action` ever sees.
- Dump.DefineRoundTrip: the read-back holds for names made of identifier characters. Other names would produce text that is not Python.
- Dump.SetEventsRoundTrip: same restriction, to event, action and next-state names made of identifier characters.
- Engine.Fire: `_handle` switches `_state` to the `next_state` object itself, where the model names the next state and looks it up in the table, which must hold it (`Closed`). The two agree when every next state is a state of the table and names are unique, as for every machine `create` and `build` make. A `next_state` object outside the table is not modelled.
- Parsing.Parse: its own contract only says where errors point. What each line does is stated by `Parsing.StepIsExpected`, and `Parsing.ParseFirst` and `Parsing.ParseAppend` compose lines into a description.
- Truthiness of names is Python's on strings: `None` and `''` are false (`Base.Truthy`). `build` skips an empty enter, exit or next-state name, as `if state.enter:` and `if event.next_state:` do. The engine takes the empty next-state name `build` leaves in place to mean no transition, since `if event.next_state:` (fsm/FSM.py:52) finds it false. `parse` never produces an empty name, because every name is a token of `split()`.

## Findings

| source | as written | input that shows it | evidently intended | confidence | as-written member | corrected member |
|---|---|---|---|---|---|---|
| fsm/parser.py:147-151 | `build` calls `FSM.STATE(name=..., on_enter=..., on_exit=...)`, but `STATE.__init__` (fsm/FSM.py:8) takes `enter` and `exit` | any description with a STATE whose actions are all supplied, e.g. `STATE off` with no actions: the call raises TypeError | pass the looked-up callables as `enter` and `exit` | high, not executed | Builder.BuildAsWritten | Builder.Build |
| fsm/actions.py:152-158 | `act_handler` treats only exactly one token as too few | `act_handler` called on a context whose current line is `''` (no tokens): `name, path = args` raises ValueError. Through `parse` the line `HANDLER ` would be needed, which `un_comment`'s stripping turns into `HANDLER`, rejected earlier with TooFewTokens. `Directives.Apply`, and so `parse`, calls the function as written; the two agree on every line with a token | raise TooFewTokens for fewer than two tokens | medium for a direct call, not reachable through `parse`; not executed | Directives.ActHandlerAsWritten | Directives.ActHandler |
| fsm/parser.py:168-188 | `_define` writes `on_enter=`/`on_exit=` and `_set_events` writes `._set_events(`, neither of which `STATE` (fsm/FSM.py:8-16) has | a state `s` with `ENTER a`: the line `  S_s=STATE('s',on_enter=actions['a'])` | `enter=`, `exit=` and `.set_events(`, as in the dumped grammar fsm/fsm_machine.py:11-21 | high, not executed | Dump.DefineAsWrittenRejected | Dump.IntendedRoundTrip |
