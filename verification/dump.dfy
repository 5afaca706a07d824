/** The two fragments `Parser.__str__` (fsm/parser.py) writes per state when it dumps a
    parsed description as Python source: `_define`, the line constructing the state with its
    enter and exit actions, and `_set_events`, the line attaching its events in declaration
    order. Each fragment comes with a reader that recovers what was written from the text, so
    that the round-trip lemmas state that the dump loses nothing: names (which must be Python
    identifiers for the dumped source to be valid) can be read back, each in its place. */
module Dump {
  import opened Base
  import opened Dicts
  import opened Directives

  /** A character of an ASCII Python identifier. */
  predicate IsNameChar(c: char) {
    ('a' <= c <= 'z') || ('A' <= c <= 'Z') || ('0' <= c <= '9') || c == '_'
  }

  predicate IsName(n: string) {
    n != [] && forall i :: 0 <= i < |n| ==> IsNameChar(n[i])
  }

  // Writing

  function ActionRef(a: string): string {
    "actions['" + (a + "']")
  }

  /** How a dump spells the `STATE` keyword arguments for the enter and exit actions and the
      `STATE` method that attaches the events. */
  datatype Spelling = Spelling(enter: string, exit: string, attach: string)

  /** The spelling of `_define` and `_set_events`. */
  const AsWritten: Spelling := Spelling("on_enter", "on_exit", "_set_events")

  /** The spelling `STATE` understands (fsm/FSM.py), which is also the one of the dumped
      grammar in fsm/fsm_machine.py. */
  const Intended: Spelling := Spelling("enter", "exit", "set_events")

  function EnterKey(sp: Spelling): string {
    "," + (sp.enter + "=actions['")
  }

  function ExitKey(sp: Spelling): string {
    "," + (sp.exit + "=actions['")
  }

  function HookPart(key: string, o: Option<string>): string {
    if Truthy(o) then key + (o.value + "']") else ""
  }

  /** The hooks of a `_define` line and the closing parenthesis. */
  function Hooks(sp: Spelling, s: PState): string {
    HookPart(EnterKey(sp), s.enter) + (HookPart(ExitKey(sp), s.exit) + ")")
  }

  /** `_define(state)`, with `AsWritten` for its spelling. */
  function Define(sp: Spelling, s: PState): string {
    "  S_" + (s.name + ("=STATE('" + (s.name + ("'" + Hooks(sp, s)))))
  }

  /** `','.join(actions['a'] for a in actions)`. */
  function ActionList(acts: seq<string>): string
    decreases |acts|
  {
    if acts == [] then ""
    else if |acts| == 1 then ActionRef(acts[0])
    else ActionRef(acts[0]) + ("," + ActionList(acts[1..]))
  }

  function NextPart(next: Option<string>): string {
    if Truthy(next) then ", S_" + next.value else ""
  }

  /** One event inside `_set_events`. */
  function EventText(e: PEvent): string {
    "EVENT('" + (e.name + ("',[" + (ActionList(e.actions) + ("]" + (NextPart(e.next) + "),")))))
  }

  function EventsText(es: seq<PEvent>): string
    decreases |es|
  {
    if es == [] then "" else EventText(es[0]) + EventsText(es[1..])
  }

  /** `_set_events(state)`, with `AsWritten` for its spelling: the events in the order
      `state.events.values()` yields them. */
  function SetEvents(sp: Spelling, s: PState): string {
    "  S_" + (s.name + ("." + (sp.attach + ("([" + (EventsText(Values(s.events)) + "])")))))
  }

  // Reading back

  /** The text after the literal `p`, when `t` starts with it. */
  function Lit(p: string, t: string): (r: Option<string>)
    ensures r.Some? ==> t == p + r.value
  {
    if p <= t then
      assert t == p + t[|p|..];
      Some(t[|p|..])
    else None
  }

  /** The length of the longest prefix of identifier characters. */
  function NameLen(t: string): (n: nat)
    ensures n <= |t|
    ensures forall i :: 0 <= i < n ==> IsNameChar(t[i])
    ensures n < |t| ==> !IsNameChar(t[n])
  {
    if t == [] || !IsNameChar(t[0]) then 0 else 1 + NameLen(t[1..])
  }

  /** An identifier at the front of `t`, and the text after it. */
  function ReadName(t: string): (r: Option<(string, string)>)
    ensures r.Some? ==> IsName(r.value.0) && t == r.value.0 + r.value.1
  {
    var n := NameLen(t);
    if n == 0 then None
    else
      assert t == t[..n] + t[n..];
      Some((t[..n], t[n..]))
  }

  /** `key` followed by an identifier and `']`; the hook is absent when `t` does not start
      with `key`. */
  function ReadHook(key: string, t: string): (Option<string>, string) {
    match Lit(key, t)
    case None => (None, t)
    case Some(u) =>
      match ReadName(u)
      case None => (None, t)
      case Some((a, v)) =>
        match Lit("']", v)
        case None => (None, t)
        case Some(w) => (Some(a), w)
  }

  /** What a `_define` line says: the state's name and its enter and exit actions. */
  datatype Header = Header(name: string, enter: Option<string>, exit: Option<string>)

  function ReadDefine(sp: Spelling, t: string): Option<Header> {
    match Lit("  S_", t)
    case None => None
    case Some(t1) =>
      match ReadName(t1)
      case None => None
      case Some((n, t2)) =>
        match Lit("=STATE('", t2)
        case None => None
        case Some(t3) =>
          match Lit(n, t3)
          case None => None
          case Some(t4) =>
            match Lit("'", t4)
            case None => None
            case Some(t5) => ReadHooks(sp, n, t5)
  }

  /** The part of a `_define` line after the state's name: the hooks and the closing `)`. */
  function ReadHooks(sp: Spelling, n: string, t: string): Option<Header> {
    var (en, t1) := ReadHook(EnterKey(sp), t);
    var (ex, t2) := ReadHook(ExitKey(sp), t1);
    if t2 == ")" then Some(Header(n, en, ex)) else None
  }

  function ReadActionRef(t: string): (r: Option<(string, string)>)
    ensures r.Some? ==> |r.value.1| < |t|
  {
    match Lit("actions['", t)
    case None => None
    case Some(u) =>
      match ReadName(u)
      case None => None
      case Some((a, v)) =>
        match Lit("']", v)
        case None => None
        case Some(w) => Some((a, w))
  }

  /** Action references separated by commas, as many as there are. */
  function ReadActions(t: string): (r: (seq<string>, string))
    ensures |r.1| <= |t|
    decreases |t|
  {
    match ReadActionRef(t)
    case None => ([], t)
    case Some((a, u)) =>
      match Lit(",", u)
      case None => ([a], u)
      case Some(v) =>
        var (more, w) := ReadActions(v);
        ([a] + more, w)
  }

  function ReadNext(t: string): (r: (Option<string>, string))
    ensures |r.1| <= |t|
  {
    match Lit(", S_", t)
    case None => (None, t)
    case Some(u) =>
      match ReadName(u)
      case None => (None, t)
      case Some((n, v)) => (Some(n), v)
  }

  function ReadEvent(t: string): (r: Option<(PEvent, string)>)
    ensures r.Some? ==> |r.value.1| < |t|
  {
    match Lit("EVENT('", t)
    case None => None
    case Some(t1) =>
      match ReadName(t1)
      case None => None
      case Some((n, t2)) =>
        match Lit("',[", t2)
        case None => None
        case Some(t3) => ReadEventBody(n, t3)
  }

  /** The part of an event after its name: the action list, the next state and the closing
      `),`. */
  function ReadEventBody(n: string, t: string): (r: Option<(PEvent, string)>)
    ensures r.Some? ==> |r.value.1| < |t|
  {
    var (acts, t1) := ReadActions(t);
    match Lit("]", t1)
    case None => None
    case Some(t2) =>
      var (next, t3) := ReadNext(t2);
      match Lit("),", t3)
      case None => None
      case Some(t4) => Some((PEvent(n, next, acts), t4))
  }

  function ReadEvents(t: string): (seq<PEvent>, string)
    decreases |t|
  {
    match ReadEvent(t)
    case None => ([], t)
    case Some((e, u)) =>
      var (more, w) := ReadEvents(u);
      ([e] + more, w)
  }

  /** What a `_set_events` line says: the state's name and its events in order. */
  function ReadSetEvents(sp: Spelling, t: string): Option<(string, seq<PEvent>)> {
    match Lit("  S_", t)
    case None => None
    case Some(t1) =>
      match ReadName(t1)
      case None => None
      case Some((n, t2)) =>
        match Lit(".", t2)
        case None => None
        case Some(t3) =>
          match Lit(sp.attach, t3)
          case None => None
          case Some(t4) =>
            match Lit("([", t4)
            case None => None
            case Some(t5) =>
              var (es, t6) := ReadEvents(t5);
              if t6 == "])" then Some((n, es)) else None
  }

  // Round trips

  /** Every name an event's fragment writes is an identifier. */
  predicate PlainEvent(e: PEvent) {
    && IsName(e.name)
    && (forall i :: 0 <= i < |e.actions| ==> IsName(e.actions[i]))
    && (e.next.Some? ==> IsName(e.next.value))
  }

  lemma LitCat(p: string, r: string)
    ensures Lit(p, p + r) == Some(r)
  {
    assert p <= p + r;
  }

  /** A text whose first character differs from the literal's does not start with it. */
  lemma LitMiss(p: string, t: string)
    requires p != [] && t != [] && p[0] != t[0]
    ensures Lit(p, t) == None
  {
  }

  lemma {:induction false} NameLenCat(n: string, r: string)
    requires forall i :: 0 <= i < |n| ==> IsNameChar(n[i])
    requires r == [] || !IsNameChar(r[0])
    ensures NameLen(n + r) == |n|
  {
    if n != [] {
      assert (n + r)[1..] == n[1..] + r;
      NameLenCat(n[1..], r);
    }
  }

  lemma ReadNameCat(n: string, r: string)
    requires IsName(n)
    requires r == [] || !IsNameChar(r[0])
    ensures ReadName(n + r) == Some((n, r))
  {
    NameLenCat(n, r);
    assert (n + r)[..|n|] == n && (n + r)[|n|..] == r;
  }

  /** A hook fragment reads back as the hook, whatever follows it, as long as what follows
      does not itself start with the key. */
  lemma ReadHookPart(key: string, o: Option<string>, r: string)
    requires key != [] && !IsNameChar(key[|key| - 1])
    requires o.Some? ==> IsName(o.value)
    requires !(key <= r)
    ensures ReadHook(key, HookPart(key, o) + r) == (o, r)
  {
    if o.Some? {
      var a := o.value;
      Assoc(key, a + "']", r);
      Assoc(a, "']", r);
      LitCat(key, a + ("']" + r));
      ReadNameCat(a, "']" + r);
      LitCat("']", r);
    } else {
      assert HookPart(key, o) + r == r;
    }
  }

  /** Two words that differ at some position both have. */
  predicate Apart(a: string, b: string) {
    exists k :: 0 <= k < |a| && k < |b| && a[k] != b[k]
  }

  /** What follows the enter fragment never starts with the enter key. */
  lemma NotEnterKey(sp: Spelling, o: Option<string>)
    requires Apart(sp.enter, sp.exit)
    ensures !(EnterKey(sp) <= HookPart(ExitKey(sp), o) + ")")
  {
    var x := HookPart(ExitKey(sp), o) + ")";
    if Truthy(o) {
      var k :| 0 <= k < |sp.enter| && k < |sp.exit| && sp.enter[k] != sp.exit[k];
      Assoc(ExitKey(sp), o.value + "']", ")");
      assert EnterKey(sp)[k + 1] == sp.enter[k];
      assert x[k + 1] == ExitKey(sp)[k + 1] == sp.exit[k];
    } else {
      assert EnterKey(sp)[0] != x[0];
    }
  }

  lemma Assoc(a: string, b: string, c: string)
    ensures a + b + c == a + (b + c)
  {
  }

  /** `_define` reads back up to its hooks, whatever spelling it is read with. */
  lemma DefineHead(rd: Spelling, sp: Spelling, s: PState)
    requires IsName(s.name)
    ensures ReadDefine(rd, Define(sp, s)) == ReadHooks(rd, s.name, Hooks(sp, s))
  {
    var n := s.name;
    var tail := Hooks(sp, s);
    LitCat("  S_", n + ("=STATE('" + (n + ("'" + tail))));
    ReadNameCat(n, "=STATE('" + (n + ("'" + tail)));
    LitCat("=STATE('", n + ("'" + tail));
    LitCat(n, "'" + tail);
    LitCat("'", tail);
  }

  /** The hooks of `_define` read back as written. */
  lemma DefineHooks(sp: Spelling, s: PState)
    requires Apart(sp.enter, sp.exit)
    requires s.enter.Some? ==> IsName(s.enter.value)
    requires s.exit.Some? ==> IsName(s.exit.value)
    ensures ReadHooks(sp, s.name, Hooks(sp, s)) == Some(Header(s.name, s.enter, s.exit))
  {
    var ex := HookPart(ExitKey(sp), s.exit);
    NotEnterKey(sp, s.exit);
    ReadHookPart(EnterKey(sp), s.enter, ex + ")");
    assert ExitKey(sp)[0] != ")"[0];
    ReadHookPart(ExitKey(sp), s.exit, ")");
  }

  /** `_define` loses nothing: its line, read with the spelling it was written with, gives
      back the state's name, enter action and exit action. */
  lemma DefineRoundTrip(sp: Spelling, s: PState)
    requires Apart(sp.enter, sp.exit)
    requires IsName(s.name)
    requires s.enter.Some? ==> IsName(s.enter.value)
    requires s.exit.Some? ==> IsName(s.exit.value)
    ensures ReadDefine(sp, Define(sp, s)) == Some(Header(s.name, s.enter, s.exit))
  {
    DefineHead(sp, sp, s);
    DefineHooks(sp, s);
  }

  lemma ReadActionRefCat(a: string, r: string)
    requires IsName(a)
    ensures ReadActionRef(ActionRef(a) + r) == Some((a, r))
  {
    Assoc("actions['", a + "']", r);
    Assoc(a, "']", r);
    LitCat("actions['", a + ("']" + r));
    ReadNameCat(a, "']" + r);
    LitCat("']", r);
  }

  lemma ReadActionListShort(acts: seq<string>, r: string)
    requires |acts| <= 1
    requires forall i :: 0 <= i < |acts| ==> IsName(acts[i])
    requires r != [] && r[0] == ']'
    ensures ReadActions(ActionList(acts) + r) == (acts, r)
  {
    if acts == [] {
      assert ActionList(acts) + r == r;
      LitMiss("actions['", r);
    } else {
      ReadActionRefCat(acts[0], r);
      LitMiss(",", r);
      assert [acts[0]] == acts;
    }
  }

  lemma ReadActionListStep(acts: seq<string>, r: string)
    requires |acts| >= 2 && IsName(acts[0])
    requires ReadActions(ActionList(acts[1..]) + r) == (acts[1..], r)
    ensures ReadActions(ActionList(acts) + r) == (acts, r)
  {
    var rest := ActionList(acts[1..]) + r;
    Assoc(ActionRef(acts[0]), "," + ActionList(acts[1..]), r);
    Assoc(",", ActionList(acts[1..]), r);
    ReadActionRefCat(acts[0], "," + rest);
    LitCat(",", rest);
    assert [acts[0]] + acts[1..] == acts;
  }

  /** A comma-separated list of action references reads back as its names, up to the `]`
      closing it. */
  lemma {:induction false} ReadActionList(acts: seq<string>, r: string)
    requires forall i :: 0 <= i < |acts| ==> IsName(acts[i])
    requires r != [] && r[0] == ']'
    ensures ReadActions(ActionList(acts) + r) == (acts, r)
    decreases |acts|
  {
    if |acts| <= 1 {
      ReadActionListShort(acts, r);
    } else {
      ReadActionList(acts[1..], r);
      ReadActionListStep(acts, r);
    }
  }

  lemma ReadNextPart(next: Option<string>, r: string)
    requires next.Some? ==> IsName(next.value)
    requires r != [] && r[0] == ')'
    ensures ReadNext(NextPart(next) + r) == (next, r)
  {
    if next.Some? {
      Assoc(", S_", next.value, r);
      LitCat(", S_", next.value + r);
      ReadNameCat(next.value, r);
    } else {
      assert NextPart(next) + r == r;
      LitMiss(", S_", r);
    }
  }

  /** An event reads back up to its action list. */
  lemma EventHead(e: PEvent, r: string)
    requires IsName(e.name)
    ensures ReadEvent(EventText(e) + r) == ReadEventBody(e.name, ActionList(e.actions) + ("]" + (NextPart(e.next) + (")," + r))))
  {
    var t3 := ActionList(e.actions) + ("]" + (NextPart(e.next) + (")," + r)));
    var nx := NextPart(e.next);
    var acts := ActionList(e.actions);
    Assoc("EVENT('", e.name + ("',[" + (acts + ("]" + (nx + "),")))), r);
    Assoc(e.name, "',[" + (acts + ("]" + (nx + "),"))), r);
    Assoc("',[", acts + ("]" + (nx + "),")), r);
    Assoc(acts, "]" + (nx + "),"), r);
    Assoc("]", nx + "),", r);
    Assoc(nx, "),", r);
    LitCat("EVENT('", e.name + ("',[" + t3));
    ReadNameCat(e.name, "',[" + t3);
    LitCat("',[", t3);
  }

  lemma EventBody(e: PEvent, r: string)
    requires PlainEvent(e)
    ensures ReadEventBody(e.name, ActionList(e.actions) + ("]" + (NextPart(e.next) + (")," + r)))) == Some((e, r))
  {
    var nx := NextPart(e.next);
    ReadActionList(e.actions, "]" + (nx + ("),"+ r)));
    LitCat("]", nx + ("),"+ r));
    ReadNextPart(e.next, ")," + r);
    LitCat("),", r);
  }

  lemma ReadEventText(e: PEvent, r: string)
    requires PlainEvent(e)
    ensures ReadEvent(EventText(e) + r) == Some((e, r))
  {
    EventHead(e, r);
    EventBody(e, r);
  }

  lemma ReadEventsStep(es: seq<PEvent>, r: string)
    requires es != [] && PlainEvent(es[0])
    requires ReadEvents(EventsText(es[1..]) + r) == (es[1..], r)
    ensures ReadEvents(EventsText(es) + r) == (es, r)
  {
    var t := EventsText(es[1..]) + r;
    assert EventsText(es) == EventText(es[0]) + EventsText(es[1..]);
    assert EventsText(es) + r == EventText(es[0]) + t by {
      Assoc(EventText(es[0]), EventsText(es[1..]), r);
    }
    ReadEventsCons(es[0], t, es[1..], r);
    assert [es[0]] + es[1..] == es;
  }

  lemma ReadEventsCons(e: PEvent, t: string, more: seq<PEvent>, r: string)
    requires PlainEvent(e)
    requires ReadEvents(t) == (more, r)
    ensures ReadEvents(EventText(e) + t) == ([e] + more, r)
  {
    ReadEventText(e, t);
  }

  /** Events written one after the other read back as the same events, in order, up to the
      `]` closing the list. */
  lemma {:induction false} ReadEventsText(es: seq<PEvent>, r: string)
    requires forall i :: 0 <= i < |es| ==> PlainEvent(es[i])
    requires r != [] && r[0] == ']'
    ensures ReadEvents(EventsText(es) + r) == (es, r)
    decreases |es|
  {
    if es == [] {
      assert EventsText(es) + r == r;
      LitMiss("EVENT('", r);
    } else {
      ReadEventsText(es[1..], r);
      ReadEventsStep(es, r);
    }
  }

  /** `_set_events` reads back up to the name of the method it calls. */
  lemma SetEventsHead(sp: Spelling, s: PState)
    requires IsName(s.name)
    ensures Lit("  S_", SetEvents(sp, s)).Some?
    ensures ReadName(Lit("  S_", SetEvents(sp, s)).value) == Some((s.name, "." + (sp.attach + ("([" + (EventsText(Values(s.events)) + "])")))))
  {
    var n := s.name;
    var tail := "." + (sp.attach + ("([" + (EventsText(Values(s.events)) + "])")));
    LitCat("  S_", n + tail);
    ReadNameCat(n, tail);
  }

  /** `_set_events` loses nothing: its line, read with the spelling it was written with,
      gives back the state's name and its events, each with its actions and next state, in the
      order the dictionary yields them. */
  lemma SetEventsRoundTrip(sp: Spelling, s: PState)
    requires IsName(s.name)
    requires forall i :: 0 <= i < |Values(s.events)| ==> PlainEvent(Values(s.events)[i])
    ensures ReadSetEvents(sp, SetEvents(sp, s)) == Some((s.name, Values(s.events)))
  {
    var body := EventsText(Values(s.events)) + "])";
    SetEventsHead(sp, s);
    LitCat(".", sp.attach + ("([" + body));
    LitCat(sp.attach, "([" + body);
    LitCat("([", body);
    ReadEventsText(Values(s.events), "])");
  }

  // The spelling

  /** The keyword arguments `STATE.__init__` takes, and the method that attaches events. */
  const StateParams: set<string> := {"name", "enter", "exit"}
  const AttachMethod: string := "set_events"

  /** A spelling whose dump `STATE` accepts. */
  predicate Loadable(sp: Spelling) {
    sp.enter in StateParams && sp.exit in StateParams && sp.attach == AttachMethod
  }

  lemma SpellingsApart()
    ensures Apart(AsWritten.enter, AsWritten.exit)
    ensures Apart(Intended.enter, Intended.exit)
  {
    assert AsWritten.enter[4] != AsWritten.exit[4];
    assert Intended.enter[1] != Intended.exit[1];
  }

  /** A text whose `k`-th character differs from the literal's does not start with it. */
  lemma LitMissAt(p: string, t: string, k: nat)
    requires k < |p| && k < |t| && p[k] != t[k]
    ensures Lit(p, t) == None
  {
  }

  /** The hooks `_define` writes for a state with an enter action are neither of the
      keywords `STATE` takes. */
  lemma HooksMisread(s: PState)
    requires s.enter.Some? && IsName(s.enter.value)
    ensures ReadHooks(Intended, s.name, Hooks(AsWritten, s)) == None
  {
    var t := Hooks(AsWritten, s);
    Assoc(EnterKey(AsWritten), s.enter.value + "']", HookPart(ExitKey(AsWritten), s.exit) + ")");
    assert t[0] == ',' && t[1] == 'o';
    LitMissAt(EnterKey(Intended), t, 1);
    LitMissAt(ExitKey(Intended), t, 1);
  }

  /** `_define` as written hands the enter action of a state to `STATE` under a keyword
      `STATE` does not take: read with the keywords `STATE` does take, the line is not a
      well-formed definition, while read with its own it loses nothing. */
  lemma DefineAsWrittenRejected(s: PState)
    requires IsName(s.name) && s.enter.Some? && IsName(s.enter.value)
    requires s.exit.Some? ==> IsName(s.exit.value)
    ensures !Loadable(AsWritten)
    ensures ReadDefine(AsWritten, Define(AsWritten, s)) == Some(Header(s.name, s.enter, s.exit))
    ensures ReadDefine(Intended, Define(AsWritten, s)) == None
  {
    SpellingsApart();
    DefineRoundTrip(AsWritten, s);
    DefineHead(Intended, AsWritten, s);
    HooksMisread(s);
  }

  /** `_set_events` as written calls a method `STATE` does not have. */
  lemma SetEventsAsWrittenRejected(s: PState)
    requires IsName(s.name)
    ensures ReadSetEvents(Intended, SetEvents(AsWritten, s)) == None
  {
    var body := EventsText(Values(s.events)) + "])";
    SetEventsHead(AsWritten, s);
    LitCat(".", AsWritten.attach + ("([" + body));
    LitMissAt(Intended.attach, AsWritten.attach + ("([" + body), 0);
  }

  /** With the spelling `STATE` understands, both fragments read back whole with the
      keywords and the method `STATE` has. */
  lemma IntendedRoundTrip(s: PState)
    requires IsName(s.name)
    requires s.enter.Some? ==> IsName(s.enter.value)
    requires s.exit.Some? ==> IsName(s.exit.value)
    requires forall i :: 0 <= i < |Values(s.events)| ==> PlainEvent(Values(s.events)[i])
    ensures Loadable(Intended)
    ensures ReadDefine(Intended, Define(Intended, s)) == Some(Header(s.name, s.enter, s.exit))
    ensures ReadSetEvents(Intended, SetEvents(Intended, s)) == Some((s.name, Values(s.events)))
  {
    SpellingsApart();
    DefineRoundTrip(Intended, s);
    SetEventsRoundTrip(Intended, s);
  }

}
