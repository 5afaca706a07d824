/** Properties of the dispatch engine stated over its call log: the order in which a step
    calls actions and hooks, which return value continues the chain, how `is_internal` is
    reported, and what a failed lookup leaves behind. */
module EngineFacts {
  import opened Base
  import opened Engine

  /** The actions called, in order, whether they returned or raised. */
  function Invoked<A>(log: seq<Entry<A>>): seq<A> {
    if log == [] then []
    else (if log[0].Call? || log[0].Threw? then [log[0].action] else []) + Invoked(log[1..])
  }

  /** The values returned by the action calls, in order. */
  function Returns<A>(log: seq<Entry<A>>): seq<Option<string>> {
    if log == [] then []
    else (if log[0].Call? then [log[0].returned] else []) + Returns(log[1..])
  }

  /** What the last action call that returned gave back; `None` when nothing was called. */
  function LastReturn<A>(log: seq<Entry<A>>): Option<string> {
    var rs := Returns(log);
    if rs == [] then None else rs[|rs| - 1]
  }

  /** The state-change hook calls, in order. */
  function Changes<A>(log: seq<Entry<A>>): (r: seq<Entry<A>>)
    ensures forall i :: 0 <= i < |r| ==> r[i].StateChange?
  {
    if log == [] then []
    else (if log[0].StateChange? then [log[0]] else []) + Changes(log[1..])
  }

  /** The trace hook calls, in order. */
  function Traces<A>(log: seq<Entry<A>>): (r: seq<Entry<A>>)
    ensures forall i :: 0 <= i < |r| ==> r[i].Trace?
  {
    if log == [] then []
    else (if log[0].Trace? then [log[0]] else []) + Traces(log[1..])
  }

  /** A log of action calls only, the shape of a step's log before and after the switch. */
  predicate CallsOnly<A>(log: seq<Entry<A>>) {
    forall i :: 0 <= i < |log| ==> log[i].Call? || log[i].Threw?
  }

  /** No lookup hook calls: what one `_handle` step records. */
  predicate NoLookups<A>(log: seq<Entry<A>>) {
    forall i :: 0 <= i < |log| ==> !log[i].Trace? && !log[i].Undefined?
  }

  /** Neither a failed lookup nor a raise. */
  predicate Quiet<A>(log: seq<Entry<A>>) {
    forall i :: 0 <= i < |log| ==> !log[i].Undefined? && !log[i].Threw?
  }

  lemma {:induction false} DistributeInvoked<A>(a: seq<Entry<A>>, b: seq<Entry<A>>)
    ensures Invoked(a + b) == Invoked(a) + Invoked(b)
  {
    if a == [] {
      assert a + b == b;
    } else {
      var head := if a[0].Call? || a[0].Threw? then [a[0].action] else [];
      assert (a + b)[0] == a[0];
      assert (a + b)[1..] == a[1..] + b;
      DistributeInvoked(a[1..], b);
      assert Invoked(a + b) == head + (Invoked(a[1..]) + Invoked(b));
      assert Invoked(a) == head + Invoked(a[1..]);
    }
  }

  lemma {:induction false} DistributeReturns<A>(a: seq<Entry<A>>, b: seq<Entry<A>>)
    ensures Returns(a + b) == Returns(a) + Returns(b)
  {
    if a == [] {
      assert a + b == b;
    } else {
      assert (a + b)[0] == a[0];
      assert (a + b)[1..] == a[1..] + b;
      DistributeReturns(a[1..], b);
    }
  }

  lemma {:induction false} DistributeChanges<A>(a: seq<Entry<A>>, b: seq<Entry<A>>)
    ensures Changes(a + b) == Changes(a) + Changes(b)
  {
    if a == [] {
      assert a + b == b;
    } else {
      assert (a + b)[0] == a[0];
      assert (a + b)[1..] == a[1..] + b;
      DistributeChanges(a[1..], b);
    }
  }

  lemma {:induction false} DistributeTraces<A>(a: seq<Entry<A>>, b: seq<Entry<A>>)
    ensures Traces(a + b) == Traces(a) + Traces(b)
  {
    if a == [] {
      assert a + b == b;
    } else {
      assert (a + b)[0] == a[0];
      assert (a + b)[1..] == a[1..] + b;
      DistributeTraces(a[1..], b);
    }
  }

  lemma Distribute<A>(a: seq<Entry<A>>, b: seq<Entry<A>>)
    ensures Invoked(a + b) == Invoked(a) + Invoked(b)
    ensures Returns(a + b) == Returns(a) + Returns(b)
    ensures Changes(a + b) == Changes(a) + Changes(b)
    ensures Traces(a + b) == Traces(a) + Traces(b)
  {
    DistributeInvoked(a, b);
    DistributeReturns(a, b);
    DistributeChanges(a, b);
    DistributeTraces(a, b);
  }

  lemma Single<A>(e: Entry<A>)
    ensures Invoked([e]) == if e.Call? || e.Threw? then [e.action] else []
    ensures Returns([e]) == if e.Call? then [e.returned] else []
    ensures Changes([e]) == if e.StateChange? then [e] else []
    ensures Traces([e]) == if e.Trace? then [e] else []
  {
    assert [e][1..] == [];
  }

  lemma {:induction false} CallsOnlyProjections<A>(log: seq<Entry<A>>)
    requires CallsOnly(log)
    ensures Changes(log) == [] && Traces(log) == []
    ensures |Returns(log)| <= |Invoked(log)| == |log|
  {
    if log != [] {
      CallsOnlyProjections(log[1..]);
    }
  }

  lemma LastReturnAppend<A>(a: seq<Entry<A>>, b: seq<Entry<A>>)
    ensures LastReturn(a + b) == if Returns(b) == [] then LastReturn(a) else LastReturn(b)
  {
    DistributeReturns(a, b);
  }

  /** The callables one step invokes, in order: the event's actions, then on a transition
      the old state's exit and the new state's enter. */
  function Callables<A>(m: Machine<A>, ev: Event<A>): seq<A>
    requires WellFormed(m)
    requires ev.next.Some? ==> ev.next.value in m.states
  {
    ev.actions + (if ev.next.None? then [] else Opt(Current(m).exit) + Opt(m.states[ev.next.value].enter))
  }

  /** Every entry is an action call that returned. */
  predicate AllReturned<A>(log: seq<Entry<A>>) {
    forall i :: 0 <= i < |log| ==> log[i].Call?
  }

  lemma Shapes<A>(a: seq<Entry<A>>, b: seq<Entry<A>>)
    ensures CallsOnly(a) && CallsOnly(b) ==> CallsOnly(a + b)
    ensures AllReturned(a) && AllReturned(b) ==> AllReturned(a + b)
    ensures NoLookups(a) && NoLookups(b) ==> NoLookups(a + b)
    ensures Quiet(a) && Quiet(b) ==> Quiet(a + b)
  {
    assert forall i :: 0 <= i < |a| ==> (a + b)[i] == a[i];
    assert forall i :: |a| <= i < |a + b| ==> (a + b)[i] == b[i - |a|];
  }

  lemma {:induction false} RunActionsShape<A, W, E>(m: Machine<A>, w: W, actions: seq<A>, interp: (A, W) -> Outcome<W, E>, next: Option<string>)
    ensures var r := RunActions(m, w, actions, interp, next);
      CallsOnly(r.log) && (r.raised.None? ==> AllReturned(r.log))
    decreases |actions|
  {
    if actions != [] {
      var first := Invoke(m, w, actions[0], interp, next);
      if first.raised.None? {
        var rest := RunActions(m, first.world, actions[1..], interp, first.next);
        RunActionsShape(m, first.world, actions[1..], interp, first.next);
        Shapes(first.log, rest.log);
      }
    }
  }

  lemma {:induction false} RunActionsInvoked<A, W, E>(m: Machine<A>, w: W, actions: seq<A>, interp: (A, W) -> Outcome<W, E>, next: Option<string>)
    ensures var r := RunActions(m, w, actions, interp, next);
      && (r.raised.None? ==> Invoked(r.log) == actions)
      && (r.raised.Some? ==> 0 < |Invoked(r.log)| && Invoked(r.log) <= actions)
    decreases |actions|
  {
    if actions != [] {
      var first := Invoke(m, w, actions[0], interp, next);
      InvokeInvoked(m, w, actions[0], interp, next);
      if first.raised.None? {
        var rest := RunActions(m, first.world, actions[1..], interp, first.next);
        RunActionsInvoked(m, first.world, actions[1..], interp, first.next);
        DistributeInvoked(first.log, rest.log);
        assert actions == [actions[0]] + actions[1..];
        if rest.raised.Some? {
          PrefixCons(actions[0], Invoked(rest.log), actions[1..]);
        }
      }
    }
  }

  /** One call logs exactly the action called. */
  lemma InvokeInvoked<A, W, E>(m: Machine<A>, w: W, a: A, interp: (A, W) -> Outcome<W, E>, next: Option<string>)
    ensures Invoked(Invoke(m, w, a, interp, next).log) == [a]
  {
    var first := Invoke(m, w, a, interp, next);
    Single(first.log[0]);
    assert first.log == [first.log[0]];
  }

  lemma PrefixCons<T>(h: T, s: seq<T>, t: seq<T>)
    requires s <= t
    ensures [h] + s <= [h] + t
  {
    assert [h] + s == ([h] + t)[..|s| + 1];
  }


  lemma {:induction false} RunActionsNext<A, W, E>(m: Machine<A>, w: W, actions: seq<A>, interp: (A, W) -> Outcome<W, E>, next: Option<string>)
    ensures var r := RunActions(m, w, actions, interp, next);
      r.raised.None? ==> r.next == if actions == [] then next else LastReturn(r.log)
    decreases |actions|
  {
    if actions != [] {
      var first := Invoke(m, w, actions[0], interp, next);
      if first.raised.None? {
        var rest := RunActions(m, first.world, actions[1..], interp, first.next);
        RunActionsNext(m, first.world, actions[1..], interp, first.next);
        assert first.log == [Call(actions[0], first.next)];
        Single(Call(actions[0], first.next));
        LastReturnAppend(first.log, rest.log);
        if actions[1..] == [] {
          assert rest.log == [];
          assert first.log + rest.log == first.log;
        }
      }
    }
  }

  lemma RunActionsOrder<A, W, E>(m: Machine<A>, w: W, actions: seq<A>, interp: (A, W) -> Outcome<W, E>, next: Option<string>)
    ensures var r := RunActions(m, w, actions, interp, next);
      && CallsOnly(r.log)
      && (r.raised.None? ==> AllReturned(r.log) && Invoked(r.log) == actions)
      && (r.raised.None? ==> r.next == if actions == [] then next else LastReturn(r.log))
      && (r.raised.Some? ==> 0 < |Invoked(r.log)| && Invoked(r.log) <= actions)
  {
    RunActionsShape(m, w, actions, interp, next);
    RunActionsInvoked(m, w, actions, interp, next);
    RunActionsNext(m, w, actions, interp, next);
  }

  lemma HookOrder<A, W, E>(m: Machine<A>, w: W, hook: Option<A>, interp: (A, W) -> Outcome<W, E>, next: Option<string>)
    ensures var r := CallHook(m, w, hook, interp, next);
      && CallsOnly(r.log) && r.machine == m
      && Invoked(r.log) == Opt(hook)
      && (r.raised.None? ==> AllReturned(r.log))
      && (r.raised.None? ==> r.next == if hook.None? then next else LastReturn(r.log))
      && (r.raised.Some? ==> hook.Some?)
  {
    var r := CallHook(m, w, hook, interp, next);
    if r.log != [] {
      Single(r.log[0]);
      assert r.log == [r.log[0]];
    }
  }

  /** The facts `FireOrder` states, for one step and its callables. */
  ghost predicate Ordered<A, W, E>(m: Machine<A>, ev: Event<A>, r: Step<A, W, E>)
    requires WellFormed(m)
    requires ev.next.Some? ==> ev.next.value in m.states
  {
    && NoLookups(r.log)
    && (r.raised.None? ==> Quiet(r.log) && Invoked(r.log) == Callables(m, ev))
    && (r.raised.Some? ==> 0 < |Invoked(r.log)| && Invoked(r.log) <= Callables(m, ev))
    && (r.raised.None? ==> r.next == LastReturn(r.log))
    && (ev.next.None? ==> r.machine == m && Changes(r.log) == [])
    && (ev.next.Some? && r.raised.None? ==> r.machine.current == ev.next)
    && (ev.next.Some? && r.raised.None? ==>
          Changes(r.log) == if m.hooks.stateChange then [StateChange(ev.next.value, StateName(m))] else [])
    && (ev.next.Some? && r.raised.None? && m.hooks.stateChange ==>
          exists k :: 0 <= k < |r.log| && r.log[k] == StateChange(ev.next.value, StateName(m))
            && Invoked(r.log[..k]) == ev.actions + Opt(Current(m).exit)
            && Invoked(r.log[k + 1..]) == Opt(m.states[ev.next.value].enter))
  }

  lemma FireStays<A, W, E>(m: Machine<A>, w: W, ev: Event<A>, interp: (A, W) -> Outcome<W, E>)
    requires WellFormed(m)
    requires ev.next.Some? ==> ev.next.value in m.states
    requires RunActions(m, w, ev.actions, interp, None).raised.Some? || ev.next.None?
    ensures Ordered(m, ev, Fire(m, w, ev, interp))
  {
    var acts := RunActions(m, w, ev.actions, interp, None);
    RunActionsOrder(m, w, ev.actions, interp, None);
    CallsOnlyProjections(acts.log);
    assert Fire(m, w, ev, interp) == acts;
  }

  /** The pieces of a step whose exit action raised. */
  lemma FireExitLog<A, W, E>(m: Machine<A>, w: W, ev: Event<A>, interp: (A, W) -> Outcome<W, E>)
    requires WellFormed(m)
    requires ev.next.Some? && ev.next.value in m.states
    requires RunActions(m, w, ev.actions, interp, None).raised.None?
    requires var acts := RunActions(m, w, ev.actions, interp, None);
      CallHook(m, acts.world, Current(m).exit, interp, acts.next).raised.Some?
    ensures var r := Fire(m, w, ev, interp);
      var acts := RunActions(m, w, ev.actions, interp, None);
      var ex := CallHook(m, acts.world, Current(m).exit, interp, acts.next);
      r.log == acts.log + ex.log && r.raised.Some?
  {
  }

  lemma FireExitRaises<A, W, E>(m: Machine<A>, w: W, ev: Event<A>, interp: (A, W) -> Outcome<W, E>)
    requires WellFormed(m)
    requires ev.next.Some? && ev.next.value in m.states
    requires RunActions(m, w, ev.actions, interp, None).raised.None?
    requires var acts := RunActions(m, w, ev.actions, interp, None);
      CallHook(m, acts.world, Current(m).exit, interp, acts.next).raised.Some?
    ensures Ordered(m, ev, Fire(m, w, ev, interp))
  {
    var acts := RunActions(m, w, ev.actions, interp, None);
    RunActionsInvoked(m, w, ev.actions, interp, None);
    RunActionsShape(m, w, ev.actions, interp, None);
    var ex := CallHook(m, acts.world, Current(m).exit, interp, acts.next);
    HookOrder(m, acts.world, Current(m).exit, interp, acts.next);
    var r := Fire(m, w, ev, interp);
    FireExitLog(m, w, ev, interp);
    DistributeInvoked(acts.log, ex.log);
    Shapes(acts.log, ex.log);
    assert NoLookups(acts.log) && NoLookups(ex.log);
    var x := Current(m).exit.value;
    assert Invoked(r.log) == ev.actions + [x];
    assert Callables(m, ev) == (ev.actions + [x]) + Opt(m.states[ev.next.value].enter);
  }

  lemma {:induction false} AllReturnedReturns<A>(log: seq<Entry<A>>)
    requires AllReturned(log)
    ensures |Returns(log)| == |log|
  {
    if log != [] {
      AllReturnedReturns(log[1..]);
    }
  }

  /** A log of at most one state-change entry, as a transition records between exit and enter. */
  predicate ChangeOnly<A>(c: seq<Entry<A>>) {
    c == [] || (|c| == 1 && c[0].StateChange?)
  }

  lemma ChangeOnlyProjections<A>(c: seq<Entry<A>>)
    requires ChangeOnly(c)
    ensures Invoked(c) == [] && Returns(c) == [] && Changes(c) == c && NoLookups(c) && Quiet(c)
  {
    if c != [] {
      Single(c[0]);
      assert c == [c[0]];
    }
  }

  lemma AssembleInvoked<A>(a: seq<Entry<A>>, b: seq<Entry<A>>, c: seq<Entry<A>>, d: seq<Entry<A>>)
    requires ChangeOnly(c)
    ensures Invoked(a + b + c + d) == Invoked(a) + Invoked(b) + Invoked(d)
  {
    ChangeOnlyProjections(c);
    DistributeInvoked(a, b);
    DistributeInvoked(a + b, c);
    DistributeInvoked(a + b + c, d);
  }

  lemma AssembleChanges<A>(a: seq<Entry<A>>, b: seq<Entry<A>>, c: seq<Entry<A>>, d: seq<Entry<A>>)
    requires CallsOnly(a) && CallsOnly(b) && CallsOnly(d)
    requires ChangeOnly(c)
    ensures Changes(a + b + c + d) == c
  {
    ChangeOnlyProjections(c);
    CallsOnlyProjections(a);
    CallsOnlyProjections(b);
    CallsOnlyProjections(d);
    DistributeChanges(a, b);
    DistributeChanges(a + b, c);
    DistributeChanges(a + b + c, d);
  }

  lemma AssembleLast<A>(a: seq<Entry<A>>, b: seq<Entry<A>>, c: seq<Entry<A>>, d: seq<Entry<A>>)
    requires ChangeOnly(c)
    ensures LastReturn(a + b + c + d)
      == if Returns(d) != [] then LastReturn(d) else if Returns(b) != [] then LastReturn(b) else LastReturn(a)
  {
    ChangeOnlyProjections(c);
    LastReturnAppend(a, b);
    LastReturnAppend(a + b, c);
    DistributeReturns(a, b);
    LastReturnAppend(a + b + c, d);
  }

  lemma AssembleShapes<A>(a: seq<Entry<A>>, b: seq<Entry<A>>, c: seq<Entry<A>>, d: seq<Entry<A>>)
    requires CallsOnly(a) && CallsOnly(b) && CallsOnly(d)
    requires ChangeOnly(c)
    ensures NoLookups(a + b + c + d)
    ensures AllReturned(a) && AllReturned(b) && AllReturned(d) ==> Quiet(a + b + c + d)
  {
    ChangeOnlyProjections(c);
    assert NoLookups(a) && NoLookups(b) && NoLookups(d);
    assert AllReturned(a) ==> Quiet(a);
    assert AllReturned(b) ==> Quiet(b);
    assert AllReturned(d) ==> Quiet(d);
    Shapes(a, b);
    Shapes(a + b, c);
    Shapes(a + b + c, d);
  }

  lemma AssembleSplit<A>(a: seq<Entry<A>>, b: seq<Entry<A>>, c: seq<Entry<A>>, d: seq<Entry<A>>)
    requires |c| == 1
    ensures var r := a + b + c + d;
      r[|a + b|] == c[0] && r[..|a + b|] == a + b && r[|a + b| + 1..] == d
  {
  }

  /** The pieces a transition's step is made of. */
  lemma FireMovesLog<A, W, E>(m: Machine<A>, w: W, ev: Event<A>, interp: (A, W) -> Outcome<W, E>)
    requires WellFormed(m)
    requires ev.next.Some? && ev.next.value in m.states
    requires RunActions(m, w, ev.actions, interp, None).raised.None?
    requires var acts := RunActions(m, w, ev.actions, interp, None);
      CallHook(m, acts.world, Current(m).exit, interp, acts.next).raised.None?
    ensures var r := Fire(m, w, ev, interp);
      var acts := RunActions(m, w, ev.actions, interp, None);
      var ex := CallHook(m, acts.world, Current(m).exit, interp, acts.next);
      var change: seq<Entry<A>> := if m.hooks.stateChange then [StateChange(ev.next.value, StateName(m))] else [];
      var moved := m.(current := ev.next);
      var en := CallHook(moved, ex.world, m.states[ev.next.value].enter, interp, ex.next);
      && r.log == acts.log + ex.log + change + en.log
      && r.machine == moved && r.next == en.next && r.raised == en.raised
  {
  }

  lemma FireMovesNext<A, W, E>(m: Machine<A>, w: W, ev: Event<A>, interp: (A, W) -> Outcome<W, E>)
    requires WellFormed(m)
    requires ev.next.Some? && ev.next.value in m.states
    requires RunActions(m, w, ev.actions, interp, None).raised.None?
    requires var acts := RunActions(m, w, ev.actions, interp, None);
      CallHook(m, acts.world, Current(m).exit, interp, acts.next).raised.None?
    ensures var r := Fire(m, w, ev, interp);
      r.raised.None? ==> r.next == LastReturn(r.log)
  {
    var r := Fire(m, w, ev, interp);
    var acts := RunActions(m, w, ev.actions, interp, None);
    RunActionsOrder(m, w, ev.actions, interp, None);
    var target := ev.next.value;
    var ex := CallHook(m, acts.world, Current(m).exit, interp, acts.next);
    HookOrder(m, acts.world, Current(m).exit, interp, acts.next);
    var change: seq<Entry<A>> := if m.hooks.stateChange then [StateChange(target, StateName(m))] else [];
    var moved := m.(current := ev.next);
    var en := CallHook(moved, ex.world, m.states[target].enter, interp, ex.next);
    HookOrder(moved, ex.world, m.states[target].enter, interp, ex.next);
    FireMovesLog(m, w, ev, interp);
    AssembleLast(acts.log, ex.log, change, en.log);
    if r.raised.None? {
      CallsOnlyProjections(acts.log);
      CallsOnlyProjections(ex.log);
      CallsOnlyProjections(en.log);
      AllReturnedReturns(acts.log);
      AllReturnedReturns(ex.log);
      AllReturnedReturns(en.log);
      assert Returns(en.log) == [] <==> m.states[target].enter.None?;
      assert Returns(ex.log) == [] <==> Current(m).exit.None?;
      assert Returns(acts.log) == [] <==> ev.actions == [];
    }
  }

  lemma FireMovesCalls<A, W, E>(m: Machine<A>, w: W, ev: Event<A>, interp: (A, W) -> Outcome<W, E>)
    requires WellFormed(m)
    requires ev.next.Some? && ev.next.value in m.states
    requires RunActions(m, w, ev.actions, interp, None).raised.None?
    requires var acts := RunActions(m, w, ev.actions, interp, None);
      CallHook(m, acts.world, Current(m).exit, interp, acts.next).raised.None?
    ensures var r := Fire(m, w, ev, interp);
      Invoked(r.log) == Callables(m, ev) && r.machine.current == ev.next
  {
    var r := Fire(m, w, ev, interp);
    var acts := RunActions(m, w, ev.actions, interp, None);
    RunActionsInvoked(m, w, ev.actions, interp, None);
    var target := ev.next.value;
    var ex := CallHook(m, acts.world, Current(m).exit, interp, acts.next);
    HookOrder(m, acts.world, Current(m).exit, interp, acts.next);
    var change: seq<Entry<A>> := if m.hooks.stateChange then [StateChange(target, StateName(m))] else [];
    var moved := m.(current := ev.next);
    var en := CallHook(moved, ex.world, m.states[target].enter, interp, ex.next);
    HookOrder(moved, ex.world, m.states[target].enter, interp, ex.next);
    FireMovesLog(m, w, ev, interp);
    AssembleInvoked(acts.log, ex.log, change, en.log);
  }

  lemma FireMovesShapes<A, W, E>(m: Machine<A>, w: W, ev: Event<A>, interp: (A, W) -> Outcome<W, E>)
    requires WellFormed(m)
    requires ev.next.Some? && ev.next.value in m.states
    requires RunActions(m, w, ev.actions, interp, None).raised.None?
    requires var acts := RunActions(m, w, ev.actions, interp, None);
      CallHook(m, acts.world, Current(m).exit, interp, acts.next).raised.None?
    ensures var r := Fire(m, w, ev, interp);
      NoLookups(r.log) && (r.raised.None? ==> Quiet(r.log))
  {
    var r := Fire(m, w, ev, interp);
    var acts := RunActions(m, w, ev.actions, interp, None);
    RunActionsOrder(m, w, ev.actions, interp, None);
    var target := ev.next.value;
    var ex := CallHook(m, acts.world, Current(m).exit, interp, acts.next);
    HookOrder(m, acts.world, Current(m).exit, interp, acts.next);
    var change: seq<Entry<A>> := if m.hooks.stateChange then [StateChange(target, StateName(m))] else [];
    var moved := m.(current := ev.next);
    var en := CallHook(moved, ex.world, m.states[target].enter, interp, ex.next);
    HookOrder(moved, ex.world, m.states[target].enter, interp, ex.next);
    FireMovesLog(m, w, ev, interp);
    AssembleShapes(acts.log, ex.log, change, en.log);
  }

  lemma FireMovesChange<A, W, E>(m: Machine<A>, w: W, ev: Event<A>, interp: (A, W) -> Outcome<W, E>)
    requires WellFormed(m)
    requires ev.next.Some? && ev.next.value in m.states
    requires RunActions(m, w, ev.actions, interp, None).raised.None?
    requires var acts := RunActions(m, w, ev.actions, interp, None);
      CallHook(m, acts.world, Current(m).exit, interp, acts.next).raised.None?
    ensures var r := Fire(m, w, ev, interp);
      && Changes(r.log) == (if m.hooks.stateChange then [StateChange(ev.next.value, StateName(m))] else [])
      && (m.hooks.stateChange ==>
            exists k :: 0 <= k < |r.log| && r.log[k] == StateChange(ev.next.value, StateName(m))
              && Invoked(r.log[..k]) == ev.actions + Opt(Current(m).exit)
              && Invoked(r.log[k + 1..]) == Opt(m.states[ev.next.value].enter))
  {
    var r := Fire(m, w, ev, interp);
    var acts := RunActions(m, w, ev.actions, interp, None);
    RunActionsOrder(m, w, ev.actions, interp, None);
    var target := ev.next.value;
    var ex := CallHook(m, acts.world, Current(m).exit, interp, acts.next);
    HookOrder(m, acts.world, Current(m).exit, interp, acts.next);
    var change: seq<Entry<A>> := if m.hooks.stateChange then [StateChange(target, StateName(m))] else [];
    var moved := m.(current := ev.next);
    var en := CallHook(moved, ex.world, m.states[target].enter, interp, ex.next);
    HookOrder(moved, ex.world, m.states[target].enter, interp, ex.next);
    FireMovesLog(m, w, ev, interp);
    AssembleChanges(acts.log, ex.log, change, en.log);
    if m.hooks.stateChange {
      AssembleSplit(acts.log, ex.log, change, en.log);
      DistributeInvoked(acts.log, ex.log);
      var k := |acts.log + ex.log|;
      assert r.log[k] == StateChange(ev.next.value, StateName(m));
      assert Invoked(r.log[..k]) == ev.actions + Opt(Current(m).exit);
    }
  }

  lemma FireMoves<A, W, E>(m: Machine<A>, w: W, ev: Event<A>, interp: (A, W) -> Outcome<W, E>)
    requires WellFormed(m)
    requires ev.next.Some? && ev.next.value in m.states
    requires RunActions(m, w, ev.actions, interp, None).raised.None?
    requires var acts := RunActions(m, w, ev.actions, interp, None);
      CallHook(m, acts.world, Current(m).exit, interp, acts.next).raised.None?
    ensures Ordered(m, ev, Fire(m, w, ev, interp))
  {
    FireMovesCalls(m, w, ev, interp);
    FireMovesShapes(m, w, ev, interp);
    FireMovesChange(m, w, ev, interp);
    FireMovesNext(m, w, ev, interp);
  }

  /** One `_handle` step: the callables are invoked in the order actions, exit, enter; the
      state-change hook is called between exit and enter, only on a transition (including a
      transition to the same state); the continuation is the value returned by the last
      callable invoked, a later `None` overriding an earlier event; an event without a next
      state leaves the machine as it was. */
  lemma FireOrder<A, W, E>(m: Machine<A>, w: W, ev: Event<A>, interp: (A, W) -> Outcome<W, E>)
    requires WellFormed(m)
    requires ev.next.Some? ==> ev.next.value in m.states
    ensures var r := Fire(m, w, ev, interp);
      && NoLookups(r.log)
      && (r.raised.None? ==> Quiet(r.log) && Invoked(r.log) == Callables(m, ev))
      && (r.raised.Some? ==> 0 < |Invoked(r.log)| && Invoked(r.log) <= Callables(m, ev))
      && (r.raised.None? ==> r.next == LastReturn(r.log))
      && (ev.next.None? ==> r.machine == m && Changes(r.log) == [])
      && (ev.next.Some? && r.raised.None? ==> r.machine.current == ev.next)
      && (ev.next.Some? && r.raised.None? ==>
            Changes(r.log) == if m.hooks.stateChange then [StateChange(ev.next.value, StateName(m))] else [])
      && (ev.next.Some? && r.raised.None? && m.hooks.stateChange ==>
            exists k :: 0 <= k < |r.log| && r.log[k] == StateChange(ev.next.value, StateName(m))
              && Invoked(r.log[..k]) == ev.actions + Opt(Current(m).exit)
              && Invoked(r.log[k + 1..]) == Opt(m.states[ev.next.value].enter))
  {
    var acts := RunActions(m, w, ev.actions, interp, None);
    if acts.raised.Some? || ev.next.None? {
      FireStays(m, w, ev, interp);
    } else if CallHook(m, acts.world, Current(m).exit, interp, acts.next).raised.Some? {
      FireExitRaises(m, w, ev, interp);
    } else {
      FireMoves(m, w, ev, interp);
    }
  }


  lemma FireNoLookups<A, W, E>(m: Machine<A>, w: W, ev: Event<A>, interp: (A, W) -> Outcome<W, E>)
    requires WellFormed(m)
    requires ev.next.Some? ==> ev.next.value in m.states
    ensures Traces(Fire(m, w, ev, interp).log) == []
  {
    FireOrder(m, w, ev, interp);
    NoLookupsNoTraces(Fire(m, w, ev, interp).log);
  }

  /** Trace entries whose `is_internal` flag is `internal` for the first and True after. */
  ghost predicate FlagsFrom<A>(ts: seq<Entry<A>>, internal: bool) {
    forall i :: 0 <= i < |ts| ==> ts[i].Trace? && ts[i].isInternal == (internal || i > 0)
  }

  lemma FlagsAppend<A>(t: seq<Entry<A>>, rest: seq<Entry<A>>, internal: bool)
    requires |t| <= 1 && FlagsFrom(t, internal) && FlagsFrom(rest, true)
    requires t == [] ==> rest == []
    ensures FlagsFrom(t + rest, internal)
  {
    if t == [] {
      assert t + rest == [];
    } else {
      assert forall i :: 1 <= i < |t + rest| ==> (t + rest)[i] == rest[i - 1];
    }
  }

  lemma TraceOfShape<A>(m: Machine<A>, event: string, isDefault: bool, internal: bool)
    requires m.current.Some? && m.current.value in m.states
    ensures var t := TraceOf(m, event, isDefault, internal);
      |t| <= 1 && Traces(t) == t && FlagsFrom(t, internal) && (t == [] <==> !m.hooks.trace)
  {
    var t := TraceOf(m, event, isDefault, internal);
    if t != [] {
      Single(t[0]);
      assert t == [t[0]];
    }
  }

  lemma UndefinedOfShape<A>(m: Machine<A>, event: string, internal: bool)
    requires m.current.Some? && m.current.value in m.states
    ensures Traces(UndefinedOf(m, event, internal)) == []
  {
    var u := UndefinedOf(m, event, internal);
    if u != [] {
      Single(u[0]);
      assert u == [u[0]];
    }
  }

  /** The trace calls of a whole dispatch, with the flag and trace-hook facts. */
  ghost predicate FlagsOf<A, W, E>(r: Run<A, W, E>, trace: bool, internal: bool) {
    var ts := Traces(r.log);
    (!trace ==> ts == []) && FlagsFrom(ts, internal)
  }

  lemma InternalFlagMiss<A, W, E>(m: Machine<A>, w: W, event: Option<string>, internal: bool, interp: (A, W) -> Outcome<W, E>, fuel: nat)
    requires WellFormed(m)
    requires !Falsy(event) && fuel > 0
    requires Lookup(Current(m), event.value).None?
    ensures FlagsOf(Dispatch(m, w, event, internal, interp, fuel), m.hooks.trace, internal)
  {
    var trace := TraceOf(m, event.value, false, internal);
    TraceOfShape(m, event.value, false, internal);
    DispatchMiss(m, w, event, internal, interp, fuel);
    UndefinedOfShape(m, event.value, internal);
    DistributeTraces(trace, UndefinedOf(m, event.value, internal));
  }

  lemma InternalFlagRaise<A, W, E>(m: Machine<A>, w: W, event: Option<string>, internal: bool, interp: (A, W) -> Outcome<W, E>, fuel: nat)
    requires WellFormed(m)
    requires !Falsy(event) && fuel > 0
    requires Lookup(Current(m), event.value).Some?
    requires Fire(m, w, Lookup(Current(m), event.value).value.0, interp).raised.Some?
    ensures FlagsOf(Dispatch(m, w, event, internal, interp, fuel), m.hooks.trace, internal)
  {
    var found := Lookup(Current(m), event.value);
    var trace := TraceOf(m, event.value, found.value.1, internal);
    TraceOfShape(m, event.value, found.value.1, internal);
    var s := Fire(m, w, found.value.0, interp);
    FireNoLookups(m, w, found.value.0, interp);
    DistributeTraces(trace, s.log);
    DispatchRaise(m, w, event, internal, interp, fuel);
  }

  lemma InternalFlagCont<A, W, E>(m: Machine<A>, w: W, event: Option<string>, internal: bool, interp: (A, W) -> Outcome<W, E>, fuel: nat)
    requires WellFormed(m)
    requires !Falsy(event) && fuel > 0
    requires Lookup(Current(m), event.value).Some?
    requires Fire(m, w, Lookup(Current(m), event.value).value.0, interp).raised.None?
    requires var s := Fire(m, w, Lookup(Current(m), event.value).value.0, interp);
      FlagsOf(Dispatch(s.machine, s.world, s.next, true, interp, fuel - 1), m.hooks.trace, true)
    ensures FlagsOf(Dispatch(m, w, event, internal, interp, fuel), m.hooks.trace, internal)
  {
    var found := Lookup(Current(m), event.value);
    var trace := TraceOf(m, event.value, found.value.1, internal);
    TraceOfShape(m, event.value, found.value.1, internal);
    var s := Fire(m, w, found.value.0, interp);
    FireNoLookups(m, w, found.value.0, interp);
    var rest := Dispatch(s.machine, s.world, s.next, true, interp, fuel - 1);
    DispatchCont(m, w, event, internal, interp, fuel);
    DistributeTraces(trace, s.log);
    DistributeTraces(trace + s.log, rest.log);
    FlagsAppend(trace, Traces(rest.log), internal);
  }

  /** One lookup of the loop, given the property for the rest of the chain. */
  lemma InternalFlagStep<A, W, E>(m: Machine<A>, w: W, event: Option<string>, internal: bool, interp: (A, W) -> Outcome<W, E>, fuel: nat)
    requires WellFormed(m)
    requires !Falsy(event) && fuel > 0
    requires var found := Lookup(Current(m), event.value);
      found.Some? && Fire(m, w, found.value.0, interp).raised.None? ==>
        var s := Fire(m, w, found.value.0, interp);
        FlagsOf(Dispatch(s.machine, s.world, s.next, true, interp, fuel - 1), m.hooks.trace, true)
    ensures FlagsOf(Dispatch(m, w, event, internal, interp, fuel), m.hooks.trace, internal)
  {
    var found := Lookup(Current(m), event.value);
    if found.None? {
      InternalFlagMiss(m, w, event, internal, interp, fuel);
    } else if Fire(m, w, found.value.0, interp).raised.None? {
      InternalFlagCont(m, w, event, internal, interp, fuel);
    } else {
      InternalFlagRaise(m, w, event, internal, interp, fuel);
    }
  }

  /** `is_internal` is False only for the lookup of the caller's event: of the trace calls of
      one dispatch, the first reports `internal` and every later one True. */
  lemma {:induction false} InternalFlag<A, W, E>(m: Machine<A>, w: W, event: Option<string>, internal: bool, interp: (A, W) -> Outcome<W, E>, fuel: nat)
    requires WellFormed(m)
    ensures FlagsOf(Dispatch(m, w, event, internal, interp, fuel), m.hooks.trace, internal)
    decreases fuel
  {
    if Falsy(event) || fuel == 0 {
      DispatchIdle(m, w, event, internal, interp, fuel);
    } else {
      var found := Lookup(Current(m), event.value);
      if found.Some? {
        var s := Fire(m, w, found.value.0, interp);
        if s.raised.None? {
          InternalFlag(s.machine, s.world, s.next, true, interp, fuel - 1);
        }
      }
      InternalFlagStep(m, w, event, internal, interp, fuel);
    }
  }


  lemma {:induction false} NoLookupsNoTraces<A>(log: seq<Entry<A>>)
    requires NoLookups(log)
    ensures Traces(log) == []
  {
    if log != [] {
      NoLookupsNoTraces(log[1..]);
    }
  }

  /** `handle` as the caller sees it: the first trace call reports `is_internal` False and
      every later one True; the undefined call reports `is_internal` False exactly when the
      caller's own event found no handler. */
  lemma HandleInternalFlag<A, W, E>(m: Machine<A>, w: W, event: Option<string>, interp: (A, W) -> Outcome<W, E>, fuel: nat)
    requires WellFormed(m)
    ensures var ts := Traces(Handle(m, w, event, interp, fuel).log);
      forall i :: 0 <= i < |ts| ==> ts[i].Trace? && ts[i].isInternal == (i > 0)
    ensures var log := Handle(m, w, event, interp, fuel).log;
      forall i :: 0 <= i < |log| && log[i].Undefined? ==>
        (log[i].isInternal <==> Lookup(Current(m), event.value).Some?)
  {
    assert Handle(m, w, event, interp, fuel) == Dispatch(m, w, event, false, interp, fuel);
    InternalFlag(m, w, event, false, interp, fuel);
    LookupsReported(m, w, event, false, interp, fuel);
  }

  /** What a lookup hook is told agrees with the table: a trace call names a declared state
      and reports `is_default` exactly when the event is missing there and `default` is
      present; an undefined call names a declared state lacking both, reports `is_default`
      False and `is_internal` as `missInternal`. */
  ghost predicate Reports<A>(states: map<string, State<A>>, e: Entry<A>, missInternal: bool) {
    && (e.Trace? ==>
          && e.state in states
          && (e.isDefault <==> e.event !in states[e.state].events && DEFAULT in states[e.state].events))
    && (e.Undefined? ==>
          && e.state in states
          && e.event !in states[e.state].events && DEFAULT !in states[e.state].events
          && !e.isDefault && e.isInternal == missInternal)
  }

  ghost predicate AllReport<A>(states: map<string, State<A>>, log: seq<Entry<A>>, missInternal: bool) {
    forall i :: 0 <= i < |log| ==> Reports(states, log[i], missInternal)
  }

  lemma AllReportCat<A>(states: map<string, State<A>>, a: seq<Entry<A>>, b: seq<Entry<A>>, missInternal: bool)
    requires AllReport(states, a, missInternal) && AllReport(states, b, missInternal)
    ensures AllReport(states, a + b, missInternal)
  {
    forall i | 0 <= i < |a + b|
      ensures Reports(states, (a + b)[i], missInternal)
    {
      if i < |a| {
        assert (a + b)[i] == a[i];
      } else {
        assert (a + b)[i] == b[i - |a|];
      }
    }
  }

  lemma FireReports<A, W, E>(m: Machine<A>, w: W, ev: Event<A>, interp: (A, W) -> Outcome<W, E>, missInternal: bool)
    requires WellFormed(m)
    requires ev.next.Some? ==> ev.next.value in m.states
    ensures AllReport(m.states, Fire(m, w, ev, interp).log, missInternal)
  {
    FireOrder(m, w, ev, interp);
  }

  /** The trace entry of a lookup that found a handler, or fell back to `default`. */
  lemma TraceReports<A>(m: Machine<A>, event: string, internal: bool, missInternal: bool)
    requires WellFormed(m)
    ensures var found := Lookup(Current(m), event);
      AllReport(m.states, TraceOf(m, event, found.Some? && found.value.1, internal), missInternal)
  {
    var t := TraceOf(m, event, Lookup(Current(m), event).Some? && Lookup(Current(m), event).value.1, internal);
    if t != [] {
      assert t[0].state == m.current.value;
    }
  }

  lemma UndefinedReports<A>(m: Machine<A>, event: string, internal: bool)
    requires WellFormed(m)
    requires Lookup(Current(m), event).None?
    ensures AllReport(m.states, UndefinedOf(m, event, internal), internal)
  {
    var u := UndefinedOf(m, event, internal);
    if u != [] {
      assert u[0].state == m.current.value;
    }
  }

  lemma ReportsMiss<A, W, E>(m: Machine<A>, w: W, event: Option<string>, internal: bool, interp: (A, W) -> Outcome<W, E>, fuel: nat)
    requires WellFormed(m)
    requires !Falsy(event) && fuel > 0
    requires Lookup(Current(m), event.value).None?
    ensures AllReport(m.states, Dispatch(m, w, event, internal, interp, fuel).log, internal)
  {
    DispatchMiss(m, w, event, internal, interp, fuel);
    TraceReports(m, event.value, internal, internal);
    UndefinedReports(m, event.value, internal);
    AllReportCat(m.states, TraceOf(m, event.value, false, internal), UndefinedOf(m, event.value, internal), internal);
  }

  lemma ReportsRaise<A, W, E>(m: Machine<A>, w: W, event: Option<string>, internal: bool, interp: (A, W) -> Outcome<W, E>, fuel: nat)
    requires WellFormed(m)
    requires !Falsy(event) && fuel > 0
    requires Lookup(Current(m), event.value).Some?
    requires Fire(m, w, Lookup(Current(m), event.value).value.0, interp).raised.Some?
    ensures AllReport(m.states, Dispatch(m, w, event, internal, interp, fuel).log, true)
  {
    var found := Lookup(Current(m), event.value);
    var s := Fire(m, w, found.value.0, interp);
    DispatchRaise(m, w, event, internal, interp, fuel);
    TraceReports(m, event.value, internal, true);
    FireReports(m, w, found.value.0, interp, true);
    AllReportCat(m.states, TraceOf(m, event.value, found.value.1, internal), s.log, true);
  }

  lemma ReportsCont<A, W, E>(m: Machine<A>, w: W, event: Option<string>, internal: bool, interp: (A, W) -> Outcome<W, E>, fuel: nat)
    requires WellFormed(m)
    requires !Falsy(event) && fuel > 0
    requires Lookup(Current(m), event.value).Some?
    requires Fire(m, w, Lookup(Current(m), event.value).value.0, interp).raised.None?
    requires var s := Fire(m, w, Lookup(Current(m), event.value).value.0, interp);
      AllReport(m.states, Dispatch(s.machine, s.world, s.next, true, interp, fuel - 1).log, true)
    ensures AllReport(m.states, Dispatch(m, w, event, internal, interp, fuel).log, true)
  {
    var found := Lookup(Current(m), event.value);
    var trace := TraceOf(m, event.value, found.value.1, internal);
    var s := Fire(m, w, found.value.0, interp);
    var rest := Dispatch(s.machine, s.world, s.next, true, interp, fuel - 1);
    DispatchCont(m, w, event, internal, interp, fuel);
    TraceReports(m, event.value, internal, true);
    FireReports(m, w, found.value.0, interp, true);
    AllReportCat(m.states, trace, s.log, true);
    AllReportCat(m.states, trace + s.log, rest.log, true);
  }

  /** One lookup of the loop, given the property for the rest of the chain. */
  lemma ReportsStep<A, W, E>(m: Machine<A>, w: W, event: Option<string>, internal: bool, interp: (A, W) -> Outcome<W, E>, fuel: nat)
    requires WellFormed(m)
    requires !Falsy(event) && fuel > 0
    requires var found := Lookup(Current(m), event.value);
      found.Some? && Fire(m, w, found.value.0, interp).raised.None? ==>
        var s := Fire(m, w, found.value.0, interp);
        AllReport(m.states, Dispatch(s.machine, s.world, s.next, true, interp, fuel - 1).log, true)
    ensures AllReport(m.states, Dispatch(m, w, event, internal, interp, fuel).log,
      internal || Lookup(Current(m), event.value).Some?)
  {
    var found := Lookup(Current(m), event.value);
    if found.None? {
      ReportsMiss(m, w, event, internal, interp, fuel);
    } else if Fire(m, w, found.value.0, interp).raised.None? {
      ReportsCont(m, w, event, internal, interp, fuel);
    } else {
      ReportsRaise(m, w, event, internal, interp, fuel);
    }
  }

  /** The lookup hooks are told the truth over a whole dispatch: every trace call reports
      `is_default` exactly when the fallback was used, and the undefined call, if any, names a
      state lacking both the event and `default`, with `is_internal` False only when it is
      about the dispatch's own first event looked up with `internal` False. */
  lemma {:induction false} LookupsReported<A, W, E>(m: Machine<A>, w: W, event: Option<string>, internal: bool, interp: (A, W) -> Outcome<W, E>, fuel: nat)
    requires WellFormed(m)
    ensures AllReport(m.states, Dispatch(m, w, event, internal, interp, fuel).log,
      internal || (!Falsy(event) && Lookup(Current(m), event.value).Some?))
    decreases fuel
  {
    if Falsy(event) || fuel == 0 {
      DispatchIdle(m, w, event, internal, interp, fuel);
    } else {
      var found := Lookup(Current(m), event.value);
      if found.Some? {
        var s := Fire(m, w, found.value.0, interp);
        if s.raised.None? {
          LookupsReported(s.machine, s.world, s.next, true, interp, fuel - 1);
        }
      }
      ReportsStep(m, w, event, internal, interp, fuel);
    }
  }

  lemma FireQuiet<A, W, E>(m: Machine<A>, w: W, ev: Event<A>, interp: (A, W) -> Outcome<W, E>)
    requires WellFormed(m)
    requires ev.next.Some? ==> ev.next.value in m.states
    ensures var s := Fire(m, w, ev, interp);
      s.raised.None? ==> Quiet(s.log)
  {
    FireOrder(m, w, ev, interp);
  }

  lemma HandledIsQuietCont<A, W, E>(m: Machine<A>, w: W, event: Option<string>, internal: bool, interp: (A, W) -> Outcome<W, E>, fuel: nat)
    requires WellFormed(m)
    requires !Falsy(event) && fuel > 0
    requires Lookup(Current(m), event.value).Some?
    requires Fire(m, w, Lookup(Current(m), event.value).value.0, interp).raised.None?
    requires var s := Fire(m, w, Lookup(Current(m), event.value).value.0, interp);
      var rest := Dispatch(s.machine, s.world, s.next, true, interp, fuel - 1);
      rest.status == Done(true) ==> Quiet(rest.log)
    ensures var r := Dispatch(m, w, event, internal, interp, fuel);
      r.status == Done(true) ==> Quiet(r.log)
  {
    var found := Lookup(Current(m), event.value);
    var trace := TraceOf(m, event.value, found.value.1, internal);
    var s := Fire(m, w, found.value.0, interp);
    FireQuiet(m, w, found.value.0, interp);
    var rest := Dispatch(s.machine, s.world, s.next, true, interp, fuel - 1);
    DispatchCont(m, w, event, internal, interp, fuel);
    assert Quiet(trace);
    Shapes(trace, s.log);
    Shapes(trace + s.log, rest.log);
  }

  /** One lookup of the loop, given the property for the rest of the chain. */
  lemma HandledIsQuietStep<A, W, E>(m: Machine<A>, w: W, event: Option<string>, internal: bool, interp: (A, W) -> Outcome<W, E>, fuel: nat)
    requires WellFormed(m)
    requires !Falsy(event) && fuel > 0
    requires var found := Lookup(Current(m), event.value);
      found.Some? && Fire(m, w, found.value.0, interp).raised.None? ==>
        var s := Fire(m, w, found.value.0, interp);
        var rest := Dispatch(s.machine, s.world, s.next, true, interp, fuel - 1);
        rest.status == Done(true) ==> Quiet(rest.log)
    ensures var r := Dispatch(m, w, event, internal, interp, fuel);
      r.status == Done(true) ==> Quiet(r.log)
  {
    var found := Lookup(Current(m), event.value);
    if found.None? {
      DispatchMiss(m, w, event, internal, interp, fuel);
    } else if Fire(m, w, found.value.0, interp).raised.None? {
      HandledIsQuietCont(m, w, event, internal, interp, fuel);
    } else {
      DispatchRaise(m, w, event, internal, interp, fuel);
    }
  }

  /** When `handle` returns True, no lookup failed and nothing raised along the chain. */
  lemma {:induction false} HandledIsQuiet<A, W, E>(m: Machine<A>, w: W, event: Option<string>, internal: bool, interp: (A, W) -> Outcome<W, E>, fuel: nat)
    requires WellFormed(m)
    ensures var r := Dispatch(m, w, event, internal, interp, fuel);
      r.status == Done(true) ==> Quiet(r.log)
    decreases fuel
  {
    if Falsy(event) || fuel == 0 {
      DispatchIdle(m, w, event, internal, interp, fuel);
    } else {
      var found := Lookup(Current(m), event.value);
      if found.Some? {
        var s := Fire(m, w, found.value.0, interp);
        if s.raised.None? {
          HandledIsQuiet(s.machine, s.world, s.next, true, interp, fuel - 1);
        }
      }
      HandledIsQuietStep(m, w, event, internal, interp, fuel);
    }
  }


  /** What a dispatch ending in False leaves: the undefined hook is the last call, it names
      the final current state, which has neither the event nor a `default` event, and (with
      tracing) it directly follows the trace of the same lookup, reported as not a fallback. */
  ghost predicate StopsInPlace<A, W, E>(r: Run<A, W, E>)
    requires WellFormed(r.machine)
  {
    r.status == Done(false) ==>
      && |r.log| > 0
      && var u := r.log[|r.log| - 1];
      && u.Undefined? && u == Undefined(StateName(r.machine), u.event, false, u.isInternal)
      && u.event !in Current(r.machine).events && DEFAULT !in Current(r.machine).events
      && (r.machine.hooks.trace ==> |r.log| > 1 && r.log[|r.log| - 2] == Trace(u.state, u.event, false, u.isInternal))
  }

  lemma StopsInPlaceMiss<A, W, E>(m: Machine<A>, w: W, event: Option<string>, internal: bool, interp: (A, W) -> Outcome<W, E>, fuel: nat)
    requires WellFormed(m) && m.hooks.undefined
    requires !Falsy(event) && fuel > 0
    requires Lookup(Current(m), event.value).None?
    ensures StopsInPlace(Dispatch(m, w, event, internal, interp, fuel))
  {
    DispatchMiss(m, w, event, internal, interp, fuel);
  }

  lemma StopsInPlaceRaise<A, W, E>(m: Machine<A>, w: W, event: Option<string>, internal: bool, interp: (A, W) -> Outcome<W, E>, fuel: nat)
    requires WellFormed(m)
    requires !Falsy(event) && fuel > 0
    requires Lookup(Current(m), event.value).Some?
    requires Fire(m, w, Lookup(Current(m), event.value).value.0, interp).raised.Some?
    ensures StopsInPlace(Dispatch(m, w, event, internal, interp, fuel))
  {
    DispatchRaise(m, w, event, internal, interp, fuel);
  }

  lemma StopsInPlaceCont<A, W, E>(m: Machine<A>, w: W, event: Option<string>, internal: bool, interp: (A, W) -> Outcome<W, E>, fuel: nat)
    requires WellFormed(m)
    requires !Falsy(event) && fuel > 0
    requires Lookup(Current(m), event.value).Some?
    requires Fire(m, w, Lookup(Current(m), event.value).value.0, interp).raised.None?
    requires var s := Fire(m, w, Lookup(Current(m), event.value).value.0, interp);
      StopsInPlace(Dispatch(s.machine, s.world, s.next, true, interp, fuel - 1))
    ensures StopsInPlace(Dispatch(m, w, event, internal, interp, fuel))
  {
    var found := Lookup(Current(m), event.value);
    var trace := TraceOf(m, event.value, found.value.1, internal);
    var s := Fire(m, w, found.value.0, interp);
    var rest := Dispatch(s.machine, s.world, s.next, true, interp, fuel - 1);
    DispatchCont(m, w, event, internal, interp, fuel);
    StopsInPlaceAfter(rest, trace + s.log);
  }

  /** Calls logged before a run do not disturb how it stops. */
  lemma StopsInPlaceAfter<A, W, E>(rest: Run<A, W, E>, before: seq<Entry<A>>)
    requires WellFormed(rest.machine)
    requires StopsInPlace(rest)
    ensures StopsInPlace(rest.(log := before + rest.log))
  {
    var r := rest.(log := before + rest.log);
    if r.status == Done(false) {
      assert r.log[|r.log| - 1] == rest.log[|rest.log| - 1];
      if r.machine.hooks.trace {
        assert r.log[|r.log| - 2] == rest.log[|rest.log| - 2];
      }
    }
  }

  /** One lookup of the loop, given the property for the rest of the chain. */
  lemma UnhandledStopsInPlaceStep<A, W, E>(m: Machine<A>, w: W, event: Option<string>, internal: bool, interp: (A, W) -> Outcome<W, E>, fuel: nat)
    requires WellFormed(m) && m.hooks.undefined
    requires !Falsy(event) && fuel > 0
    requires var found := Lookup(Current(m), event.value);
      found.Some? && Fire(m, w, found.value.0, interp).raised.None? ==>
        var s := Fire(m, w, found.value.0, interp);
        StopsInPlace(Dispatch(s.machine, s.world, s.next, true, interp, fuel - 1))
    ensures StopsInPlace(Dispatch(m, w, event, internal, interp, fuel))
  {
    var found := Lookup(Current(m), event.value);
    if found.None? {
      StopsInPlaceMiss(m, w, event, internal, interp, fuel);
    } else if Fire(m, w, found.value.0, interp).raised.None? {
      StopsInPlaceCont(m, w, event, internal, interp, fuel);
    } else {
      StopsInPlaceRaise(m, w, event, internal, interp, fuel);
    }
  }

  /** A failed lookup leaves the machine where the chain brought it: transitions made
      earlier in the chain stay made, and the last calls are the trace and undefined hooks
      of that lookup. */
  lemma {:induction false} UnhandledStopsInPlace<A, W, E>(m: Machine<A>, w: W, event: Option<string>, internal: bool, interp: (A, W) -> Outcome<W, E>, fuel: nat)
    requires WellFormed(m)
    requires m.hooks.undefined
    ensures StopsInPlace(Dispatch(m, w, event, internal, interp, fuel))
    decreases fuel
  {
    if Falsy(event) || fuel == 0 {
      DispatchIdle(m, w, event, internal, interp, fuel);
    } else {
      var found := Lookup(Current(m), event.value);
      if found.Some? {
        var s := Fire(m, w, found.value.0, interp);
        if s.raised.None? {
          UnhandledStopsInPlace(s.machine, s.world, s.next, true, interp, fuel - 1);
        }
      }
      UnhandledStopsInPlaceStep(m, w, event, internal, interp, fuel);
    }
  }

  lemma FuelMonotoneMiss<A, W, E>(m: Machine<A>, w: W, event: Option<string>, internal: bool, interp: (A, W) -> Outcome<W, E>, fuel: nat, more: nat)
    requires WellFormed(m)
    requires !Falsy(event) && 0 < fuel <= more
    requires Lookup(Current(m), event.value).None?
    ensures Dispatch(m, w, event, internal, interp, more) == Dispatch(m, w, event, internal, interp, fuel)
  {
    DispatchMiss(m, w, event, internal, interp, fuel);
    DispatchMiss(m, w, event, internal, interp, more);
  }

  lemma FuelMonotoneRaise<A, W, E>(m: Machine<A>, w: W, event: Option<string>, internal: bool, interp: (A, W) -> Outcome<W, E>, fuel: nat, more: nat)
    requires WellFormed(m)
    requires !Falsy(event) && 0 < fuel <= more
    requires Lookup(Current(m), event.value).Some?
    requires Fire(m, w, Lookup(Current(m), event.value).value.0, interp).raised.Some?
    ensures Dispatch(m, w, event, internal, interp, more) == Dispatch(m, w, event, internal, interp, fuel)
  {
    DispatchRaise(m, w, event, internal, interp, fuel);
    DispatchRaise(m, w, event, internal, interp, more);
  }

  lemma FuelMonotoneCont<A, W, E>(m: Machine<A>, w: W, event: Option<string>, internal: bool, interp: (A, W) -> Outcome<W, E>, fuel: nat, more: nat)
    requires WellFormed(m)
    requires !Falsy(event) && 0 < fuel <= more
    requires Lookup(Current(m), event.value).Some?
    requires Fire(m, w, Lookup(Current(m), event.value).value.0, interp).raised.None?
    requires var s := Fire(m, w, Lookup(Current(m), event.value).value.0, interp);
      Dispatch(s.machine, s.world, s.next, true, interp, more - 1) == Dispatch(s.machine, s.world, s.next, true, interp, fuel - 1)
    ensures Dispatch(m, w, event, internal, interp, more) == Dispatch(m, w, event, internal, interp, fuel)
  {
    DispatchCont(m, w, event, internal, interp, fuel);
    DispatchCont(m, w, event, internal, interp, more);
  }

  /** One lookup of the loop, given that the rest of the chain ignores the larger bound. */
  lemma FuelMonotoneStep<A, W, E>(m: Machine<A>, w: W, event: Option<string>, internal: bool, interp: (A, W) -> Outcome<W, E>, fuel: nat, more: nat)
    requires WellFormed(m)
    requires !Falsy(event) && 0 < fuel <= more
    requires var found := Lookup(Current(m), event.value);
      found.Some? && Fire(m, w, found.value.0, interp).raised.None? ==>
        var s := Fire(m, w, found.value.0, interp);
        Dispatch(s.machine, s.world, s.next, true, interp, more - 1) == Dispatch(s.machine, s.world, s.next, true, interp, fuel - 1)
    ensures Dispatch(m, w, event, internal, interp, more) == Dispatch(m, w, event, internal, interp, fuel)
  {
    var found := Lookup(Current(m), event.value);
    if found.None? {
      FuelMonotoneMiss(m, w, event, internal, interp, fuel, more);
    } else if Fire(m, w, found.value.0, interp).raised.None? {
      FuelMonotoneCont(m, w, event, internal, interp, fuel, more);
    } else {
      FuelMonotoneRaise(m, w, event, internal, interp, fuel, more);
    }
  }

  /** A chain that goes on ends the way its rest ends. */
  lemma ContStatus<A, W, E>(m: Machine<A>, w: W, event: Option<string>, internal: bool, interp: (A, W) -> Outcome<W, E>, fuel: nat)
    requires WellFormed(m)
    requires !Falsy(event) && fuel > 0
    requires Lookup(Current(m), event.value).Some?
    requires Fire(m, w, Lookup(Current(m), event.value).value.0, interp).raised.None?
    ensures var s := Fire(m, w, Lookup(Current(m), event.value).value.0, interp);
      Dispatch(m, w, event, internal, interp, fuel).status == Dispatch(s.machine, s.world, s.next, true, interp, fuel - 1).status
  {
    DispatchCont(m, w, event, internal, interp, fuel);
  }

  /** The bound only cuts a chain short: once a run finishes within some number of lookups,
      any larger bound gives the same run. */
  lemma {:induction false} FuelMonotone<A, W, E>(m: Machine<A>, w: W, event: Option<string>, internal: bool, interp: (A, W) -> Outcome<W, E>, fuel: nat, more: nat)
    requires WellFormed(m)
    requires fuel <= more
    requires !Dispatch(m, w, event, internal, interp, fuel).status.OutOfFuel?
    ensures Dispatch(m, w, event, internal, interp, more) == Dispatch(m, w, event, internal, interp, fuel)
    decreases fuel
  {
    if Falsy(event) {
      DispatchIdle(m, w, event, internal, interp, fuel);
      DispatchIdle(m, w, event, internal, interp, more);
    } else if fuel == 0 {
      assert false;
    } else {
      var found := Lookup(Current(m), event.value);
      if found.Some? {
        var s := Fire(m, w, found.value.0, interp);
        if s.raised.None? {
          ContStatus(m, w, event, internal, interp, fuel);
          FuelMonotone(s.machine, s.world, s.next, true, interp, fuel - 1, more - 1);
        }
      }
      FuelMonotoneStep(m, w, event, internal, interp, fuel, more);
    }
  }

  /** A falsy event, or no lookup left, ends the loop at once with nothing logged. */
  lemma DispatchIdle<A, W, E>(m: Machine<A>, w: W, event: Option<string>, internal: bool, interp: (A, W) -> Outcome<W, E>, fuel: nat)
    requires WellFormed(m)
    requires Falsy(event) || fuel == 0
    ensures var r := Dispatch(m, w, event, internal, interp, fuel);
      r.log == [] && r.machine == m && r.world == w && (Falsy(event) ==> r.status == Done(true))
  {
  }

  /** A failed lookup ends the loop with False, the machine and world as they were. */
  lemma DispatchMiss<A, W, E>(m: Machine<A>, w: W, event: Option<string>, internal: bool, interp: (A, W) -> Outcome<W, E>, fuel: nat)
    requires WellFormed(m)
    requires !Falsy(event) && fuel > 0
    requires Lookup(Current(m), event.value).None?
    ensures Dispatch(m, w, event, internal, interp, fuel)
      == Run(Done(false), m, w, TraceOf(m, event.value, false, internal) + UndefinedOf(m, event.value, internal))
  {
  }

  /** A raise ends the loop where the step stopped. */
  lemma DispatchRaise<A, W, E>(m: Machine<A>, w: W, event: Option<string>, internal: bool, interp: (A, W) -> Outcome<W, E>, fuel: nat)
    requires WellFormed(m)
    requires !Falsy(event) && fuel > 0
    requires Lookup(Current(m), event.value).Some?
    requires Fire(m, w, Lookup(Current(m), event.value).value.0, interp).raised.Some?
    ensures var found := Lookup(Current(m), event.value);
      var s := Fire(m, w, found.value.0, interp);
      Dispatch(m, w, event, internal, interp, fuel)
        == Run(Failed(s.raised.value), s.machine, s.world, TraceOf(m, event.value, found.value.1, internal) + s.log)
  {
  }

  /** A step that returns continues the loop with what it returned, as an internal event. */
  lemma DispatchCont<A, W, E>(m: Machine<A>, w: W, event: Option<string>, internal: bool, interp: (A, W) -> Outcome<W, E>, fuel: nat)
    requires WellFormed(m)
    requires !Falsy(event) && fuel > 0
    requires Lookup(Current(m), event.value).Some?
    requires Fire(m, w, Lookup(Current(m), event.value).value.0, interp).raised.None?
    ensures var found := Lookup(Current(m), event.value);
      var s := Fire(m, w, found.value.0, interp);
      var rest := Dispatch(s.machine, s.world, s.next, true, interp, fuel - 1);
      Dispatch(m, w, event, internal, interp, fuel)
        == rest.(log := TraceOf(m, event.value, found.value.1, internal) + s.log + rest.log)
  {
  }
}
