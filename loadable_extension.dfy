/**
 * `bind(to:)`: attaches a publisher to a `Loadable`. The subscription sets
 * `.loading`, each output `v` sets `.value(v)`, a failed completion sets
 * `.error(e)`; a successful completion and a cancellation set nothing.
 */
module LoadableExtension {
  import opened Prelude
  import opened LoadableStates
  import opened Events
  import opened CombineLoadable

  /** The `setState` calls the hooks make for one event. */
  function CallsFor<V, E>(ev: Event<V, E>): seq<LoadableState<V, E>>
  {
    match ev
    case Subscribe => [Loading]
    case Out(v) => [Value(Some(v))]
    case Failed(e) => [Error(e)]
    case Finished => []
    case Cancel => []
  }

  /** The `setState` calls the hooks make for a whole trace, in order. */
  function BindCalls<V, E>(t: seq<Event<V, E>>): seq<LoadableState<V, E>>
  {
    if t == [] then [] else BindCalls(t[..|t| - 1]) + CallsFor(Last(t))
  }

  /** What the returned publisher forwards downstream for one event: outputs and completions. */
  function Forwarded<V, E>(ev: Event<V, E>): seq<Event<V, E>>
  {
    if ev.Out? || ev.Finished? || ev.Failed? then [ev] else []
  }

  /** The hooks of `bind(to: loadable)` for one event. */
  method OnEvent<V, E>(ev: Event<V, E>, loadable: Loadable<V, E>)
    requires loadable.Valid()
    modifies loadable
    ensures loadable.Valid()
    ensures loadable.stateLog == old(loadable.stateLog) + CallsFor(ev)
    ensures old(loadable.Recorded()) ==> loadable.Recorded()
  {
    match ev {
      case Subscribe =>
        loadable.SetState(Loading);
      case Out(v) =>
        loadable.SetState(Value(Some(v)));
      case Failed(e) =>
        loadable.SetState(Error(e));
      case Finished =>
      case Cancel =>
    }
  }

  /** Runs the hooks of `bind(to: loadable)` over `trace`; returns what the returned publisher delivers downstream. */
  method Bind<V, E>(trace: seq<Event<V, E>>, loadable: Loadable<V, E>) returns (passed: seq<Event<V, E>>)
    requires loadable.Valid()
    modifies loadable
    ensures loadable.Valid()
    ensures loadable.stateLog == old(loadable.stateLog) + BindCalls(trace)
    ensures old(loadable.Recorded()) ==> loadable.Recorded()
    ensures passed == Signals(trace)
  {
    passed := [];
    var i := 0;
    ghost var start := loadable.stateLog;
    while i < |trace|
      invariant 0 <= i <= |trace|
      invariant loadable.Valid()
      invariant loadable.stateLog == start + BindCalls(trace[..i])
      invariant old(loadable.Recorded()) ==> loadable.Recorded()
      invariant passed == Signals(trace[..i])
    {
      var ev := trace[i];
      OnEvent(ev, loadable);
      BindStep(trace, i, start);
      passed := passed + Forwarded(ev);
      i := i + 1;
    }
    assert trace[..|trace|] == trace;
  }

  /** One more event of the trace adds its calls and its forwarded signal. */
  lemma BindStep<V, E>(t: seq<Event<V, E>>, i: nat, start: seq<LoadableState<V, E>>)
    requires i < |t|
    ensures start + BindCalls(t[..i + 1]) == start + BindCalls(t[..i]) + CallsFor(t[i])
    ensures Signals(t[..i + 1]) == Signals(t[..i]) + Forwarded(t[i])
  {
    assert t[..i + 1][..i] == t[..i] && Last(t[..i + 1]) == t[i];
  }

  lemma {:induction false} BindCallsAppend<V, E>(a: seq<Event<V, E>>, b: seq<Event<V, E>>)
    ensures BindCalls(a + b) == BindCalls(a) + BindCalls(b)
  {
    if b == [] {
      assert a + b == a;
    } else {
      var b' := b[..|b| - 1];
      assert (a + b)[..|a + b| - 1] == a + b' && Last(a + b) == Last(b);
      BindCallsAppend(a, b');
      calc {
        BindCalls(a + b);
        BindCalls(a + b') + CallsFor(Last(b));
        BindCalls(a) + BindCalls(b') + CallsFor(Last(b));
        BindCalls(a) + (BindCalls(b') + CallsFor(Last(b)));
      }
    }
  }

  lemma ValuesOfOneEvent<V, E>(x: Event<V, E>)
    ensures ValuePayloads(CallsFor(x)) == SomeAll(if x.Out? then [x.output] else [])
  {
    var c := CallsFor(x);
    if c != [] {
      assert c[..0] == [];
    }
    if x.Out? {
      assert [x.output][1..] == [];
    }
  }

  /** Each output `v` becomes a `.value(v)`, in production order, and nothing else becomes a `.value`. */
  lemma {:induction false} BindSetsValuesInOrder<V, E>(t: seq<Event<V, E>>)
    ensures ValuePayloads(BindCalls(t)) == SomeAll(Outputs(t))
  {
    if t != [] {
      var t', x := t[..|t| - 1], Last(t);
      var outs: seq<V> := if x.Out? then [x.output] else [];
      BindSetsValuesInOrder(t');
      PayloadsAppend(BindCalls(t'), CallsFor(x));
      SomeAllAppend(Outputs(t'), outs);
      ValuesOfOneEvent(x);
    }
  }

  /** Each failed completion `e` becomes an `.error(e)`, and nothing else becomes an `.error`. */
  lemma {:induction false} BindSetsErrors<V, E>(t: seq<Event<V, E>>)
    ensures ErrorPayloads(BindCalls(t)) == Failures(t)
  {
    if t != [] {
      var t' := t[..|t| - 1];
      BindSetsErrors(t');
      PayloadsAppend(BindCalls(t'), CallsFor(Last(t)));
      assert [] + CallsFor(Last(t)) == CallsFor(Last(t));
    }
  }

  /** A run of outputs sets one `.value` per output, in order. */
  lemma {:induction false} BindCallsOfOutputs<V, E>(vs: seq<V>)
    ensures |BindCalls(OutEvents<V, E>(vs))| == |vs|
    ensures forall i :: 0 <= i < |vs| ==> BindCalls(OutEvents<V, E>(vs))[i] == Value(Some(vs[i]))
  {
    if vs != [] {
      var vs' := vs[..|vs| - 1];
      BindCallsOfOutputs<V, E>(vs');
      assert OutEvents<V, E>(vs)[..|OutEvents<V, E>(vs)| - 1] == OutEvents(vs');
      OutEventsCarry<V, E>(vs');
    }
  }

  /**
   * A producer that subscribes, emits `vs` and then ends with `c` sets
   * `.loading`, one `.value` per output and, on failure only, `.error(e)`.
   * Its last call is `.error(e)` after a failure; otherwise it is the last
   * output, or `.loading` when there was none: a producer that finishes or
   * is cancelled without an output leaves the loadable loading.
   */
  lemma {:induction false} BindOneProducer<V, E>(vs: seq<V>, c: Event<V, E>)
    requires IsTerminal(c)
    ensures var calls := BindCalls([Subscribe] + OutEvents(vs) + [c]);
      && calls == [Loading] + BindCalls(OutEvents(vs)) + (if c.Failed? then [Error(c.failure)] else [])
      && Last(calls) == if c.Failed? then Error(c.failure) else if vs == [] then Loading else Value(Some(Last(vs)))
  {
    var outs := OutEvents<V, E>(vs);
    var sub: seq<Event<V, E>> := [Subscribe];
    BindCallsAppend(sub, outs);
    BindCallsAppend(sub + outs, [c]);
    assert sub[..0] == [] && [c][..0] == [];
    assert BindCalls(sub) == [Loading];
    BindCallsOfOutputs<V, E>(vs);
  }

  /** A successful completion and a cancellation set no state. */
  lemma BindIgnoresFinishAndCancel<V, E>(t: seq<Event<V, E>>)
    ensures BindCalls(t + [Finished]) == BindCalls(t)
    ensures BindCalls(t + [Cancel]) == BindCalls(t)
  {
    assert (t + [Finished])[..|t|] == t;
    assert (t + [Cancel])[..|t|] == t;
  }

  /** The trace of a producer that subscribes, emits `v` and finishes sets `.loading` then `.value(v)` and forwards `v` and the completion. */
  lemma SingleValueTrace<V, E>(v: V)
    ensures BindCalls<V, E>([Subscribe, Out(v), Finished]) == [Loading, Value(Some(v))]
    ensures Signals<V, E>([Subscribe, Out(v), Finished]) == [Out(v), Finished]
  {
    var trace: seq<Event<V, E>> := [Subscribe, Out(v), Finished];
    assert trace[..2][..1] == trace[..1] && trace[..1][..0] == [] && trace[..3] == trace;
    assert BindCalls(trace[..1]) == [Loading] && Signals(trace[..1]) == [];
    assert BindCalls(trace[..2]) == [Loading, Value(Some(v))] && Signals(trace[..2]) == [Out(v)];
  }

  /**
   * Binding a producer that subscribes, emits `v` and finishes appends
   * `.loading` then `.value(v)` to the state log and leaves the loadable
   * holding `v` and not loading.
   */
  method BindSingleValue<V, E>(loadable: Loadable<V, E>, v: V) returns (passed: seq<Event<V, E>>)
    requires loadable.Valid()
    modifies loadable
    ensures loadable.Valid()
    ensures loadable.stateLog == old(loadable.stateLog) + [Loading, Value(Some(v))]
    ensures old(loadable.Recorded()) ==> loadable.Recorded()
    ensures passed == [Out(v), Finished]
    ensures !loadable.IsLoading() && loadable.Value() == Some(v) && loadable.ErrorValue() == None
  {
    SingleValueTrace<V, E>(v);
    passed := Bind([Subscribe, Out(v), Finished], loadable);
    assert Last(loadable.stateLog) == Value(Some(v));
  }
}
