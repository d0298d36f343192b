/**
 * The publisher operators that report on a stream without changing it:
 * `handleResult` and `sinkWithResult` turn outputs and failures into
 * `Result` callbacks, `observeLoadingStatus` sends a loading flag to a
 * subject, and `bindOutput` sends every output to a current-value subject.
 */
module PublisherExtension {
  import opened Prelude
  import opened Events
  import opened Subjects

  /** The result callback made for one event: success per output, failure per failed completion. */
  function ResultFor<V, E>(ev: Event<V, E>): seq<Result<V, E>>
  {
    match ev
    case Out(v) => [Success(v)]
    case Failed(e) => [Failure(e)]
    case _ => []
  }

  /** The successes of a callback sequence, in order. */
  function Successes<V, E>(r: seq<Result<V, E>>): seq<V>
  {
    if r == [] then []
    else Successes(r[..|r| - 1]) + (if Last(r).Success? then [Last(r).value] else [])
  }

  /** The failures of a callback sequence, in order. */
  function Errors<V, E>(r: seq<Result<V, E>>): seq<E>
  {
    if r == [] then []
    else Errors(r[..|r| - 1]) + (if Last(r).Failure? then [Last(r).error] else [])
  }

  /**
   * The result callbacks for a whole trace: one success per output and one
   * failure per failed completion, and nothing for a successful completion,
   * the subscription or a cancellation.
   */
  function ResultCallbacks<V, E>(t: seq<Event<V, E>>): (r: seq<Result<V, E>>)
    ensures Successes(r) == Outputs(t)
    ensures Errors(r) == Failures(t)
    ensures |r| == |Outputs(t)| + |Failures(t)|
  {
    if t == [] then []
    else
      var r', x := ResultCallbacks(t[..|t| - 1]), Last(t);
      assert (r' + ResultFor(x))[..|r'|] == r';
      assert ResultFor(x) == [] ==> r' + ResultFor(x) == r';
      r' + ResultFor(x)
  }

  lemma ResultCallbacksStep<V, E>(t: seq<Event<V, E>>, i: nat)
    requires i < |t|
    ensures ResultCallbacks(t[..i + 1]) == ResultCallbacks(t[..i]) + ResultFor(t[i])
    ensures Signals(t[..i + 1]) == Signals(t[..i]) + (if t[i].Out? || t[i].Finished? || t[i].Failed? then [t[i]] else [])
  {
    assert t[..i + 1][..i] == t[..i] && Last(t[..i + 1]) == t[i];
  }

  /** `handleResult`: the callbacks it makes over `trace`, and what it passes downstream. */
  method HandleResult<V, E>(trace: seq<Event<V, E>>) returns (results: seq<Result<V, E>>, passed: seq<Event<V, E>>)
    ensures results == ResultCallbacks(trace)
    ensures passed == Signals(trace)
  {
    results, passed := [], [];
    var i := 0;
    while i < |trace|
      invariant 0 <= i <= |trace|
      invariant results == ResultCallbacks(trace[..i])
      invariant passed == Signals(trace[..i])
    {
      ResultCallbacksStep(trace, i);
      match trace[i] {
        case Out(v) =>
          results := results + [Success(v)];
          passed := passed + [trace[i]];
        case Failed(e) =>
          results := results + [Failure(e)];
          passed := passed + [trace[i]];
        case Finished =>
          passed := passed + [trace[i]];
        case Subscribe =>
        case Cancel =>
      }
      i := i + 1;
    }
    assert trace[..|trace|] == trace;
  }

  /** `sinkWithResult`: the same callbacks as `handleResult`, at the end of the stream. */
  method SinkWithResult<V, E>(trace: seq<Event<V, E>>) returns (results: seq<Result<V, E>>)
    ensures results == ResultCallbacks(trace)
  {
    results := [];
    for i := 0 to |trace|
      invariant results == ResultCallbacks(trace[..i])
    {
      ResultCallbacksStep(trace, i);
      match trace[i] {
        case Finished =>
        case Failed(e) =>
          results := results + [Failure(e)];
        case Out(v) =>
          results := results + [Success(v)];
        case Subscribe =>
        case Cancel =>
      }
    }
    assert trace[..|trace|] == trace;
  }

  /** A successful completion makes no callback. */
  lemma NoCallbackOnFinished<V, E>(t: seq<Event<V, E>>)
    ensures ResultCallbacks(t + [Finished]) == ResultCallbacks(t)
  {
    assert (t + [Finished])[..|t|] == t;
  }

  /** The flag `observeLoadingStatus` sends for one event: `true` on subscription, `false` on a completion or a cancellation. */
  function LoadingFor<V, E>(ev: Event<V, E>): seq<bool>
  {
    match ev
    case Subscribe => [true]
    case Out(_) => []
    case Finished => [false]
    case Failed(_) => [false]
    case Cancel => [false]
  }

  /** The flags `observeLoadingStatus` sends over a whole trace. */
  function LoadingSends<V, E>(t: seq<Event<V, E>>): seq<bool>
  {
    if t == [] then [] else LoadingSends(t[..|t| - 1]) + LoadingFor(Last(t))
  }

  lemma LoadingSendsStep<V, E>(t: seq<Event<V, E>>, i: nat)
    requires i < |t|
    ensures LoadingSends(t[..i + 1]) == LoadingSends(t[..i]) + LoadingFor(t[i])
    ensures Signals(t[..i + 1]) == Signals(t[..i]) + (if t[i].Out? || t[i].Finished? || t[i].Failed? then [t[i]] else [])
    ensures Outputs(t[..i + 1]) == Outputs(t[..i]) + (if t[i].Out? then [t[i].output] else [])
  {
    assert t[..i + 1][..i] == t[..i] && Last(t[..i + 1]) == t[i];
  }

  /** `observeLoadingStatus(on: subject)`: sends the loading flags to `subject` and passes the stream on. */
  method ObserveLoadingStatus<V, E>(trace: seq<Event<V, E>>, subject: PassthroughSubject<bool>)
    returns (passed: seq<Event<V, E>>)
    modifies subject
    ensures subject.sent == old(subject.sent) + LoadingSends(trace)
    ensures passed == Signals(trace)
  {
    passed := [];
    var i := 0;
    while i < |trace|
      invariant 0 <= i <= |trace|
      invariant subject.sent == old(subject.sent) + LoadingSends(trace[..i])
      invariant passed == Signals(trace[..i])
    {
      LoadingSendsStep(trace, i);
      match trace[i] {
        case Subscribe =>
          subject.Send(true);
        case Out(_) =>
          passed := passed + [trace[i]];
        case Finished =>
          subject.Send(false);
          passed := passed + [trace[i]];
        case Failed(_) =>
          subject.Send(false);
          passed := passed + [trace[i]];
        case Cancel =>
          subject.Send(false);
      }
      i := i + 1;
    }
    assert trace[..|trace|] == trace;
  }

  lemma {:induction false} LoadingSendsAppend<V, E>(a: seq<Event<V, E>>, b: seq<Event<V, E>>)
    ensures LoadingSends(a + b) == LoadingSends(a) + LoadingSends(b)
  {
    if b == [] {
      assert a + b == a;
    } else {
      var b' := b[..|b| - 1];
      assert (a + b)[..|a + b| - 1] == a + b';
      var l := Last(b);
      assert Last(a + b) == l;
      LoadingSendsAppend(a, b');
      calc {
        LoadingSends(a + b);
        LoadingSends(a + b') + LoadingFor(l);
        LoadingSends(a) + LoadingSends(b') + LoadingFor(l);
        LoadingSends(a) + (LoadingSends(b') + LoadingFor(l));
      }
    }
  }

  /** Outputs send no loading flag. */
  lemma {:induction false} NoLoadingFlagForOutputs<V, E>(vs: seq<V>)
    ensures LoadingSends(OutEvents<V, E>(vs)) == []
  {
    if vs != [] {
      NoLoadingFlagForOutputs<V, E>(vs[..|vs| - 1]);
    }
  }

  /**
   * A producer that subscribes, emits any outputs and then completes or is
   * cancelled makes the subject see exactly `true` then `false`.
   */
  lemma ObserveOneProducer<V, E>(vs: seq<V>, c: Event<V, E>)
    requires IsTerminal(c)
    ensures LoadingSends([Subscribe] + OutEvents(vs) + [c]) == [true, false]
  {
    var sub: seq<Event<V, E>> := [Subscribe];
    LoadingSendsAppend(sub, OutEvents(vs));
    LoadingSendsAppend(sub + OutEvents(vs), [c]);
    NoLoadingFlagForOutputs<V, E>(vs);
    assert sub[..0] == [] && [c][..0] == [];
  }

  /** Whenever a trace ends in a completion or a cancellation, the last flag sent is `false`. */
  lemma ObserveEndsNotLoading<V, E>(t: seq<Event<V, E>>)
    requires t != [] && IsTerminal(Last(t))
    ensures LoadingSends(t) != [] && Last(LoadingSends(t)) == false
  {
  }

  /**
   * `bindOutput(to: subject)`: sends every output to `subject`, so its
   * current value is the last output, or unchanged when there was none.
   */
  method BindOutput<V, E>(trace: seq<Event<V, E>>, subject: CurrentValueSubject<Option<V>>)
    returns (passed: seq<Event<V, E>>)
    modifies subject
    ensures subject.sent == old(subject.sent) + SomeAll(Outputs(trace))
    ensures subject.value == if Outputs(trace) == [] then old(subject.value) else Some(Last(Outputs(trace)))
    ensures passed == Signals(trace)
  {
    passed := [];
    var i := 0;
    while i < |trace|
      invariant 0 <= i <= |trace|
      invariant subject.sent == old(subject.sent) + SomeAll(Outputs(trace[..i]))
      invariant subject.value == if Outputs(trace[..i]) == [] then old(subject.value) else Some(Last(Outputs(trace[..i])))
      invariant passed == Signals(trace[..i])
    {
      LoadingSendsStep(trace, i);
      assert Outputs(trace[..i]) + [] == Outputs(trace[..i]);
      match trace[i] {
        case Out(v) =>
          SomeAllAppend(Outputs(trace[..i]), [v]);
          assert SomeAll([v]) == [Some(v)];
          subject.Send(Some(v));
          passed := passed + [trace[i]];
        case Finished =>
          passed := passed + [trace[i]];
        case Failed(_) =>
          passed := passed + [trace[i]];
        case Subscribe =>
        case Cancel =>
      }
      i := i + 1;
    }
    assert trace[..|trace|] == trace;
  }
}
