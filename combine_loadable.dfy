/**
 * The `Loadable` container: one state subject is the source of truth, and a
 * subscriber installed at construction derives the output, error and loading
 * subjects from every state the state subject delivers.
 */
module CombineLoadable {
  import opened Prelude
  import opened LoadableStates

  /** One send on one of the container's four subjects. */
  datatype Send<V, E> =
    | StateSent(state: LoadableState<V, E>)
    | OutputSent(output: Option<V>)
    | ErrorSent(failure: E)
    | LoadingSent(loading: bool)

  /** What the state subscriber sends, in order, when the state subject delivers `s`. */
  function Reaction<V, E>(s: LoadableState<V, E>): seq<Send<V, E>>
  {
    match s
    case Loading => [LoadingSent(true)]
    case Error(e) => [ErrorSent(e), LoadingSent(false)]
    case Value(v) => [OutputSent(v), LoadingSent(false)]
  }

  /**
   * Every send, in order, of a container whose state subject has held the
   * states `h`. `h[0]` is the subject's initial value: it is not sent, only
   * replayed to the subscriber when it attaches. Each later state is sent on
   * the state subject and then reacted to before the send returns.
   */
  function Timeline<V, E>(h: seq<LoadableState<V, E>>): seq<Send<V, E>>
    requires h != []
  {
    if |h| == 1 then Reaction(h[0])
    else Timeline(h[..|h| - 1]) + [StateSent(Last(h))] + Reaction(Last(h))
  }

  // The sends of a timeline that go to each subject.

  function StatesSent<V, E>(t: seq<Send<V, E>>): seq<LoadableState<V, E>>
  {
    if t == [] then []
    else StatesSent(t[..|t| - 1]) + (if Last(t).StateSent? then [Last(t).state] else [])
  }

  function OutputsSent<V, E>(t: seq<Send<V, E>>): seq<Option<V>>
  {
    if t == [] then []
    else OutputsSent(t[..|t| - 1]) + (if Last(t).OutputSent? then [Last(t).output] else [])
  }

  function ErrorsSent<V, E>(t: seq<Send<V, E>>): seq<E>
  {
    if t == [] then []
    else ErrorsSent(t[..|t| - 1]) + (if Last(t).ErrorSent? then [Last(t).failure] else [])
  }

  function LoadingsSent<V, E>(t: seq<Send<V, E>>): seq<bool>
  {
    if t == [] then []
    else LoadingsSent(t[..|t| - 1]) + (if Last(t).LoadingSent? then [Last(t).loading] else [])
  }

  /** Appending one send extends the projection of the subject it goes to, and only that one. */
  lemma ProjectionsOfSend<V, E>(t: seq<Send<V, E>>, x: Send<V, E>)
    ensures StatesSent(t + [x]) == StatesSent(t) + (if x.StateSent? then [x.state] else [])
    ensures OutputsSent(t + [x]) == OutputsSent(t) + (if x.OutputSent? then [x.output] else [])
    ensures ErrorsSent(t + [x]) == ErrorsSent(t) + (if x.ErrorSent? then [x.failure] else [])
    ensures LoadingsSent(t + [x]) == LoadingsSent(t) + (if x.LoadingSent? then [x.loading] else [])
  {
    assert (t + [x])[..|t|] == t;
  }

  /** Appending the reaction to `s` extends the output, error and loading sends by what it sends, and the state sends not at all. */
  lemma ProjectionsOfReaction<V, E>(t: seq<Send<V, E>>, s: LoadableState<V, E>)
    ensures StatesSent(t + Reaction(s)) == StatesSent(t)
    ensures OutputsSent(t + Reaction(s)) == OutputsSent(t) + (if s.Value? then [s.payload] else [])
    ensures ErrorsSent(t + Reaction(s)) == ErrorsSent(t) + (if s.Error? then [s.failure] else [])
    ensures LoadingsSent(t + Reaction(s)) == LoadingsSent(t) + [s.Loading?]
  {
    match s
    case Loading =>
      ProjectionsOfSend(t, LoadingSent(true));
    case Error(e) =>
      ProjectionsOfSend(t, ErrorSent(e));
      ProjectionsOfSend(t + [ErrorSent(e)], LoadingSent(false));
      assert t + Reaction(s) == t + [ErrorSent(e)] + [LoadingSent(false)];
    case Value(v) =>
      ProjectionsOfSend(t, OutputSent(v));
      ProjectionsOfSend(t + [OutputSent(v)], LoadingSent(false));
      assert t + Reaction(s) == t + [OutputSent(v)] + [LoadingSent(false)];
  }

  // Reference definitions over the history of states, independent of the sends.

  /** The payloads of the `Value` states of `h`, in order. */
  function ValuePayloads<V, E>(h: seq<LoadableState<V, E>>): seq<Option<V>>
  {
    if h == [] then []
    else ValuePayloads(h[..|h| - 1]) + (if Last(h).Value? then [Last(h).payload] else [])
  }

  /** The failures of the `Error` states of `h`, in order. */
  function ErrorPayloads<V, E>(h: seq<LoadableState<V, E>>): seq<E>
  {
    if h == [] then []
    else ErrorPayloads(h[..|h| - 1]) + (if Last(h).Error? then [Last(h).failure] else [])
  }

  /** The payload of the most recent `Value` state of `h`; `None` when there is none. */
  function LatestPayload<V, E>(h: seq<LoadableState<V, E>>): Option<V>
  {
    if h == [] then None
    else if Last(h).Value? then Last(h).payload
    else LatestPayload(h[..|h| - 1])
  }

  /** One flag per state of `h`: whether it is `Loading`. */
  function LoadingFlags<V, E>(h: seq<LoadableState<V, E>>): seq<bool>
  {
    if h == [] then [] else LoadingFlags(h[..|h| - 1]) + [Last(h).Loading?]
  }

  lemma {:induction false} LoadingFlagsAt<V, E>(h: seq<LoadableState<V, E>>)
    ensures |LoadingFlags(h)| == |h|
    ensures forall i :: 0 <= i < |h| ==> LoadingFlags(h)[i] == h[i].Loading?
  {
    if h != [] {
      LoadingFlagsAt(h[..|h| - 1]);
    }
  }

  lemma {:induction false} PayloadsAppend<V, E>(a: seq<LoadableState<V, E>>, b: seq<LoadableState<V, E>>)
    ensures ValuePayloads(a + b) == ValuePayloads(a) + ValuePayloads(b)
    ensures ErrorPayloads(a + b) == ErrorPayloads(a) + ErrorPayloads(b)
  {
    if b == [] {
      assert a + b == a;
    } else {
      var b' := b[..|b| - 1];
      assert (a + b)[..|a + b| - 1] == a + b';
      var l := Last(b);
      assert Last(a + b) == l;
      PayloadsAppend(a, b');
      calc {
        ValuePayloads(a + b);
        ValuePayloads(a + b') + (if l.Value? then [l.payload] else []);
        ValuePayloads(a) + ValuePayloads(b') + (if l.Value? then [l.payload] else []);
        ValuePayloads(a) + (ValuePayloads(b') + (if l.Value? then [l.payload] else []));
      }
      calc {
        ErrorPayloads(a + b);
        ErrorPayloads(a + b') + (if l.Error? then [l.failure] else []);
        ErrorPayloads(a) + ErrorPayloads(b') + (if l.Error? then [l.failure] else []);
        ErrorPayloads(a) + (ErrorPayloads(b') + (if l.Error? then [l.failure] else []));
      }
    }
  }

  /** One more state extends each reference definition by what that state contributes. */
  lemma ReferencesStep<V, E>(h: seq<LoadableState<V, E>>, s: LoadableState<V, E>)
    ensures ValuePayloads(h + [s]) == ValuePayloads(h) + (if s.Value? then [s.payload] else [])
    ensures ErrorPayloads(h + [s]) == ErrorPayloads(h) + (if s.Error? then [s.failure] else [])
    ensures LoadingFlags(h + [s]) == LoadingFlags(h) + [s.Loading?]
  {
    assert (h + [s])[..|h|] == h;
  }

  /** The timeline of `h` extends that of `h` without its last state by a state send and the reaction to it. */
  lemma TimelineStep<V, E>(h: seq<LoadableState<V, E>>)
    requires |h| > 1
    ensures var t' := Timeline(h[..|h| - 1]);
      && Timeline(h) == t' + [StateSent(Last(h))] + Reaction(Last(h))
      && StatesSent(t' + [StateSent(Last(h))]) == StatesSent(t') + [Last(h)]
      && OutputsSent(t' + [StateSent(Last(h))]) == OutputsSent(t')
      && ErrorsSent(t' + [StateSent(Last(h))]) == ErrorsSent(t')
      && LoadingsSent(t' + [StateSent(Last(h))]) == LoadingsSent(t')
  {
    ProjectionsOfSend(Timeline(h[..|h| - 1]), StateSent(Last(h)));
  }

  /** The timeline of the initial state alone is the reaction to it. */
  lemma TimelineStart<V, E>(s: LoadableState<V, E>)
    ensures StatesSent(Timeline([s])) == []
    ensures OutputsSent(Timeline([s])) == (if s.Value? then [s.payload] else [])
    ensures ErrorsSent(Timeline([s])) == (if s.Error? then [s.failure] else [])
    ensures LoadingsSent(Timeline([s])) == [s.Loading?]
  {
    ProjectionsOfReaction([], s);
    assert [] + Reaction(s) == Timeline([s]);
  }

  /** The state subject sends every state after the initial one, in order. */
  lemma {:induction false} TimelineStates<V, E>(h: seq<LoadableState<V, E>>)
    requires h != []
    ensures StatesSent(Timeline(h)) == h[1..]
  {
    if |h| == 1 {
      TimelineStart(h[0]);
    } else {
      var h' := h[..|h| - 1];
      var t := Timeline(h') + [StateSent(Last(h))];
      TimelineStep(h);
      ProjectionsOfReaction(t, Last(h));
      TimelineStates(h');
      calc {
        StatesSent(Timeline(h));
        StatesSent(t + Reaction(Last(h)));
        StatesSent(t);
        StatesSent(Timeline(h')) + [Last(h)];
        h'[1..] + [Last(h)];
        { assert h[1..] == h'[1..] + [Last(h)]; }
        h[1..];
      }
    }
  }

  /** The output subject is sent the payload of each `Value` state and nothing else. */
  lemma {:induction false} TimelineOutputs<V, E>(h: seq<LoadableState<V, E>>)
    requires h != []
    ensures OutputsSent(Timeline(h)) == ValuePayloads(h)
  {
    var h' := h[..|h| - 1];
    if |h| == 1 {
      TimelineStart(h[0]);
      assert h' == [];
    } else {
      TimelineStep(h);
      ProjectionsOfReaction(Timeline(h[..|h| - 1]) + [StateSent(Last(h))], Last(h));
      TimelineOutputs(h');
    }
  }

  /** The error subject is sent the failure of each `Error` state and nothing else. */
  lemma {:induction false} TimelineErrors<V, E>(h: seq<LoadableState<V, E>>)
    requires h != []
    ensures ErrorsSent(Timeline(h)) == ErrorPayloads(h)
  {
    var h' := h[..|h| - 1];
    if |h| == 1 {
      TimelineStart(h[0]);
      assert h' == [];
    } else {
      TimelineStep(h);
      ProjectionsOfReaction(Timeline(h[..|h| - 1]) + [StateSent(Last(h))], Last(h));
      TimelineErrors(h');
    }
  }

  /**
   * The loading subject is sent exactly one flag per state, `true` for
   * `Loading` and `false` otherwise, so `false` is sent again after every
   * `Value` or `Error` even when the flag was already `false`.
   */
  lemma {:induction false} TimelineLoadings<V, E>(h: seq<LoadableState<V, E>>)
    requires h != []
    ensures LoadingsSent(Timeline(h)) == LoadingFlags(h)
    ensures |LoadingsSent(Timeline(h))| == |h|
    ensures forall i :: 0 <= i < |h| ==> LoadingsSent(Timeline(h))[i] == h[i].Loading?
  {
    LoadingFlagsAt(h);
    if |h| == 1 {
      TimelineStart(h[0]);
      assert h[..0] == [];
    } else {
      TimelineStep(h);
      ProjectionsOfReaction(Timeline(h[..|h| - 1]) + [StateSent(Last(h))], Last(h));
      TimelineLoadings(h[..|h| - 1]);
    }
  }

  /** The sticky output: the latest value sent on the output subject is the payload of the latest `Value` state. */
  lemma {:induction false} OutputIsSticky<V, E>(h: seq<LoadableState<V, E>>)
    ensures Last([None] + ValuePayloads(h)) == LatestPayload(h)
  {
    if h != [] {
      var h' := h[..|h| - 1];
      OutputIsSticky(h');
      if !Last(h).Value? {
        assert ValuePayloads(h) == ValuePayloads(h') + [];
      }
    }
  }

  /**
   * Output and error sends are each followed at once by `false` on the
   * loading subject, and every `false` on the loading subject follows at once
   * an output or an error send: observers of the loading flag see fresh data
   * before it drops.
   */
  lemma {:induction false} FreshDataBeforeSettling<V, E>(h: seq<LoadableState<V, E>>)
    requires h != []
    ensures Last(Timeline(h)).LoadingSent?
    ensures forall i :: 0 <= i < |Timeline(h)| && (Timeline(h)[i].OutputSent? || Timeline(h)[i].ErrorSent?) ==>
      i + 1 < |Timeline(h)| && Timeline(h)[i + 1] == LoadingSent(false)
    ensures forall i :: 0 <= i < |Timeline(h)| && Timeline(h)[i] == LoadingSent(false) ==>
      0 < i && (Timeline(h)[i - 1].OutputSent? || Timeline(h)[i - 1].ErrorSent?)
  {
    var t := Timeline(h);
    if |h| == 1 {
      assert t == Reaction(h[0]);
    } else {
      var h' := h[..|h| - 1];
      var x := Last(h);
      FreshDataBeforeSettling(h');
      var t' := Timeline(h');
      assert t == t' + [StateSent(x)] + Reaction(x);
      forall i | 0 <= i < |t| && (t[i].OutputSent? || t[i].ErrorSent?)
        ensures i + 1 < |t| && t[i + 1] == LoadingSent(false)
      {
        if i < |t'| {
          assert t[i] == t'[i];
          if i + 1 < |t'| {
            assert t[i + 1] == t'[i + 1];
          }
        }
      }
      forall i | 0 <= i < |t| && t[i] == LoadingSent(false)
        ensures 0 < i && (t[i - 1].OutputSent? || t[i - 1].ErrorSent?)
      {
        if i < |t'| {
          assert t[i] == t'[i];
          assert t[i - 1] == t'[i - 1];
        }
      }
    }
  }

  /** The last failure sent on the error subject is that of the current state, when it is an `Error`. */
  lemma {:induction false} LatestFailure<V, E>(h: seq<LoadableState<V, E>>)
    requires h != [] && Last(h).Error?
    ensures ErrorPayloads(h) != [] && Last(ErrorPayloads(h)) == Last(h).failure
  {
    assert ErrorPayloads(h) == ErrorPayloads(h[..|h| - 1]) + [Last(h).failure];
  }

  /**
   * A `Loadable`. The state subject is `state` with `stateLog`, every value
   * it has held starting with its initial `.value(nil)`. The output and
   * loading subjects are their current value (`output`, initially `nil`;
   * `loading`, initially `false`) with the log of the values sent on them;
   * the error subject, which holds no value, is only its log. `sends`
   * records every send on the four subjects in the order made.
   */
  class Loadable<V, E> {
    var state: LoadableState<V, E>
    var stateLog: seq<LoadableState<V, E>>
    var output: Option<V>
    var outputLog: seq<Option<V>>
    var errorLog: seq<E>
    var loading: bool
    var loadingLog: seq<bool>
    ghost var sends: seq<Send<V, E>>

    /** The output, error and loading subjects have reacted to exactly the states `h`. */
    ghost predicate Follows(h: seq<LoadableState<V, E>>)
      reads this
    {
      && outputLog == ValuePayloads(h)
      && errorLog == ErrorPayloads(h)
      && loadingLog == LoadingFlags(h)
      && output == Last([None] + outputLog)
      && loading == Last([false] + loadingLog)
    }

    /** The state subject started at `.value(nil)`, and the other subjects have reacted to every state it held. */
    ghost predicate Valid()
      reads this
    {
      && stateLog != []
      && stateLog[0] == LoadableState.Value(None)
      && state == Last(stateLog)
      && Follows(stateLog)
    }

    /** The sends recorded, in order, are the timeline of the state subject's history. */
    ghost predicate Recorded()
      reads this
    {
      stateLog != [] && sends == Timeline(stateLog)
    }

    /** Each subject's log is exactly the part of the recorded sends that went to it. */
    lemma LogsAreProjections()
      requires Valid() && Recorded()
      ensures StatesSent(sends) == stateLog[1..]
      ensures OutputsSent(sends) == outputLog
      ensures ErrorsSent(sends) == errorLog
      ensures LoadingsSent(sends) == loadingLog
    {
      TimelineStates(stateLog);
      TimelineOutputs(stateLog);
      TimelineErrors(stateLog);
      TimelineLoadings(stateLog);
    }

    /** Attaching the subscriber replays `.value(nil)` to it, so it has reacted once before construction ends. */
    constructor ()
      ensures Valid() && Recorded()
      ensures stateLog == [LoadableState.Value(None)]
      ensures outputLog == [None] && errorLog == [] && loadingLog == [false]
      ensures sends == [OutputSent(None), LoadingSent(false)]
      ensures CurrentState() == LoadableState.Value(None)
      ensures Value() == None && ErrorValue() == None && !IsLoading()
    {
      state := LoadableState.Value(None);
      stateLog := [LoadableState.Value(None)];
      output := None;
      outputLog := [];
      errorLog := [];
      loading := false;
      loadingLog := [];
      sends := [];
      new;
      React(state, []);
      assert [] + [state] == stateLog;
    }

    /** The state subscriber: sends on the output, error and loading subjects according to `s`. */
    method React(s: LoadableState<V, E>, ghost h: seq<LoadableState<V, E>>)
      requires Follows(h)
      modifies this
      ensures Follows(h + [s])
      ensures sends == old(sends) + Reaction(s)
      ensures outputLog == old(outputLog) + (if s.Value? then [s.payload] else [])
      ensures errorLog == old(errorLog) + (if s.Error? then [s.failure] else [])
      ensures loadingLog == old(loadingLog) + [s.Loading?]
      ensures state == old(state) && stateLog == old(stateLog)
    {
      ReferencesStep(h, s);
      match s
      case Loading =>
        loading := true;
        loadingLog := loadingLog + [true];
        sends := sends + [LoadingSent(true)];
      case Error(e) =>
        errorLog := errorLog + [e];
        sends := sends + [ErrorSent(e)];
        loading := false;
        loadingLog := loadingLog + [false];
        sends := sends + [LoadingSent(false)];
      case Value(v) =>
        output := v;
        outputLog := outputLog + [v];
        sends := sends + [OutputSent(v)];
        loading := false;
        loadingLog := loadingLog + [false];
        sends := sends + [LoadingSent(false)];
    }

    /** Sends `s` on the state subject; the subscriber reacts before this returns. */
    method SetState(s: LoadableState<V, E>)
      requires Valid()
      modifies this
      ensures Valid()
      ensures stateLog == old(stateLog) + [s]
      ensures sends == old(sends) + [StateSent(s)] + Reaction(s)
      ensures old(Recorded()) ==> Recorded()
      ensures s.Loading? ==>
        loadingLog == old(loadingLog) + [true] && outputLog == old(outputLog) && errorLog == old(errorLog)
      ensures s.Error? ==>
        errorLog == old(errorLog) + [s.failure] && loadingLog == old(loadingLog) + [false] && outputLog == old(outputLog)
      ensures s.Value? ==>
        outputLog == old(outputLog) + [s.payload] && loadingLog == old(loadingLog) + [false] && errorLog == old(errorLog)
      ensures CurrentState() == s
      ensures Value() == if s.Value? then s.payload else old(Value())
      ensures ErrorValue() == if s.Error? then Some(s.failure) else None
      ensures IsLoading() == s.Loading?
    {
      sends := sends + [StateSent(s)];
      state := s;
      stateLog := stateLog + [s];
      React(s, old(stateLog));
      assert stateLog[..|stateLog| - 1] == old(stateLog);
      assert old(Value()) == LatestPayload(old(stateLog));
    }

    /** The same send as `SetState(.value(v))`. */
    method SetValue(v: Option<V>)
      requires Valid()
      modifies this
      ensures Valid()
      ensures stateLog == old(stateLog) + [LoadableState.Value(v)]
      ensures sends == old(sends) + [StateSent(LoadableState.Value(v)), OutputSent(v), LoadingSent(false)]
      ensures old(Recorded()) ==> Recorded()
      ensures outputLog == old(outputLog) + [v] && loadingLog == old(loadingLog) + [false]
      ensures errorLog == old(errorLog)
      ensures Value() == v && ErrorValue() == None && !IsLoading()
    {
      SetState(LoadableState.Value(v));
    }

    /** `currentState`: the value the state subject holds, the last state set. */
    function CurrentState(): (r: LoadableState<V, E>)
      reads this
      requires Valid()
      ensures r == Last(stateLog)
    {
      state
    }

    /** `value`: the output subject's current value, the payload of the latest `Value` state. */
    function Value(): (r: Option<V>)
      reads this
      requires Valid()
      ensures r == LatestPayload(stateLog)
    {
      OutputIsSticky(stateLog);
      output
    }

    /** `errorValue`: the failure of the current state when it is an `Error`, the last one sent on the error subject. */
    function ErrorValue(): (r: Option<E>)
      reads this
      requires Valid()
      ensures r.Some? <==> Last(stateLog).Error?
      ensures r.Some? ==> errorLog != [] && r.value == Last(errorLog) && Last(stateLog) == Error(r.value)
    {
      if state.Error? then
        LatestFailure(stateLog);
        Some(state.failure)
      else None
    }

    /** `isLoading`: read off the state, and equal to the loading subject's current value. */
    function IsLoading(): (r: bool)
      reads this
      requires Valid()
      ensures r <==> Last(stateLog).Loading?
      ensures r == loading
    {
      LoadingFlagsAt(stateLog);
      state.Loading?
    }
  }
}
