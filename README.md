# CombineLoadable in Dafny

A model of CombineLoadable, a small Swift/Combine library. It has two parts.

The first part is the `Loadable<Output, Failure>` container. It keeps one `LoadableState`, which is one of `.error(e)`, `.value(v?)` or `.loading`, in a state subject. A subscriber attached at construction derives three facets from every state the subject delivers: the output, the error and the loading flag.

The second part is a set of publisher operators. `bind(to:)`, `handleResult`, `observeLoadingStatus`, `bindOutput` and `sinkWithResult` each watch a stream's subscription, outputs, completion and cancellation, and act on a `Loadable`, a callback or a subject.

Files:

- `prelude.dfy` defines Swift's `Optional` and `Result`, and two sequence helpers.
- `loadable_state.dfy` defines the `LoadableState` enum.
- `combine_loadable.dfy` holds the `Loadable` class. Each of its four subjects is a field with a log of what was sent on it.
  - `React` is the derivation closure.
  - `Reaction` and `Timeline` give, as pure functions, the exact order of sends across the four subjects.
  - Lemmas relate that order to reference definitions over the history of states.
- `events.dfy` defines a finite producer trace of `Subscribe | Out(v) | Finished | Failed(e) | Cancel` events, and what a downstream subscriber receives from it.
- `subjects.dfy` defines the external `PassthroughSubject` and `CurrentValueSubject` that two of the operators send to. Each is a class with a log of what was sent to it.
- `loadable_extension.dfy` defines `bind(to:)` as a loop over a trace that calls `Loadable.SetState`.
- `publisher_extension.dfy` defines the other operators as loops over a trace. They produce `Result` callbacks or subject sends, plus the pass-through stream.

## Model

| member | source | states |
|---|---|---|
| `LoadableStates.VariantsAreExclusive` | Sources/CombineLoadable/LoadableState.swift:11-15 | Every state is exactly one of error, value and loading. "Loaded, empty" (`.value(nil)`) is not `.loading`. |
| `CombineLoadable.Loadable.constructor` | Sources/CombineLoadable/CombineLoadable.swift:63-65 | The state subject starts at `.value(nil)`. Attaching the subscriber replays that state once, so the output subject has been sent `nil` and the loading subject `false`; the error subject has been sent nothing. Afterwards `currentState == .value(nil)`, `value == nil`, `errorValue == nil` and `isLoading == false`. |
| `CombineLoadable.Loadable.React` | Sources/CombineLoadable/CombineLoadable.swift:77-92 | The derivation for one delivered state, with the sends in source order. `.loading` sends `true` to loading only. `.error(e)` sends `e` to error, then `false` to loading. `.value(v)` sends `v` to output, then `false` to loading. The three facet logs stay the reference projections of the state history. |
| `CombineLoadable.Loadable.SetState` | Sources/CombineLoadable/CombineLoadable.swift:67-69 | Appends `s` to the state log, followed by the send of `s` and the reaction to it. Only the facets `s` concerns grow. `currentState == s`. `value` changes only on `.value` (sticky output). `errorValue` is `e` exactly for `.error(e)` and is cleared by any other state. `isLoading` holds exactly for `.loading`. The class invariant and the recorded send order are preserved. |
| `CombineLoadable.Loadable.SetValue` | Sources/CombineLoadable/CombineLoadable.swift:71-73 | Has the same effect as `SetState(.value(v))`. Afterwards `value == v` (including `nil`), `errorValue == nil` and `isLoading == false`. |
| `CombineLoadable.Loadable.CurrentState` | Sources/CombineLoadable/CombineLoadable.swift:41-43 | Returns the last state set, which is the last entry of the state log. |
| `CombineLoadable.Loadable.Value` | Sources/CombineLoadable/CombineLoadable.swift:27-29 | Returns the output subject's current value, which is the payload of the most recent `.value` state. |
| `CombineLoadable.Loadable.ErrorValue` | Sources/CombineLoadable/CombineLoadable.swift:31-34 | Returns a failure exactly when the current state is `.error`. That failure is the current state's and the last one sent on the error subject. |
| `CombineLoadable.Loadable.IsLoading` | Sources/CombineLoadable/CombineLoadable.swift:36-39 | True exactly when the current state is `.loading`. Equals the loading subject's current value. |
| `CombineLoadable.Loadable.LogsAreProjections` | Sources/CombineLoadable/CombineLoadable.swift:77-92 | Each subject's log is exactly the part of the interleaved send record that went to that subject. |
| `CombineLoadable.TimelineStates` | Sources/CombineLoadable/CombineLoadable.swift:67-73 | The state subject is sent every state after its initial one, in order. |
| `CombineLoadable.TimelineOutputs` | Sources/CombineLoadable/CombineLoadable.swift:87-88 | The output subject is sent the payload of each `.value` state, in order, and nothing else. |
| `CombineLoadable.TimelineErrors` | Sources/CombineLoadable/CombineLoadable.swift:84-85 | The error subject is sent one failure per `.error` state, in order, and nothing else. There is no initial or replayed entry. |
| `CombineLoadable.TimelineLoadings` | Sources/CombineLoadable/CombineLoadable.swift:81-90 | The loading subject is sent one flag per state, `true` exactly for `.loading`. `false` is sent again even when loading was already `false`. |
| `CombineLoadable.OutputIsSticky` | Sources/CombineLoadable/CombineLoadable.swift:87-88 | The output subject's current value (its last send, or `nil`) is the payload of the most recent `.value` state. |
| `CombineLoadable.FreshDataBeforeSettling` | Sources/CombineLoadable/CombineLoadable.swift:84-89 | The last send is always a loading flag. Every output or error send is immediately followed by a `false` loading send. Every `false` loading send comes right after an output or error send. |
| `CombineLoadable.LatestFailure` | Sources/CombineLoadable/CombineLoadable.swift:31-34 | When the current state is `.error(e)`, `e` is the last failure sent on the error subject. |
| `LoadableExtension.OnEvent` | Sources/CombineLoadable/Loadable+Extension.swift:15-22 | Subscription sets `.loading`. An output `v` sets `.value(v)`. A failed completion sets `.error(e)`. A successful completion and a cancellation set nothing. A loadable whose send record was the timeline of its states keeps that property. |
| `LoadableExtension.Bind` | Sources/CombineLoadable/Loadable+Extension.swift:14-24 | Over a whole trace, the state log grows by exactly the calls of the hooks, in order. The returned stream delivers the outputs and the completion unchanged. A loadable whose send record was the timeline of its states keeps that property, so the send-order lemmas apply after binding. |
| `LoadableExtension.BindSetsValuesInOrder` | Sources/CombineLoadable/Loadable+Extension.swift:17-18 | The `.value` states set are exactly the trace's outputs, in production order. |
| `LoadableExtension.BindSetsErrors` | Sources/CombineLoadable/Loadable+Extension.swift:19-22 | The `.error` states set are exactly the trace's failures. |
| `LoadableExtension.BindIgnoresFinishAndCancel` | Sources/CombineLoadable/Loadable+Extension.swift:19-23 | A `finished` completion and a cancellation add no state. |
| `LoadableExtension.BindOneProducer` | Sources/CombineLoadable/Loadable+Extension.swift:15-22 | A producer that subscribes, emits `vs` and then ends sets `.loading`, then one `.value` per output, then `.error(e)` only on failure. Its final state is the error, else the last output, else `.loading` (cancelled or finished with no output leaves it loading). |
| `LoadableExtension.SingleValueTrace` | Sources/CombineLoadable/Loadable+Extension.swift:15-21 | The trace `[Subscribe, Out(v), Finished]` makes exactly the calls `[.loading, .value(v)]` and forwards `[v, finished]`. |
| `LoadableExtension.BindSingleValue` | Sources/CombineLoadable/Loadable+Extension.swift:14-24 | Binding that trace extends the state log by `[.loading, .value(v)]`. Afterwards the loadable holds `v`, is not loading and has no error, and its send record still follows its states. |
| `Events.SignalsPassThrough` | Sources/CombineLoadable/Publisher+Extension.swift:33-59 | What the operators pass downstream carries the trace's outputs and failures unchanged and in order, keeps every successful completion, and holds no subscription or cancellation. |
| `PublisherExtension.ResultCallbacks` | Sources/CombineLoadable/Publisher+Extension.swift:33-40 | Its successes are exactly the outputs, in order. Its failures are exactly the failed completions. It makes no other callback. |
| `PublisherExtension.HandleResult` | Sources/CombineLoadable/Publisher+Extension.swift:33-40 | Makes the callbacks `ResultCallbacks(trace)` and passes the stream through unchanged. |
| `PublisherExtension.NoCallbackOnFinished` | Sources/CombineLoadable/Publisher+Extension.swift:36-38 | A `finished` completion makes no callback. |
| `PublisherExtension.SinkWithResult` | Sources/CombineLoadable/Publisher+Extension.swift:76-87 | Makes the same callbacks as `handleResult`: one success per output, one failure on a failed completion, and nothing on `finished`. |
| `PublisherExtension.ObserveLoadingStatus` | Sources/CombineLoadable/Publisher+Extension.swift:42-53 | Sends `true` on subscription and `false` on every completion and on cancellation. Passes the stream through unchanged. |
| `PublisherExtension.ObserveOneProducer` | Sources/CombineLoadable/Publisher+Extension.swift:43-51 | A producer that subscribes, emits, and then completes or is cancelled makes the subject see exactly `true` then `false`. |
| `PublisherExtension.ObserveEndsNotLoading` | Sources/CombineLoadable/Publisher+Extension.swift:46-51 | A trace ending in a completion or a cancellation leaves `false` as the last flag sent. |
| `PublisherExtension.BindOutput` | Sources/CombineLoadable/Publisher+Extension.swift:55-59 | Sends every output, wrapped as an optional, to the subject in order. The subject's current value is then the last output, or unchanged if there was none. Passes the stream through unchanged. |

## Left out

- The Combine runtime is not modelled: subscriber lists, `AnyCancellable` storage, `eraseToAnyPublisher` and `ObservableObject` conformance. A subject is its current value plus a log of what was sent to it. A stream is a finite trace of the events its `handleEvents` hooks observe.
- Replay to subscribers that attach later to the `state`, `output`, `error` and `loading` publishers is not modelled. These publishers are only the subjects erased to `AnyPublisher`. The model keeps the logs of what was sent, not any particular subscriber's view.
- `async()` is not modelled. It is continuation-based bridging to Swift concurrency.
- `removeErrorType`, `sink()` and `sinkWithValue` are not modelled. They are type erasure and wrappers with no behaviour of their own.
- `sinkWithValue` is used inside the container only to attach the derivation closure, which is `Loadable.React`.
- The `[weak self]` guard in the derivation closure is not modelled. The container is taken to be alive whenever a state is delivered.
- Thread safety is not modelled. The source does no synchronisation, and everything is modelled as sequential.
- The error subject carries `Failure?`. Only non-`nil` failures are ever sent on it, so its log is typed `seq<E>`.
- The error facet is a `PassthroughSubject` (Sources/CombineLoadable/CombineLoadable.swift:21), which has no current value: each failure is sent once, and nothing is replayed to a later subscriber. `errorValue` reads the current state, so it is cleared by any later `.loading` or `.value`.
- `Loadable.sends` is a ghost record of the interleaved order of sends across the four subjects. It is not part of the source.
- Traces are arbitrary sequences of events. Combine's guarantee that nothing follows a completion or a cancellation is not imposed; the lemmas about single producers state it as a precondition where it matters.
