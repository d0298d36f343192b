/** The lifecycle of one asynchronous value. */
module LoadableStates {
  import opened Prelude

  /**
   * Exactly one variant is current: a failure (which always carries its
   * payload), a loaded value (whose payload may itself be absent, so that
   * "loaded, empty" is `Value(None)` and not `Loading`), or loading (no payload).
   */
  datatype LoadableState<V, E> =
    | Error(failure: E)
    | Value(payload: Option<V>)
    | Loading

  /** The three variants are exhaustive and mutually exclusive; "loaded, empty" is not "loading". */
  lemma VariantsAreExclusive<V, E>(s: LoadableState<V, E>)
    ensures s.Error? || s.Value? || s.Loading?
    ensures !(s.Error? && s.Value?) && !(s.Error? && s.Loading?) && !(s.Value? && s.Loading?)
    ensures LoadableState<V, E>.Value(None) != Loading
  {
  }
}
