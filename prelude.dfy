/** Swift's `Optional` and `Result`, and two small sequence helpers shared by the model. */
module Prelude {

  /** Swift's `T?`: `nil` is `None`. */
  datatype Option<T> = None | Some(value: T)

  /** Swift's `Result<Success, Failure>`. */
  datatype Result<T, E> = Success(value: T) | Failure(error: E)

  /** The last element of a non-empty sequence. */
  function Last<T>(s: seq<T>): T
    requires s != []
  {
    s[|s| - 1]
  }

  /** Every element of `vs` wrapped in `Some`, in order. */
  function SomeAll<T>(vs: seq<T>): seq<Option<T>>
  {
    if vs == [] then [] else [Some(vs[0])] + SomeAll(vs[1..])
  }

  lemma {:induction false} SomeAllAppend<T>(a: seq<T>, b: seq<T>)
    ensures SomeAll(a + b) == SomeAll(a) + SomeAll(b)
  {
    if a == [] {
      assert a + b == b;
    } else {
      assert (a + b)[1..] == a[1..] + b;
      SomeAllAppend(a[1..], b);
    }
  }
}
