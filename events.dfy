/**
 * A finite trace of what the `handleEvents` hooks of a publisher observe:
 * the subscription, each output, the completion (successful or failed) and
 * a cancellation. The operators below are functions of such a trace.
 */
module Events {
  import opened Prelude

  datatype Event<V, E> =
    | Subscribe
    | Out(output: V)
    | Finished
    | Failed(failure: E)
    | Cancel

  /** Events after which the publisher delivers nothing more: a completion or a cancellation. */
  predicate IsTerminal<V, E>(ev: Event<V, E>)
  {
    ev.Finished? || ev.Failed? || ev.Cancel?
  }

  /** What a subscriber downstream receives: the outputs and the completion, in order. */
  function Signals<V, E>(t: seq<Event<V, E>>): seq<Event<V, E>>
  {
    if t == [] then []
    else Signals(t[..|t| - 1]) + (if Last(t).Out? || Last(t).Finished? || Last(t).Failed? then [Last(t)] else [])
  }

  /** The outputs of a trace, in order. */
  function Outputs<V, E>(t: seq<Event<V, E>>): seq<V>
  {
    if t == [] then []
    else Outputs(t[..|t| - 1]) + (if Last(t).Out? then [Last(t).output] else [])
  }

  /** The failures a trace completes with. */
  function Failures<V, E>(t: seq<Event<V, E>>): seq<E>
  {
    if t == [] then []
    else Failures(t[..|t| - 1]) + (if Last(t).Failed? then [Last(t).failure] else [])
  }

  /** The number of successful completions in a trace. */
  function Finisheds<V, E>(t: seq<Event<V, E>>): nat
  {
    if t == [] then 0
    else Finisheds(t[..|t| - 1]) + (if Last(t).Finished? then 1 else 0)
  }

  /** One output event per value, in order. */
  function OutEvents<V, E>(vs: seq<V>): seq<Event<V, E>>
  {
    if vs == [] then [] else OutEvents(vs[..|vs| - 1]) + [Out(Last(vs))]
  }

  lemma {:induction false} TraceAppend<V, E>(a: seq<Event<V, E>>, b: seq<Event<V, E>>)
    ensures Signals(a + b) == Signals(a) + Signals(b)
    ensures Outputs(a + b) == Outputs(a) + Outputs(b)
    ensures Failures(a + b) == Failures(a) + Failures(b)
    ensures Finisheds(a + b) == Finisheds(a) + Finisheds(b)
  {
    if b == [] {
      assert a + b == a;
    } else {
      var b' := b[..|b| - 1];
      assert (a + b)[..|a + b| - 1] == a + b';
      var l := Last(b);
      assert Last(a + b) == l;
      TraceAppend(a, b');
      calc {
        Signals(a + b);
        Signals(a + b') + (if l.Out? || l.Finished? || l.Failed? then [l] else []);
        Signals(a) + Signals(b') + (if l.Out? || l.Finished? || l.Failed? then [l] else []);
        Signals(a) + (Signals(b') + (if l.Out? || l.Finished? || l.Failed? then [l] else []));
      }
      calc {
        Outputs(a + b);
        Outputs(a + b') + (if l.Out? then [l.output] else []);
        Outputs(a) + Outputs(b') + (if l.Out? then [l.output] else []);
        Outputs(a) + (Outputs(b') + (if l.Out? then [l.output] else []));
      }
      calc {
        Failures(a + b);
        Failures(a + b') + (if l.Failed? then [l.failure] else []);
        Failures(a) + Failures(b') + (if l.Failed? then [l.failure] else []);
        Failures(a) + (Failures(b') + (if l.Failed? then [l.failure] else []));
      }
      assert Finisheds(a + b) == Finisheds(a + b') + (if l.Finished? then 1 else 0);
    }
  }

  /**
   * The downstream signals carry the trace's outputs and failures unchanged
   * and in order, keep every successful completion, and hold nothing but
   * outputs and completions.
   */
  lemma {:induction false} SignalsPassThrough<V, E>(t: seq<Event<V, E>>)
    ensures Outputs(Signals(t)) == Outputs(t)
    ensures Failures(Signals(t)) == Failures(t)
    ensures Finisheds(Signals(t)) == Finisheds(t)
    ensures forall i :: 0 <= i < |Signals(t)| ==> !Signals(t)[i].Subscribe? && !Signals(t)[i].Cancel?
  {
    if t != [] {
      var t' := t[..|t| - 1];
      SignalsPassThrough(t');
      var x := Last(t);
      var tail: seq<Event<V, E>> := if x.Out? || x.Finished? || x.Failed? then [x] else [];
      TraceAppend(Signals(t'), tail);
      if tail == [] {
        assert Signals(t) == Signals(t');
      } else {
        assert tail[..0] == [];
      }
    }
  }

  /** A run of output events carries exactly the given values and nothing else. */
  lemma {:induction false} OutEventsCarry<V, E>(vs: seq<V>)
    ensures Outputs(OutEvents<V, E>(vs)) == vs
    ensures Failures(OutEvents<V, E>(vs)) == []
    ensures Signals(OutEvents<V, E>(vs)) == OutEvents(vs)
    ensures |OutEvents<V, E>(vs)| == |vs|
  {
    if vs != [] {
      OutEventsCarry<V, E>(vs[..|vs| - 1]);
      assert vs == vs[..|vs| - 1] + [Last(vs)];
    }
  }
}
