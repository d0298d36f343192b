/**
 * The two kinds of subject the operators send to. Each keeps the log of
 * everything sent to it, in order; a current-value subject also holds the
 * last value, starting from the one it was created with.
 */
module Subjects {

  class PassthroughSubject<T> {
    var sent: seq<T>

    constructor ()
      ensures sent == []
    {
      sent := [];
    }

    method Send(x: T)
      modifies this
      ensures sent == old(sent) + [x]
    {
      sent := sent + [x];
    }
  }

  class CurrentValueSubject<T> {
    var value: T
    var sent: seq<T>

    constructor (initial: T)
      ensures value == initial && sent == []
    {
      value := initial;
      sent := [];
    }

    method Send(x: T)
      modifies this
      ensures value == x && sent == old(sent) + [x]
    {
      value := x;
      sent := sent + [x];
    }
  }
}
