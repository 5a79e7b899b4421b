/** Failure-carrying values used throughout the model in place of the source's
    `undefined` results and thrown errors. */
module Wrappers {

  datatype Option<+T> = None | Some(value: T) {

    /** The carried value, or `default` when there is none (JavaScript's `x || default`). */
    function GetOr(default: T): T {
      match this
      case Some(v) => v
      case None => default
    }
  }

  /** A computation that either produced a value or raised an error with a message. */
  datatype Result<+T, +E> = Ok(value: T) | Err(error: E)
}

/** Small generic facts about sequences. */
module Seqs {

  /** The index of the first element satisfying `p`, or `|s|` when none does:
      the behaviour of `Array.prototype.findIndex` with "not found" read as `|s|`. */
  function FirstIndex<T>(s: seq<T>, p: T -> bool): (i: nat)
    ensures i <= |s|
    ensures forall j :: 0 <= j < i ==> !p(s[j])
    ensures i < |s| ==> p(s[i])
  {
    if s == [] then 0
    else if p(s[0]) then 0
    else 1 + FirstIndex(s[1..], p)
  }
}
