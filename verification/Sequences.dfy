/** Byte strings, and one regrouping of sequences that run inductions share. */
module Sequences {

  type Byte = b: int | 0 <= b < 0x100

  function Zeros(n: nat): (s: seq<Byte>)
    ensures |s| == n
  {
    seq(n, _ => 0)
  }

  /**
    Bookkeeping of one step: with `done` so far and `before` under way, what `enters` and
    what `leaves` in the step make `after` what is under way next.
   */
  lemma Regroup<T>(done: seq<T>, before: seq<T>, enters: seq<T>, leaves: seq<T>, after: seq<T>)
    requires before + enters == leaves + after
    ensures (done + before) + enters == (done + leaves) + after
  {
    assert (done + before) + enters == done + (before + enters);
    assert (done + leaves) + after == done + (leaves + after);
  }
}
