/** A value that may be missing, and two facts about sequences. */
module Basics {
  datatype Option<+T> = None | Some(value: T)

  /** `out` is what stands in `from` at the increasing positions `at`. */
  ghost predicate StandsAt<T>(out: seq<T>, from: seq<T>, at: seq<nat>) {
    && |at| == |out|
    && (forall k | 0 <= k < |at| :: at[k] < |from| && from[at[k]] == out[k])
    && (forall k, l | 0 <= k < l < |at| :: at[k] < at[l])
  }

  lemma StandsLonger<T>(out: seq<T>, from: seq<T>, at: seq<nat>, x: T)
    requires StandsAt(out, from, at)
    ensures StandsAt(out, from + [x], at) && StandsAt(out + [x], from + [x], at + [|from|])
  {
  }

  lemma Regroup<T>(x: seq<T>, y: seq<T>, z: seq<T>)
    ensures x + (y + z) == x + y + z
  {
  }
}
