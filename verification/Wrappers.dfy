/** A value that may be missing, and a fact about sequences that proofs need by name. */
module Wrappers {

  datatype Option<+T> = None | Some(value: T)

  lemma AppendAssociative<T>(a: seq<T>, b: seq<T>, c: seq<T>)
    ensures (a + b) + c == a + (b + c)
  {
  }
}
