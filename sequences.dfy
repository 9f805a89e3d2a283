/** Facts about sequences that the proofs of the loops call at each step. */
module Sequences {

  /** Concatenation is associative; stated as a lemma so a proof can name the step. */
  lemma AppendAssoc<T>(a: seq<T>, b: seq<T>, c: seq<T>)
    ensures (a + b) + c == a + (b + c)
  {
  }
}
