/** Facts about sequences that several modules need. */
module Seqs {

  /** Concatenation is associative; stated once, so that proofs need not
      rebuild it element by element. */
  lemma AppendAssoc<T>(a: seq<T>, b: seq<T>, c: seq<T>)
    ensures a + b + c == a + (b + c)
  {
  }
}
