/** Two facts about concatenation that proofs have to be told. */
module Seqs {

  lemma NothingMore<T>(a: seq<T>)
    ensures a + [] == a && [] + a == a
  {
  }

  lemma Regroup<T>(a: seq<T>, b: seq<T>, c: seq<T>)
    ensures (a + b) + c == a + (b + c)
  {
  }
}
