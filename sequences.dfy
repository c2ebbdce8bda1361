/** Facts about sequences that the accumulating loops of the scripts rely on. */
module Sequences {
  /** Appending to an accumulator that already holds a prefix extends that prefix. */
  lemma AppendAssoc<T>(a: seq<T>, b: seq<T>, c: seq<T>)
    ensures (a + b) + c == a + (b + c)
  {
  }
}
