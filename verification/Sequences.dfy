/** Facts about sequences that several proofs need. */
module Sequences {
  lemma Regroup<T>(a: seq<T>, b: seq<T>, c: seq<T>)
    ensures a + (b + c) == a + b + c
  {
  }

  lemma Unpadded<T>(a: seq<T>, b: seq<T>)
    requires b == []
    ensures a + b == a
  {
  }
}
