/** Two facts about concatenation, kept apart from the proofs that use them. */
module Sequences {

  lemma Associative<T>(a: seq<T>, b: seq<T>, c: seq<T>)
    ensures (a + b) + c == a + (b + c)
  {
  }

  lemma ConcatFirst<T>(a: seq<T>, b: seq<T>)
    ensures a == [] ==> a + b == b
    ensures b == [] ==> a + b == a
    ensures a != [] ==> a + b != [] && (a + b)[0] == a[0] && (a + b)[1..] == a[1..] + b
  {
  }
}
