/** Facts about concatenation that the other modules call by name. */
module Sequences {

  lemma Assoc<T>(a: seq<T>, b: seq<T>, c: seq<T>)
    ensures a + (b + c) == (a + b) + c
  {
  }

  // Three stretches of one queue: what has left it, what waits in the middle, what is still behind.

  /** The oldest element behind comes to the middle. */
  lemma ComesOut<T>(a: seq<T>, b: seq<T>, c: seq<T>)
    requires c != []
    ensures a + (b + [c[0]]) + c[1..] == a + b + c
  {
  }

  /** The oldest element in the middle leaves. */
  lemma GoesOut<T>(a: seq<T>, b: seq<T>, c: seq<T>)
    requires b != []
    ensures (a + [b[0]]) + b[1..] + c == a + b + c
  {
  }

  /** A new element comes in behind. */
  lemma ComesIn<T>(a: seq<T>, b: seq<T>, c: seq<T>, x: T)
    ensures a + b + (c + [x]) == (a + b + c) + [x]
  {
  }
}
