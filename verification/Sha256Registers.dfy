/**
 The rounds of SHA-256 told another way: two sequences of words, of which the eight working variables are the last
 four each.  Every word is given by the four before it.
 */
module Sha256Registers {
  import opened Bytes
  import opened Words32
  import opened Sha256Spec

  /** The eight words at the start, oldest first, and then one of each kind for every round. */
  function As(v: Words, block: seq<Byte>, n: nat): seq<Word>
    requires |block| == 64 && n <= 64
    ensures |As(v, block, n)| == n + 4
    decreases n, 0
  {
    if n == 0 then [v.d, v.c, v.b, v.a]
    else
      var a, e := As(v, block, n - 1), Es(v, block, n - 1);
      a + [Add(Mix(e, K[n - 1], W(block, n - 1)), Add(Sum0(a[n + 2]), Maj(a[n + 2], a[n + 1], a[n])))]
  }

  function Es(v: Words, block: seq<Byte>, n: nat): seq<Word>
    requires |block| == 64 && n <= 64
    ensures |Es(v, block, n)| == n + 4
    decreases n, 0
  {
    if n == 0 then [v.h, v.g, v.f, v.e]
    else
      var a, e := As(v, block, n - 1), Es(v, block, n - 1);
      e + [Add(a[n - 1], Mix(e, K[n - 1], W(block, n - 1)))]
  }

  /** What the four newest words of the second sequence give to both. */
  function Mix(e: seq<Word>, k: Word, w: Word): Word
    requires |e| >= 4
  {
    var n := |e|;
    Add(Add(Add(Add(e[n - 4], Sum1(e[n - 1])), Ch(e[n - 1], e[n - 2], e[n - 3])), k), w)
  }

  /** The working variables are the four newest of each. */
  lemma {:induction false} RegistersAreTheRounds(v: Words, block: seq<Byte>, n: nat)
    requires |block| == 64 && n <= 64
    ensures var a, e := As(v, block, n), Es(v, block, n);
            Rounds(K, v, block, n) == Words(a[n + 3], a[n + 2], a[n + 1], a[n], e[n + 3], e[n + 2], e[n + 1], e[n])
  {
    if n > 0 {
      RegistersAreTheRounds(v, block, n - 1);
    }
  }
}
