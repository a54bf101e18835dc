/** The constants of SHA-256, by what section 4.2.2 and section 5.3.3 of FIPS 180-4 say they are. */
module Sha256Constants {
  import opened Arithmetic
  import opened Words32
  import opened Sha256Spec

  // ---- the first sixty-four primes ----

  ghost predicate IsPrime(n: nat) {
    n >= 2 && forall d :: 2 <= d < n ==> n % d != 0
  }

  ghost predicate IsNextPrime(p: nat, q: nat) {
    p < q && IsPrime(q) && forall n :: p < n < q ==> !IsPrime(n)
  }

  /** The primes that come after p, one after the other. */
  ghost predicate ArePrimesAfter(p: nat, list: seq<nat>) {
    Linked(IsNextPrime, p, list)
  }

  ghost predicate Linked(next: (nat, nat) -> bool, p: nat, list: seq<nat>) {
    forall t :: 0 <= t < |list| ==> next(Before(p, list, t), list[t])
  }

  function Before(p: nat, list: seq<nat>, t: nat): nat
    requires t <= |list|
  {
    if t == 0 then p else list[t - 1]
  }

  const P0: seq<nat> := [2, 3, 5, 7, 11, 13, 17, 19]
  const P1: seq<nat> := [23, 29, 31, 37, 41, 43, 47, 53]
  const P2: seq<nat> := [59, 61, 67, 71, 73, 79, 83, 89]
  const P3: seq<nat> := [97, 101, 103, 107, 109, 113, 127, 131]
  const P4: seq<nat> := [137, 139, 149, 151, 157, 163, 167, 173]
  const P5: seq<nat> := [179, 181, 191, 193, 197, 199, 211, 223]
  const P6: seq<nat> := [227, 229, 233, 239, 241, 251, 257, 263]
  const P7: seq<nat> := [269, 271, 277, 281, 283, 293, 307, 311]

  const PRIMES := P0 + P1 + P2 + P3 + P4 + P5 + P6 + P7

  /** Not a multiple of a smaller prime below 19. */
  predicate Sifted(n: nat) {
    && (n % 2 != 0 || n == 2) && (n % 3 != 0 || n == 3) && (n % 5 != 0 || n == 5) && (n % 7 != 0 || n == 7)
    && (n % 11 != 0 || n == 11) && (n % 13 != 0 || n == 13) && (n % 17 != 0 || n == 17)
  }

  /** A multiple of m is one of a prime below 19. */
  lemma HasSmallFactor(n: nat, m: nat)
    requires 2 <= m < 19 && n % m == 0 && m < n
    ensures !Sifted(n)
  {
    if m % 2 == 0 {
      MultipleOf(n, 2, m / 2);
    } else if m % 3 == 0 {
      MultipleOf(n, 3, m / 3);
    } else {
      assert m == 5 || m == 7 || m == 11 || m == 13 || m == 17;
    }
  }

  lemma MultipleOf(n: nat, f: nat, g: nat)
    requires f > 0 && g > 0 && f * g > 0 && n % (f * g) == 0
    ensures n % f == 0
  {
    var q := n / (f * g);
    assert n == (f * g) * q;
    assert n == f * (g * q) + 0;
    Quotient(n, f, g * q, 0);
    assert n == f * (n / f) + n % f;
  }

  lemma Cofactor(n: nat, d: nat) returns (e: nat)
    requires 2 <= d < n && n % d == 0
    ensures n == d * e && n % e == 0 && 2 <= e < n
  {
    e := n / d;
    assert n == d * e;
    if e <= 1 {
      Mono(e, 1, d);
    }
    Mono(2, d, e);
    assert n == e * d + 0;
    Quotient(n, e, d, 0);
    assert n == e * (n / e) + n % e;
  }

  /** Below 19 * 19 that is enough. */
  lemma SiftedIsPrime(n: nat)
    requires 2 <= n < 361
    ensures Sifted(n) <==> IsPrime(n)
  {
    if Sifted(n) {
      forall d | 2 <= d < n ensures n % d != 0 {
        if n % d == 0 {
          var e := Cofactor(n, d);
          if d < 19 {
            HasSmallFactor(n, d);
          } else if e < 19 {
            HasSmallFactor(n, e);
          } else {
            Mono(19, d, e);
          }
        }
      }
    }
  }

  /** Nothing sifted lies between. */
  predicate NoneBetween(p: nat, q: nat)
    decreases q - p
  {
    p + 1 >= q || (!Sifted(p + 1) && NoneBetween(p + 1, q))
  }

  predicate Follows(p: nat, q: nat) {
    p < q < 361 && Sifted(q) && NoneBetween(p, q)
  }

  lemma {:induction false} NoneBetweenMeans(p: nat, q: nat, n: nat)
    requires NoneBetween(p, q) && p < n < q
    ensures !Sifted(n)
    decreases q - p
  {
    if p + 1 < n {
      NoneBetweenMeans(p + 1, q, n);
    }
  }

  lemma FollowsMeans(p: nat, q: nat)
    requires 1 <= p && Follows(p, q)
    ensures IsNextPrime(p, q)
  {
    SiftedIsPrime(q);
    forall n | p < n < q ensures !IsPrime(n) {
      NoneBetweenMeans(p, q, n);
      SiftedIsPrime(n);
    }
  }

  /** Eight more. */
  lemma Eight(p: nat, list: seq<nat>)
    requires 1 <= p && |list| == 8 && Follows(p, list[0])
    requires Follows(list[0], list[1]) && Follows(list[1], list[2]) && Follows(list[2], list[3])
    requires Follows(list[3], list[4]) && Follows(list[4], list[5]) && Follows(list[5], list[6])
    requires Follows(list[6], list[7])
    ensures ArePrimesAfter(p, list)
  {
    FollowsMeans(p, list[0]);
    FollowsMeans(list[0], list[1]);
    FollowsMeans(list[1], list[2]);
    FollowsMeans(list[2], list[3]);
    FollowsMeans(list[3], list[4]);
    FollowsMeans(list[4], list[5]);
    FollowsMeans(list[5], list[6]);
    FollowsMeans(list[6], list[7]);
    forall t | 0 <= t < 8 ensures IsNextPrime(Before(p, list, t), list[t]) {
      if t == 0 {} else if t == 1 {} else if t == 2 {} else if t == 3 {} else if t == 4 {} else if t == 5 {}
      else if t == 6 {} else {}
    }
  }

  lemma LinkedAppend(next: (nat, nat) -> bool, p: nat, a: seq<nat>, b: seq<nat>)
    requires a != [] && Linked(next, p, a) && Linked(next, a[|a| - 1], b)
    ensures Linked(next, p, a + b)
  {
    var c := a + b;
    forall t | 0 <= t < |c| ensures next(Before(p, c, t), c[t]) {
      if t < |a| {
        assert Before(p, c, t) == Before(p, a, t) && c[t] == a[t];
      } else {
        assert Before(p, c, t) == Before(a[|a| - 1], b, t - |a|) && c[t] == b[t - |a|];
      }
    }
  }

  lemma Primes0()
    ensures ArePrimesAfter(1, P0)
  {
    Eight(1, P0);
  }

  lemma Primes1()
    ensures ArePrimesAfter(19, P1)
  {
    Eight(19, P1);
  }

  lemma Primes2()
    ensures ArePrimesAfter(53, P2)
  {
    Eight(53, P2);
  }

  lemma Primes3()
    ensures ArePrimesAfter(89, P3)
  {
    Eight(89, P3);
  }

  lemma Primes4()
    ensures ArePrimesAfter(131, P4)
  {
    Eight(131, P4);
  }

  lemma Primes5()
    ensures ArePrimesAfter(173, P5)
  {
    Eight(173, P5);
  }

  lemma Primes6()
    ensures ArePrimesAfter(223, P6)
  {
    Eight(223, P6);
  }

  lemma Primes7()
    ensures ArePrimesAfter(263, P7)
  {
    Eight(263, P7);
  }

  lemma AllLinked(next: (nat, nat) -> bool)
    requires Linked(next, 1, P0) && Linked(next, 19, P1) && Linked(next, 53, P2) && Linked(next, 89, P3)
    requires Linked(next, 131, P4) && Linked(next, 173, P5) && Linked(next, 223, P6) && Linked(next, 263, P7)
    ensures Linked(next, 1, PRIMES)
  {
    LinkedAppend(next, 1, P0, P1);
    LinkedAppend(next, 1, P0 + P1, P2);
    LinkedAppend(next, 1, P0 + P1 + P2, P3);
    LinkedAppend(next, 1, P0 + P1 + P2 + P3, P4);
    LinkedAppend(next, 1, P0 + P1 + P2 + P3 + P4, P5);
    LinkedAppend(next, 1, P0 + P1 + P2 + P3 + P4 + P5, P6);
    LinkedAppend(next, 1, P0 + P1 + P2 + P3 + P4 + P5 + P6, P7);
  }

  /** The list holds the first sixty-four primes. */
  lemma PrimesArePrimes()
    ensures |PRIMES| == 64 && ArePrimesAfter(1, PRIMES)
  {
    Primes0();
    Primes1();
    Primes2();
    Primes3();
    Primes4();
    Primes5();
    Primes6();
    Primes7();
    AllLinked(IsNextPrime);
  }

  // ---- their roots ----

  function Cube(x: nat): nat { x * x * x }

  function Square(x: nat): nat { x * x }

  /** c and the thirty-two bits k are the cube root of p, cut off. */
  predicate CubeRootIs(c: nat, k: Word, p: nat) {
    Cube(c * 0x1_0000_0000 + k) <= p * 0x1_0000_0000_0000_0000_0000_0000 < Cube(c * 0x1_0000_0000 + k + 1)
  }

  predicate SquareRootIs(c: nat, k: Word, p: nat) {
    Square(c * 0x1_0000_0000 + k) <= p * 0x1_0000_0000_0000_0000 < Square(c * 0x1_0000_0000 + k + 1)
  }

  ghost predicate HasCubeRoot(k: Word, p: nat) {
    exists c: nat :: CubeRootIs(c, k, p)
  }

  ghost predicate HasSquareRoot(k: Word, p: nat) {
    exists c: nat :: SquareRootIs(c, k, p)
  }

  /** The first thirty-two bits of the fractions of the cube roots. */
  ghost predicate AreCubeRoots(ks: seq<Word>, ps: seq<nat>) {
    |ks| == |ps| && forall t :: 0 <= t < |ks| ==> HasCubeRoot(ks[t], ps[t])
  }

  ghost predicate AreSquareRoots(ks: seq<Word>, ps: seq<nat>) {
    |ks| == |ps| && forall t :: 0 <= t < |ks| ==> HasSquareRoot(ks[t], ps[t])
  }

  lemma RootsAppend(ks: seq<Word>, ps: seq<nat>, ls: seq<Word>, qs: seq<nat>)
    requires AreCubeRoots(ks, ps) && AreCubeRoots(ls, qs)
    ensures AreCubeRoots(ks + ls, ps + qs)
  {
    var kl, pq := ks + ls, ps + qs;
    forall t | 0 <= t < |kl| ensures HasCubeRoot(kl[t], pq[t]) {
      if t < |ks| {
        assert kl[t] == ks[t] && pq[t] == ps[t];
      } else {
        assert kl[t] == ls[t - |ks|] && pq[t] == qs[t - |ks|];
      }
    }
  }

  lemma OneOfEight(ks: seq<Word>, ps: seq<nat>)
    requires |ks| == |ps| == 8
    requires HasCubeRoot(ks[0], ps[0]) && HasCubeRoot(ks[1], ps[1]) && HasCubeRoot(ks[2], ps[2])
    requires HasCubeRoot(ks[3], ps[3]) && HasCubeRoot(ks[4], ps[4]) && HasCubeRoot(ks[5], ps[5])
    requires HasCubeRoot(ks[6], ps[6]) && HasCubeRoot(ks[7], ps[7])
    ensures AreCubeRoots(ks, ps)
  {
    forall t | 0 <= t < 8 ensures HasCubeRoot(ks[t], ps[t]) {
      if t == 0 {} else if t == 1 {} else if t == 2 {} else if t == 3 {} else if t == 4 {} else if t == 5 {}
      else if t == 6 {} else {}
    }
  }

  lemma Roots0()
    ensures AreCubeRoots(K0, P0)
  {
    assert CubeRootIs(1, 0x428a2f98, 2);
    assert CubeRootIs(1, 0x71374491, 3);
    assert CubeRootIs(1, 0xb5c0fbcf, 5);
    assert CubeRootIs(1, 0xe9b5dba5, 7);
    assert CubeRootIs(2, 0x3956c25b, 11);
    assert CubeRootIs(2, 0x59f111f1, 13);
    assert CubeRootIs(2, 0x923f82a4, 17);
    assert CubeRootIs(2, 0xab1c5ed5, 19);
    OneOfEight(K0, P0);
  }

  lemma Roots1()
    ensures AreCubeRoots(K1, P1)
  {
    assert CubeRootIs(2, 0xd807aa98, 23);
    assert CubeRootIs(3, 0x12835b01, 29);
    assert CubeRootIs(3, 0x243185be, 31);
    assert CubeRootIs(3, 0x550c7dc3, 37);
    assert CubeRootIs(3, 0x72be5d74, 41);
    assert CubeRootIs(3, 0x80deb1fe, 43);
    assert CubeRootIs(3, 0x9bdc06a7, 47);
    assert CubeRootIs(3, 0xc19bf174, 53);
    OneOfEight(K1, P1);
  }

  lemma Roots2()
    ensures AreCubeRoots(K2, P2)
  {
    assert CubeRootIs(3, 0xe49b69c1, 59);
    assert CubeRootIs(3, 0xefbe4786, 61);
    assert CubeRootIs(4, 0x0fc19dc6, 67);
    assert CubeRootIs(4, 0x240ca1cc, 71);
    assert CubeRootIs(4, 0x2de92c6f, 73);
    assert CubeRootIs(4, 0x4a7484aa, 79);
    assert CubeRootIs(4, 0x5cb0a9dc, 83);
    assert CubeRootIs(4, 0x76f988da, 89);
    OneOfEight(K2, P2);
  }

  lemma Roots3()
    ensures AreCubeRoots(K3, P3)
  {
    assert CubeRootIs(4, 0x983e5152, 97);
    assert CubeRootIs(4, 0xa831c66d, 101);
    assert CubeRootIs(4, 0xb00327c8, 103);
    assert CubeRootIs(4, 0xbf597fc7, 107);
    assert CubeRootIs(4, 0xc6e00bf3, 109);
    assert CubeRootIs(4, 0xd5a79147, 113);
    assert CubeRootIs(5, 0x06ca6351, 127);
    assert CubeRootIs(5, 0x14292967, 131);
    OneOfEight(K3, P3);
  }

  lemma Roots4()
    ensures AreCubeRoots(K4, P4)
  {
    assert CubeRootIs(5, 0x27b70a85, 137);
    assert CubeRootIs(5, 0x2e1b2138, 139);
    assert CubeRootIs(5, 0x4d2c6dfc, 149);
    assert CubeRootIs(5, 0x53380d13, 151);
    assert CubeRootIs(5, 0x650a7354, 157);
    assert CubeRootIs(5, 0x766a0abb, 163);
    assert CubeRootIs(5, 0x81c2c92e, 167);
    assert CubeRootIs(5, 0x92722c85, 173);
    OneOfEight(K4, P4);
  }

  lemma Roots5()
    ensures AreCubeRoots(K5, P5)
  {
    assert CubeRootIs(5, 0xa2bfe8a1, 179);
    assert CubeRootIs(5, 0xa81a664b, 181);
    assert CubeRootIs(5, 0xc24b8b70, 191);
    assert CubeRootIs(5, 0xc76c51a3, 193);
    assert CubeRootIs(5, 0xd192e819, 197);
    assert CubeRootIs(5, 0xd6990624, 199);
    assert CubeRootIs(5, 0xf40e3585, 211);
    assert CubeRootIs(6, 0x106aa070, 223);
    OneOfEight(K5, P5);
  }

  lemma Roots6()
    ensures AreCubeRoots(K6, P6)
  {
    assert CubeRootIs(6, 0x19a4c116, 227);
    assert CubeRootIs(6, 0x1e376c08, 229);
    assert CubeRootIs(6, 0x2748774c, 233);
    assert CubeRootIs(6, 0x34b0bcb5, 239);
    assert CubeRootIs(6, 0x391c0cb3, 241);
    assert CubeRootIs(6, 0x4ed8aa4a, 251);
    assert CubeRootIs(6, 0x5b9cca4f, 257);
    assert CubeRootIs(6, 0x682e6ff3, 263);
    OneOfEight(K6, P6);
  }

  lemma Roots7()
    ensures AreCubeRoots(K7, P7)
  {
    assert CubeRootIs(6, 0x748f82ee, 269);
    assert CubeRootIs(6, 0x78a5636f, 271);
    assert CubeRootIs(6, 0x84c87814, 277);
    assert CubeRootIs(6, 0x8cc70208, 281);
    assert CubeRootIs(6, 0x90befffa, 283);
    assert CubeRootIs(6, 0xa4506ceb, 293);
    assert CubeRootIs(6, 0xbef9a3f7, 307);
    assert CubeRootIs(6, 0xc67178f2, 311);
    OneOfEight(K7, P7);
  }

  /** The round constants are those of the first sixty-four primes. */
  lemma RoundConstants()
    ensures |K| == 64 && ArePrimesAfter(1, PRIMES) && AreCubeRoots(K, PRIMES)
  {
    PrimesArePrimes();
    Roots0();
    Roots1();
    RootsAppend(K0, P0, K1, P1);
    Roots2();
    RootsAppend(K0 + K1, P0 + P1, K2, P2);
    Roots3();
    RootsAppend(K0 + K1 + K2, P0 + P1 + P2, K3, P3);
    Roots4();
    RootsAppend(K0 + K1 + K2 + K3, P0 + P1 + P2 + P3, K4, P4);
    Roots5();
    RootsAppend(K0 + K1 + K2 + K3 + K4, P0 + P1 + P2 + P3 + P4, K5, P5);
    Roots6();
    RootsAppend(K0 + K1 + K2 + K3 + K4 + K5, P0 + P1 + P2 + P3 + P4 + P5, K6, P6);
    Roots7();
    RootsAppend(K0 + K1 + K2 + K3 + K4 + K5 + K6, P0 + P1 + P2 + P3 + P4 + P5 + P6, K7, P7);
  }

  /** The initial hash value is the same for the square roots of the first eight. */
  lemma InitialHash()
    ensures ArePrimesAfter(1, P0) && AreSquareRoots([IV.a, IV.b, IV.c, IV.d, IV.e, IV.f, IV.g, IV.h], P0)
  {
    Primes0();
    var h := [IV.a, IV.b, IV.c, IV.d, IV.e, IV.f, IV.g, IV.h];
    assert SquareRootIs(1, IV.a, P0[0]);
    assert SquareRootIs(1, IV.b, P0[1]);
    assert SquareRootIs(2, IV.c, P0[2]);
    assert SquareRootIs(2, IV.d, P0[3]);
    assert SquareRootIs(3, IV.e, P0[4]);
    assert SquareRootIs(3, IV.f, P0[5]);
    assert SquareRootIs(4, IV.g, P0[6]);
    assert SquareRootIs(4, IV.h, P0[7]);
    forall t | 0 <= t < 8 ensures HasSquareRoot(h[t], P0[t]) {
      if t == 0 {} else if t == 1 {} else if t == 2 {} else if t == 3 {} else if t == 4 {} else if t == 5 {}
      else if t == 6 {} else {}
    }
  }
}
