/** The constants of SHA-256 and where they come from. */
module Sha256Constants {

  // The round constants of section 5.1 of RFC 6234.
  const K0: seq<bv32> := [0x428a2f98, 0x71374491, 0xb5c0fbcf, 0xe9b5dba5,
                         0x3956c25b, 0x59f111f1, 0x923f82a4, 0xab1c5ed5]
  const K1: seq<bv32> := [0xd807aa98, 0x12835b01, 0x243185be, 0x550c7dc3,
                         0x72be5d74, 0x80deb1fe, 0x9bdc06a7, 0xc19bf174]
  const K2: seq<bv32> := [0xe49b69c1, 0xefbe4786, 0x0fc19dc6, 0x240ca1cc,
                         0x2de92c6f, 0x4a7484aa, 0x5cb0a9dc, 0x76f988da]
  const K3: seq<bv32> := [0x983e5152, 0xa831c66d, 0xb00327c8, 0xbf597fc7,
                         0xc6e00bf3, 0xd5a79147, 0x06ca6351, 0x14292967]
  const K4: seq<bv32> := [0x27b70a85, 0x2e1b2138, 0x4d2c6dfc, 0x53380d13,
                         0x650a7354, 0x766a0abb, 0x81c2c92e, 0x92722c85]
  const K5: seq<bv32> := [0xa2bfe8a1, 0xa81a664b, 0xc24b8b70, 0xc76c51a3,
                         0xd192e819, 0xd6990624, 0xf40e3585, 0x106aa070]
  const K6: seq<bv32> := [0x19a4c116, 0x1e376c08, 0x2748774c, 0x34b0bcb5,
                         0x391c0cb3, 0x4ed8aa4a, 0x5b9cca4f, 0x682e6ff3]
  const K7: seq<bv32> := [0x748f82ee, 0x78a5636f, 0x84c87814, 0x8cc70208,
                         0x90befffa, 0xa4506ceb, 0xbef9a3f7, 0xc67178f2]
  const K: seq<bv32> := K0 + K1 + K2 + K3 + K4 + K5 + K6 + K7

  // The initial hash value of section 6.1 of RFC 6234.
  const INITIAL: seq<bv32> := [0x6a09e667, 0xbb67ae85, 0x3c6ef372, 0xa54ff53a,
                              0x510e527f, 0x9b05688c, 0x1f83d9ab, 0x5be0cd19]

  // The first sixty-four primes.
  const P0: seq<int> := [2, 3, 5, 7, 11, 13, 17, 19]
  const P1: seq<int> := [23, 29, 31, 37, 41, 43, 47, 53]
  const P2: seq<int> := [59, 61, 67, 71, 73, 79, 83, 89]
  const P3: seq<int> := [97, 101, 103, 107, 109, 113, 127, 131]
  const P4: seq<int> := [137, 139, 149, 151, 157, 163, 167, 173]
  const P5: seq<int> := [179, 181, 191, 193, 197, 199, 211, 223]
  const P6: seq<int> := [227, 229, 233, 239, 241, 251, 257, 263]
  const P7: seq<int> := [269, 271, 277, 281, 283, 293, 307, 311]
  const PRIMES: seq<int> := P0 + P1 + P2 + P3 + P4 + P5 + P6 + P7

  /** k is the first 32 bits of the fractional part of the cube root of p. */
  predicate IsCubeRoot(p: int, whole: int, k: int) {
    var r := whole * 0x1_0000_0000 + k;
    0 <= k < 0x1_0000_0000 && r * r * r <= p * 0x1_0000_0000_0000_0000_0000_0000 < (r + 1) * (r + 1) * (r + 1)
  }

  predicate Matches(p: seq<int>, k: seq<bv32>, j: int)
    requires |p| == |k| == 8 && 0 <= j < 8
  {
    IsCubeRoot(p[j], Whole(p[j]), k[j] as int)
  }

  predicate RowMatches(p: seq<int>, k: seq<bv32>) {
    && |p| == |k| == 8
    && Matches(p, k, 0) && Matches(p, k, 1) && Matches(p, k, 2) && Matches(p, k, 3)
    && Matches(p, k, 4) && Matches(p, k, 5) && Matches(p, k, 6) && Matches(p, k, 7)
  }

  function Whole(p: int): int {
    if p < 8 then 1 else if p < 27 then 2 else if p < 64 then 3 else if p < 125 then 4 else if p < 216 then 5 else 6
  }

  lemma ConstantRow0()
    ensures RowMatches(P0, K0)
  {
  }

  lemma ConstantRow1()
    ensures RowMatches(P1, K1)
  {
  }

  lemma ConstantRow2()
    ensures RowMatches(P2, K2)
  {
  }

  lemma ConstantRow3()
    ensures RowMatches(P3, K3)
  {
  }

  lemma ConstantRow4()
    ensures RowMatches(P4, K4)
  {
  }

  lemma ConstantRow5()
    ensures RowMatches(P5, K5)
  {
  }

  lemma ConstantRow6()
    ensures RowMatches(P6, K6)
  {
  }

  lemma ConstantRow7()
    ensures RowMatches(P7, K7)
  {
  }

  lemma Pick(p: seq<int>, k: seq<bv32>, j: int)
    requires RowMatches(p, k) && 0 <= j < 8
    ensures IsCubeRoot(p[j], Whole(p[j]), k[j] as int)
  {
    hide IsCubeRoot, Whole;
  }

  lemma RowOf(i: nat)
    requires i < 64
    ensures |PRIMES| == 64
    ensures i < 8 ==> K[i] == K0[i] && PRIMES[i] == P0[i]
    ensures 8 <= i < 16 ==> K[i] == K1[i - 8] && PRIMES[i] == P1[i - 8]
    ensures 16 <= i < 24 ==> K[i] == K2[i - 16] && PRIMES[i] == P2[i - 16]
    ensures 24 <= i < 32 ==> K[i] == K3[i - 24] && PRIMES[i] == P3[i - 24]
    ensures 32 <= i < 40 ==> K[i] == K4[i - 32] && PRIMES[i] == P4[i - 32]
    ensures 40 <= i < 48 ==> K[i] == K5[i - 40] && PRIMES[i] == P5[i - 40]
    ensures 48 <= i < 56 ==> K[i] == K6[i - 48] && PRIMES[i] == P6[i - 48]
    ensures 56 <= i ==> K[i] == K7[i - 56] && PRIMES[i] == P7[i - 56]
  {
  }

  /** The definition of the table in section 5.1 of RFC 6234: cube roots of the first primes. */
  lemma RoundConstantsAreCubeRoots(i: nat)
    requires i < 64
    ensures IsCubeRoot(PRIMES[i], Whole(PRIMES[i]), K[i] as int)
  {
    hide IsCubeRoot, Whole, RowMatches;
    RowOf(i);
    if i < 8 {
      ConstantRow0();
      Pick(P0, K0, i);
    } else if i < 16 {
      ConstantRow1();
      Pick(P1, K1, i - 8);
    } else if i < 24 {
      ConstantRow2();
      Pick(P2, K2, i - 16);
    } else if i < 32 {
      ConstantRow3();
      Pick(P3, K3, i - 24);
    } else if i < 40 {
      ConstantRow4();
      Pick(P4, K4, i - 32);
    } else if i < 48 {
      ConstantRow5();
      Pick(P5, K5, i - 40);
    } else if i < 56 {
      ConstantRow6();
      Pick(P6, K6, i - 48);
    } else {
      ConstantRow7();
      Pick(P7, K7, i - 56);
    }
  }

  /** k is the first 32 bits of the fractional part of the square root of p. */
  predicate IsSquareRoot(p: int, whole: int, k: int) {
    var r := whole * 0x1_0000_0000 + k;
    0 <= k < 0x1_0000_0000 && r * r <= p * 0x1_0000_0000_0000_0000 < (r + 1) * (r + 1)
  }

  predicate StartsAt(i: int, whole: int)
    requires 0 <= i < 8
  {
    IsSquareRoot(P0[i], whole, INITIAL[i] as int)
  }

  lemma FirstFourRoots()
    ensures StartsAt(0, 1) && StartsAt(1, 1) && StartsAt(2, 2) && StartsAt(3, 2)
  {
  }

  lemma LastFourRoots()
    ensures StartsAt(4, 3) && StartsAt(5, 3) && StartsAt(6, 4) && StartsAt(7, 4)
  {
  }

  /** The definition of the initial value in section 6.1 of RFC 6234: square roots of the first eight primes. */
  lemma InitialIsSquareRoots(i: nat)
    requires i < 8
    ensures IsSquareRoot(P0[i], if i < 2 then 1 else if i < 4 then 2 else if i < 6 then 3 else 4, INITIAL[i] as int)
  {
    hide IsSquareRoot;
    FirstFourRoots();
    LastFourRoots();
    assert StartsAt(i, if i < 2 then 1 else if i < 4 then 2 else if i < 6 then 3 else 4);
  }
}
