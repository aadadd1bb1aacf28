/** The constants of SHA-256 are what sections 4.2.2 and 5.3.3 of FIPS 180-4 say
    they are: bits of the roots of the first primes. */
module ShaConstants {
  import opened HashSpec

  const PRIMES1: seq<nat> := [
    2, 3, 5, 7, 11, 13, 17, 19, 23, 29, 31, 37, 41, 43, 47, 53]
  const PRIMES2: seq<nat> := [
    59, 61, 67, 71, 73, 79, 83, 89, 97, 101, 103, 107, 109, 113, 127, 131]
  const PRIMES3: seq<nat> := [
    137, 139, 149, 151, 157, 163, 167, 173, 179, 181, 191, 193, 197, 199, 211, 223]
  const PRIMES4: seq<nat> := [
    227, 229, 233, 239, 241, 251, 257, 263, 269, 271, 277, 281, 283, 293, 307, 311]

  function Prime(t: nat): nat
    requires t < 64
  {
    if t < 16 then PRIMES1[t] else if t < 32 then PRIMES2[t - 16]
    else if t < 48 then PRIMES3[t - 32] else PRIMES4[t - 48]
  }

  function Cube(x: int): int {
    x * x * x
  }

  /** The cube root of `p` has the whole part `w`, and the 32 bits behind the point are `k`. */
  predicate CubeRoot(p: nat, w: nat, k: Word) {
    var x := 0x1_0000_0000 * w + k;
    Cube(x) <= 0x1_0000_0000_0000_0000_0000_0000 * p < Cube(x + 1)
  }

  /** The same for square roots. */
  predicate SquareRoot(p: nat, w: nat, k: Word) {
    var x := 0x1_0000_0000 * w + k;
    x * x <= 0x1_0000_0000_0000_0000 * p < (x + 1) * (x + 1)
  }

  /** The whole part of the cube root of a small number. */
  function Whole(p: nat): nat {
    if p < 8 then 1 else if p < 27 then 2 else if p < 64 then 3 else if p < 125 then 4 else if p < 216 then 5 else 6
  }

  lemma RoundConstants1(t: nat)
    requires 0 <= t < 8
    ensures CubeRoot(Prime(t), Whole(Prime(t)), ShaK(t))
  {
    match t
    case 0 => case 1 => case 2 => case 3 => case 4 => case 5 => case 6 => case 7 =>
  }

  lemma RoundConstants2(t: nat)
    requires 8 <= t < 16
    ensures CubeRoot(Prime(t), Whole(Prime(t)), ShaK(t))
  {
    match t
    case 8 => case 9 => case 10 => case 11 => case 12 => case 13 => case 14 => case 15 =>
  }

  lemma RoundConstants3(t: nat)
    requires 16 <= t < 24
    ensures CubeRoot(Prime(t), Whole(Prime(t)), ShaK(t))
  {
    match t
    case 16 => case 17 => case 18 => case 19 => case 20 => case 21 => case 22 => case 23 =>
  }

  lemma RoundConstants4(t: nat)
    requires 24 <= t < 32
    ensures CubeRoot(Prime(t), Whole(Prime(t)), ShaK(t))
  {
    match t
    case 24 => case 25 => case 26 => case 27 => case 28 => case 29 => case 30 => case 31 =>
  }

  lemma RoundConstants5(t: nat)
    requires 32 <= t < 40
    ensures CubeRoot(Prime(t), Whole(Prime(t)), ShaK(t))
  {
    match t
    case 32 => case 33 => case 34 => case 35 => case 36 => case 37 => case 38 => case 39 =>
  }

  lemma RoundConstants6(t: nat)
    requires 40 <= t < 48
    ensures CubeRoot(Prime(t), Whole(Prime(t)), ShaK(t))
  {
    match t
    case 40 => case 41 => case 42 => case 43 => case 44 => case 45 => case 46 => case 47 =>
  }

  lemma RoundConstants7(t: nat)
    requires 48 <= t < 56
    ensures CubeRoot(Prime(t), Whole(Prime(t)), ShaK(t))
  {
    match t
    case 48 => case 49 => case 50 => case 51 => case 52 => case 53 => case 54 => case 55 =>
  }

  lemma RoundConstants8(t: nat)
    requires 56 <= t < 64
    ensures CubeRoot(Prime(t), Whole(Prime(t)), ShaK(t))
  {
    match t
    case 56 => case 57 => case 58 => case 59 => case 60 => case 61 => case 62 => case 63 =>
  }

  /** Every round constant is the fraction of the cube root of its prime. */
  lemma {:induction false} RoundConstants(t: nat)
    requires t < 64
    ensures CubeRoot(Prime(t), Whole(Prime(t)), ShaK(t))
  {
    hide CubeRoot, Prime, Whole, ShaK;
    if t < 32 {
      if t < 8 { RoundConstants1(t); } else if t < 16 { RoundConstants2(t); }
      else if t < 24 { RoundConstants3(t); } else { RoundConstants4(t); }
    } else {
      if t < 40 { RoundConstants5(t); } else if t < 48 { RoundConstants6(t); }
      else if t < 56 { RoundConstants7(t); } else { RoundConstants8(t); }
    }
  }

  /** The first hash value holds the fractions of the square roots of the first eight primes. */
  lemma StartConstants()
    ensures SquareRoot(Prime(0), 1, SHA_START.a) && SquareRoot(Prime(1), 1, SHA_START.b)
    ensures SquareRoot(Prime(2), 2, SHA_START.c) && SquareRoot(Prime(3), 2, SHA_START.d)
    ensures SquareRoot(Prime(4), 3, SHA_START.e) && SquareRoot(Prime(5), 3, SHA_START.f)
    ensures SquareRoot(Prime(6), 4, SHA_START.g) && SquareRoot(Prime(7), 4, SHA_START.h)
  {
  }
}
