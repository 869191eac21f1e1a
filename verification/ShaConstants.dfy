/** Where the constants of SHA-256 come from, and what its functions do to the bits of a word: sections 4.1.2, 4.2.2
    and 5.3.3 of FIPS 180-4. */
module ShaConstants {
  import opened Basics
  import opened Sha256

  // --- primes ---

  ghost predicate IsPrime(n: nat)
  {
    n >= 2 && forall d | 2 <= d < n :: n % d != 0
  }

  /** Trial division by the primes below 18. */
  predicate Undivided(n: nat)
  {
    && n >= 2 && (n == 2 || n % 2 != 0) && (n == 3 || n % 3 != 0) && (n == 5 || n % 5 != 0) && (n == 7 || n % 7 != 0)
    && (n == 11 || n % 11 != 0) && (n == 13 || n % 13 != 0) && (n == 17 || n % 17 != 0)
  }

  lemma Positive(q: nat, d: nat)
    requires d > 0
    ensures q * d >= q
  {
    assert q * (d - 1) >= 0;
  }

  lemma Multiple(q: nat, c: nat)
    requires q > 0
    ensures q * c % q == 0
  {
    var m := q * c / q;
    assert q * (c - m) == q * c % q;
    if c > m { Positive(q, c - m); assert false; }
    assert q * (m - c) == -(q * c % q);
    if c < m { Positive(q, m - c); assert false; }
  }

  lemma Divided(n: nat, q: nat, c: nat)
    requires q in {2, 3, 5, 7, 11, 13, 17} && n == q * c && c >= 2
    ensures !Undivided(n)
  {
    Multiple(q, c);
    assert q * (c - 2) >= 0;
  }

  lemma SmallDivisor(n: nat, d: nat, e: nat)
    requires n == d * e && 2 <= d < 18 && e >= 2
    ensures !Undivided(n)
  {
    hide Undivided;
    if d % 2 == 0 { var c := d / 2; assert d == 2 * c; Divided(n, 2, c * e) by { Regroup(n, 2, c, e); } }
    else if d == 9 || d == 15 { var c := d / 3; assert d == 3 * c; Divided(n, 3, c * e) by { Regroup(n, 3, c, e); } }
    else { Divided(n, d, e); }
  }

  lemma Regroup(n: nat, q: nat, c: nat, e: nat)
    requires n == q * c * e && c >= 1 && e >= 2
    ensures n == q * (c * e) && c * e >= 2
  {
    assert (c - 1) * e >= 0;
  }

  lemma Product(d: nat, e: nat)
    requires d >= 18 && e >= 18
    ensures d * e >= 324
  {
    assert (d - 18) * e >= 0;
  }

  lemma NoDivisor(n: nat, d: nat)
    requires Undivided(n) && 2 <= d < n < 324
    ensures n % d != 0
  {
    hide Undivided;
    var e := n / d;
    if n == d * e {
      assert n == e * d;
      if d < 18 {
        SmallDivisor(n, d, e);
      } else {
        if e >= 18 { Product(d, e); assert false; }
        SmallDivisor(n, e, d);
      }
    }
  }

  /** Trial division is exact below 18 * 18. */
  lemma TrialDivision(n: nat)
    requires n < 324
    ensures Undivided(n) <==> IsPrime(n)
  {
    hide Undivided;
    if Undivided(n) {
      AtLeastTwo(n);
      forall d | 2 <= d < n ensures n % d != 0 { NoDivisor(n, d); }
    }
    if IsPrime(n) { PrimeUndivided(n); }
  }

  lemma AtLeastTwo(n: nat)
    requires Undivided(n)
    ensures n >= 2
  {
  }

  lemma PrimeUndivided(n: nat)
    requires IsPrime(n)
    ensures Undivided(n)
  {
  }

  ghost predicate NextPrime(p: nat, q: nat)
  {
    p < q && IsPrime(q) && forall n | p < n < q :: !IsPrime(n)
  }

  predicate NoneAfter(p: nat, q: nat)
    decreases q - p
  {
    p + 1 >= q || (!Undivided(p + 1) && NoneAfter(p + 1, q))
  }

  lemma {:induction false} NoneBetween(p: nat, q: nat)
    requires NoneAfter(p, q) && q < 324
    ensures forall n | p < n < q :: !IsPrime(n)
    decreases q - p
  {
    hide Undivided, IsPrime;
    if p + 1 < q {
      TrialDivision(p + 1);
      NoneBetween(p + 1, q);
    }
  }

  lemma Follows(p: nat, q: nat)
    requires p < q < 324 && Undivided(q) && NoneAfter(p, q)
    ensures NextPrime(p, q)
  {
    hide Undivided, IsPrime, NoneAfter;
    TrialDivision(q);
    NoneBetween(p, q);
  }

  ghost function PrimesBelow(n: nat): (count: nat)
  {
    if n == 0 then 0 else PrimesBelow(n - 1) + if IsPrime(n - 1) then 1 else 0
  }

  /** `p` is prime number `t`, counted from 0. */
  ghost predicate NthPrime(p: nat, t: nat)
  {
    IsPrime(p) && PrimesBelow(p) == t
  }

  lemma {:induction false} NoneCounted(p: nat, n: nat)
    requires p < n && forall k | p < k < n :: !IsPrime(k)
    ensures PrimesBelow(n) == PrimesBelow(p + 1)
  {
    hide IsPrime;
    if p + 1 < n { NoneCounted(p, n - 1); }
  }

  // --- roots ---

  const TWO_32: nat := 0x1_0000_0000

  predicate IsSquareRoot(n: nat, r: nat)
  {
    r * r <= n < (r + 1) * (r + 1)
  }

  predicate IsCubeRoot(n: nat, r: nat)
  {
    r * r * r <= n < (r + 1) * (r + 1) * (r + 1)
  }

  /** The first 32 bits of the fractional part of the square root of `p`. */
  ghost predicate SquareRootBits(p: nat, bits: Word32)
  {
    exists w: nat :: IsSquareRoot(p * TWO_32 * TWO_32, w * TWO_32 + bits as nat)
  }

  ghost predicate CubeRootBits(p: nat, bits: Word32)
  {
    exists w: nat :: IsCubeRoot(p * TWO_32 * TWO_32 * TWO_32, w * TWO_32 + bits as nat)
  }

  /** Entry `t` of the tables comes from prime number `t`. */
  ghost predicate Derived(t: nat)
    requires t < 64
  {
    exists p :: NthPrime(p, t) && CubeRootBits(p, RoundConstant(t)) && (t < 8 ==> SquareRootBits(p, INITIAL_HASH[t]))
  }

  ghost predicate Four(t: nat)
    requires t <= 60
  {
    Derived(t) && Derived(t + 1) && Derived(t + 2) && Derived(t + 3)
  }

  lemma Cube(t: nat, p: nat, q: nat, w: nat, bits: Word32)
    requires t < 64 && NthPrime(p, t) && RoundConstant(t) == bits
    requires IsCubeRoot(p * TWO_32 * TWO_32 * TWO_32, w * TWO_32 + bits as nat)
    requires p < q < 324 && Undivided(q) && NoneAfter(p, q)
    requires t < 8 ==> SquareRootBits(p, INITIAL_HASH[t])
    ensures Derived(t) && NthPrime(q, t + 1)
  {
    hide IsPrime, Undivided, NoneAfter, IsCubeRoot, SquareRootBits;
    Follows(p, q);
    NoneCounted(p, q);
  }

  lemma Square(t: nat, p: nat, w: nat, bits: Word32)
    requires t < 8 && INITIAL_HASH[t] == bits && IsSquareRoot(p * TWO_32 * TWO_32, w * TWO_32 + bits as nat)
    ensures SquareRootBits(p, INITIAL_HASH[t])
  {
  }

  lemma FirstPrime()
    ensures NthPrime(2, 0)
  {
    assert PrimesBelow(1) == 0;
  }

  lemma Row0()
    requires NthPrime(2, 0)
    ensures Four(0) && NthPrime(11, 4)
  {
    hide Derived, SquareRootBits, NthPrime;
    Square(0, 2, 1, 0x6a09e667);
    Cube(0, 2, 3, 1, 0x428a2f98);
    Square(1, 3, 1, 0xbb67ae85);
    Cube(1, 3, 5, 1, 0x71374491);
    Square(2, 5, 2, 0x3c6ef372);
    Cube(2, 5, 7, 1, 0xb5c0fbcf);
    Square(3, 7, 2, 0xa54ff53a);
    Cube(3, 7, 11, 1, 0xe9b5dba5);
  }

  lemma Row1()
    requires NthPrime(11, 4)
    ensures Four(4) && NthPrime(23, 8)
  {
    hide Derived, SquareRootBits, NthPrime;
    Square(4, 11, 3, 0x510e527f);
    Cube(4, 11, 13, 2, 0x3956c25b);
    Square(5, 13, 3, 0x9b05688c);
    Cube(5, 13, 17, 2, 0x59f111f1);
    Square(6, 17, 4, 0x1f83d9ab);
    Cube(6, 17, 19, 2, 0x923f82a4);
    Square(7, 19, 4, 0x5be0cd19);
    Cube(7, 19, 23, 2, 0xab1c5ed5);
  }

  lemma Row2()
    requires NthPrime(23, 8)
    ensures Four(8) && NthPrime(41, 12)
  {
    hide Derived, SquareRootBits, NthPrime;
    Cube(8, 23, 29, 2, 0xd807aa98);
    Cube(9, 29, 31, 3, 0x12835b01);
    Cube(10, 31, 37, 3, 0x243185be);
    Cube(11, 37, 41, 3, 0x550c7dc3);
  }

  lemma Row3()
    requires NthPrime(41, 12)
    ensures Four(12) && NthPrime(59, 16)
  {
    hide Derived, SquareRootBits, NthPrime;
    Cube(12, 41, 43, 3, 0x72be5d74);
    Cube(13, 43, 47, 3, 0x80deb1fe);
    Cube(14, 47, 53, 3, 0x9bdc06a7);
    Cube(15, 53, 59, 3, 0xc19bf174);
  }

  lemma Row4()
    requires NthPrime(59, 16)
    ensures Four(16) && NthPrime(73, 20)
  {
    hide Derived, SquareRootBits, NthPrime;
    Cube(16, 59, 61, 3, 0xe49b69c1);
    Cube(17, 61, 67, 3, 0xefbe4786);
    Cube(18, 67, 71, 4, 0x0fc19dc6);
    Cube(19, 71, 73, 4, 0x240ca1cc);
  }

  lemma Row5()
    requires NthPrime(73, 20)
    ensures Four(20) && NthPrime(97, 24)
  {
    hide Derived, SquareRootBits, NthPrime;
    Cube(20, 73, 79, 4, 0x2de92c6f);
    Cube(21, 79, 83, 4, 0x4a7484aa);
    Cube(22, 83, 89, 4, 0x5cb0a9dc);
    Cube(23, 89, 97, 4, 0x76f988da);
  }

  lemma Row6()
    requires NthPrime(97, 24)
    ensures Four(24) && NthPrime(109, 28)
  {
    hide Derived, SquareRootBits, NthPrime;
    Cube(24, 97, 101, 4, 0x983e5152);
    Cube(25, 101, 103, 4, 0xa831c66d);
    Cube(26, 103, 107, 4, 0xb00327c8);
    Cube(27, 107, 109, 4, 0xbf597fc7);
  }

  lemma Row7()
    requires NthPrime(109, 28)
    ensures Four(28) && NthPrime(137, 32)
  {
    hide Derived, SquareRootBits, NthPrime;
    Cube(28, 109, 113, 4, 0xc6e00bf3);
    Cube(29, 113, 127, 4, 0xd5a79147);
    Cube(30, 127, 131, 5, 0x06ca6351);
    Cube(31, 131, 137, 5, 0x14292967);
  }

  lemma Row8()
    requires NthPrime(137, 32)
    ensures Four(32) && NthPrime(157, 36)
  {
    hide Derived, SquareRootBits, NthPrime;
    Cube(32, 137, 139, 5, 0x27b70a85);
    Cube(33, 139, 149, 5, 0x2e1b2138);
    Cube(34, 149, 151, 5, 0x4d2c6dfc);
    Cube(35, 151, 157, 5, 0x53380d13);
  }

  lemma Row9()
    requires NthPrime(157, 36)
    ensures Four(36) && NthPrime(179, 40)
  {
    hide Derived, SquareRootBits, NthPrime;
    Cube(36, 157, 163, 5, 0x650a7354);
    Cube(37, 163, 167, 5, 0x766a0abb);
    Cube(38, 167, 173, 5, 0x81c2c92e);
    Cube(39, 173, 179, 5, 0x92722c85);
  }

  lemma Row10()
    requires NthPrime(179, 40)
    ensures Four(40) && NthPrime(197, 44)
  {
    hide Derived, SquareRootBits, NthPrime;
    Cube(40, 179, 181, 5, 0xa2bfe8a1);
    Cube(41, 181, 191, 5, 0xa81a664b);
    Cube(42, 191, 193, 5, 0xc24b8b70);
    Cube(43, 193, 197, 5, 0xc76c51a3);
  }

  lemma Row11()
    requires NthPrime(197, 44)
    ensures Four(44) && NthPrime(227, 48)
  {
    hide Derived, SquareRootBits, NthPrime;
    Cube(44, 197, 199, 5, 0xd192e819);
    Cube(45, 199, 211, 5, 0xd6990624);
    Cube(46, 211, 223, 5, 0xf40e3585);
    Cube(47, 223, 227, 6, 0x106aa070);
  }

  lemma Row12()
    requires NthPrime(227, 48)
    ensures Four(48) && NthPrime(241, 52)
  {
    hide Derived, SquareRootBits, NthPrime;
    Cube(48, 227, 229, 6, 0x19a4c116);
    Cube(49, 229, 233, 6, 0x1e376c08);
    Cube(50, 233, 239, 6, 0x2748774c);
    Cube(51, 239, 241, 6, 0x34b0bcb5);
  }

  lemma Row13()
    requires NthPrime(241, 52)
    ensures Four(52) && NthPrime(269, 56)
  {
    hide Derived, SquareRootBits, NthPrime;
    Cube(52, 241, 251, 6, 0x391c0cb3);
    Cube(53, 251, 257, 6, 0x4ed8aa4a);
    Cube(54, 257, 263, 6, 0x5b9cca4f);
    Cube(55, 263, 269, 6, 0x682e6ff3);
  }

  lemma Row14()
    requires NthPrime(269, 56)
    ensures Four(56) && NthPrime(283, 60)
  {
    hide Derived, SquareRootBits, NthPrime;
    Cube(56, 269, 271, 6, 0x748f82ee);
    Cube(57, 271, 277, 6, 0x78a5636f);
    Cube(58, 277, 281, 6, 0x84c87814);
    Cube(59, 281, 283, 6, 0x8cc70208);
  }

  lemma Row15()
    requires NthPrime(283, 60)
    ensures Four(60) && NthPrime(313, 64)
  {
    hide Derived, SquareRootBits, NthPrime;
    Cube(60, 283, 293, 6, 0x90befffa);
    Cube(61, 293, 307, 6, 0xa4506ceb);
    Cube(62, 307, 311, 6, 0xbef9a3f7);
    Cube(63, 311, 313, 6, 0xc67178f2);
  }

  lemma OneOf(a: nat, t: nat)
    requires a <= 60 && Four(a) && a <= t < a + 4
    ensures Derived(t)
  {
    hide Derived;
  }

  /** The round constants are the first 32 bits of the fractional parts of the cube roots of the first 64 primes,
      the initial hash those of the square roots of the first eight. */
  lemma ConstantsExact(t: nat)
    requires t < 64
    ensures exists p :: NthPrime(p, t) && CubeRootBits(p, RoundConstant(t)) && (t < 8 ==> SquareRootBits(p, INITIAL_HASH[t]))
  {
    hide Four, NthPrime, CubeRootBits, SquareRootBits, RoundConstant;
    FirstPrime();
    Row0(); Row1(); Row2(); Row3(); Row4(); Row5(); Row6(); Row7();
    Row8(); Row9(); Row10(); Row11(); Row12(); Row13(); Row14(); Row15();
    OneOf(4 * (t / 4), t);
  }

  // --- functions on words ---

  function Xor(x: Word32, y: Word32, z: Word32): (r: Word32)
  {
    x ^ y ^ z
  }

  /** Rotations to the right, and shifts where the standard has shifts. */
  lemma Rotations(x: Word32)
    ensures BigSigma0(x) == Xor(x.RotateRight(2), x.RotateRight(13), x.RotateRight(22))
    ensures BigSigma1(x) == Xor(x.RotateRight(6), x.RotateRight(11), x.RotateRight(25))
    ensures SmallSigma0(x) == Xor(x.RotateRight(7), x.RotateRight(18), x >> 3)
    ensures SmallSigma1(x) == Xor(x.RotateRight(17), x.RotateRight(19), x >> 10)
  {
    hide RightRot, Xor, BigSigma0, BigSigma1, SmallSigma0, SmallSigma1;
    RotationsBig(x);
    RotationsSmall(x);
    SigmasBig(x);
    SigmasSmall(x);
  }

  lemma SigmasBig(x: Word32)
    ensures BigSigma0(x) == Xor(RightRot(x, 2), RightRot(x, 13), RightRot(x, 22))
    ensures BigSigma1(x) == Xor(RightRot(x, 6), RightRot(x, 11), RightRot(x, 25))
  {
    hide RightRot;
  }

  lemma SigmasSmall(x: Word32)
    ensures SmallSigma0(x) == Xor(RightRot(x, 7), RightRot(x, 18), x >> 3)
    ensures SmallSigma1(x) == Xor(RightRot(x, 17), RightRot(x, 19), x >> 10)
  {
    hide RightRot;
  }

  lemma RotationsBig(x: Word32)
    ensures RightRot(x, 2) == x.RotateRight(2) && RightRot(x, 13) == x.RotateRight(13) && RightRot(x, 22) == x.RotateRight(22)
    ensures RightRot(x, 6) == x.RotateRight(6) && RightRot(x, 11) == x.RotateRight(11) && RightRot(x, 25) == x.RotateRight(25)
  {
  }

  lemma RotationsSmall(x: Word32)
    ensures RightRot(x, 7) == x.RotateRight(7) && RightRot(x, 18) == x.RotateRight(18)
    ensures RightRot(x, 17) == x.RotateRight(17) && RightRot(x, 19) == x.RotateRight(19)
  {
  }

  /** Bit by bit: `Ch` chooses between `y` and `z`, `Maj` is what two of three agree on. */
  lemma ChoiceAndMajority(x: Word32, y: Word32, z: Word32)
    ensures Ch(x, y, z) & x == y & x && Ch(x, y, z) & !x == z & !x
    ensures Maj(x, y, z) == (x & y) | (y & z) | (z & x)
  {
    Choice(x, y, z);
  }

  lemma Choice(x: Word32, y: Word32, z: Word32)
    ensures Ch(x, y, z) & x == y & x
    ensures Ch(x, y, z) & !x == z & !x
  {
  }

  /** The bytes of a word come most significant first. */
  lemma WordIs(block: Bytes, t: nat)
    requires 4 * t + 4 <= |block|
    requires block[4 * t] as Word32 < 256 && block[4 * t + 1] as Word32 < 256
    requires block[4 * t + 2] as Word32 < 256 && block[4 * t + 3] as Word32 < 256
    ensures WordAt(block, t) ==
      (block[4 * t] as Word32) * 0x1000000 + (block[4 * t + 1] as Word32) * 0x10000 +
      (block[4 * t + 2] as Word32) * 0x100 + block[4 * t + 3] as Word32
  {
    Places(block[4 * t + 0] as Word32, block[4 * t + 1] as Word32, block[4 * t + 2] as Word32, block[4 * t + 3] as Word32);
  }

  lemma Places(a: Word32, b: Word32, c: Word32, d: Word32)
    requires a < 256 && b < 256 && c < 256 && d < 256
    ensures (a << 24) | (b << 16) | (c << 8) | d == a * 0x1000000 + b * 0x10000 + c * 0x100 + d
  {
  }

  lemma Shifts(w: Word32)
    ensures w >> 24 == w / 0x1000000 && w >> 16 == w / 0x10000 && w >> 8 == w / 0x100
  {
  }

  /** So do those of a word of the digest. */
  lemma WordBytesAre(w: Word32)
    ensures |WordBytes(w)| == 4
    ensures WordBytes(w)[0] == (w / 0x1000000) as nat % 256 && WordBytes(w)[1] == (w / 0x10000) as nat % 256
    ensures WordBytes(w)[2] == (w / 0x100) as nat % 256 && WordBytes(w)[3] == w as nat % 256
  {
    Shifts(w);
  }

  /** The first round of the one-block example of FIPS 180-4, for the message "abc". */
  lemma FirstRound()
    ensures Round([0x6a09e667, 0xbb67ae85, 0x3c6ef372, 0xa54ff53a, 0x510e527f, 0x9b05688c, 0x1f83d9ab, 0x5be0cd19], 0x428a2f98, 0x61626380) ==
                  [0x5d6aebcd, 0x6a09e667, 0xbb67ae85, 0x3c6ef372, 0xfa2a4622, 0x510e527f, 0x9b05688c, 0x1f83d9ab]
  {
  }
}
