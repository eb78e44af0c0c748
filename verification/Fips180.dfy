/** SHA-256 as FIPS 180-4 defines it: padding (section 5.1.1), the initial hash value
    (section 5.3.3) and the computation of the hash (section 6.2.2). */
module Fips180 {
  import opened SeqFacts

  type Byte = bv8
  type Word = bv32

  /** The eight working variables, and also the eight words of a hash value. */
  datatype Regs = Regs(a: Word, b: Word, c: Word, d: Word, e: Word, f: Word, g: Word, h: Word)

  /** Section 4.2.2, eight constants in a row. */
  function KRow(r: nat): (row: seq<Word>)
    requires r < 8
    ensures |row| == 8
  {
    if r == 0 then
      [0x428a2f98, 0x71374491, 0xb5c0fbcf, 0xe9b5dba5, 0x3956c25b, 0x59f111f1, 0x923f82a4, 0xab1c5ed5]
    else if r == 1 then
      [0xd807aa98, 0x12835b01, 0x243185be, 0x550c7dc3, 0x72be5d74, 0x80deb1fe, 0x9bdc06a7, 0xc19bf174]
    else if r == 2 then
      [0xe49b69c1, 0xefbe4786, 0x0fc19dc6, 0x240ca1cc, 0x2de92c6f, 0x4a7484aa, 0x5cb0a9dc, 0x76f988da]
    else if r == 3 then
      [0x983e5152, 0xa831c66d, 0xb00327c8, 0xbf597fc7, 0xc6e00bf3, 0xd5a79147, 0x06ca6351, 0x14292967]
    else if r == 4 then
      [0x27b70a85, 0x2e1b2138, 0x4d2c6dfc, 0x53380d13, 0x650a7354, 0x766a0abb, 0x81c2c92e, 0x92722c85]
    else if r == 5 then
      [0xa2bfe8a1, 0xa81a664b, 0xc24b8b70, 0xc76c51a3, 0xd192e819, 0xd6990624, 0xf40e3585, 0x106aa070]
    else if r == 6 then
      [0x19a4c116, 0x1e376c08, 0x2748774c, 0x34b0bcb5, 0x391c0cb3, 0x4ed8aa4a, 0x5b9cca4f, 0x682e6ff3]
    else
      [0x748f82ee, 0x78a5636f, 0x84c87814, 0x8cc70208, 0x90befffa, 0xa4506ceb, 0xbef9a3f7, 0xc67178f2]
  }

  function K(t: nat): Word
    requires t < 64
  {
    KRow(t / 8)[t % 8]
  }

  /** Section 3.2 */
  function Rotr(x: Word, n: bv6): Word
    requires 0 < n < 32
  {
    (x >> n) | (x << (32 - n))
  }

  /** Addition modulo 2^32, section 2.2.2 */
  function Plus(x: Word, y: Word): Word { x + y }

  function Plus4(x: Word, y: Word, z: Word, u: Word): Word { x + y + z + u }

  // Section 4.1.2
  function Ch(x: Word, y: Word, z: Word): Word { (x & y) ^ (!x & z) }
  function Maj(x: Word, y: Word, z: Word): Word { (x & y) ^ (x & z) ^ (y & z) }
  function BigSigma0(x: Word): Word { Rotr(x, 2) ^ Rotr(x, 13) ^ Rotr(x, 22) }
  function BigSigma1(x: Word): Word { Rotr(x, 6) ^ Rotr(x, 11) ^ Rotr(x, 25) }
  function SmallSigma0(x: Word): Word { Rotr(x, 7) ^ Rotr(x, 18) ^ (x >> 3) }
  function SmallSigma1(x: Word): Word { Rotr(x, 17) ^ Rotr(x, 19) ^ (x >> 10) }

  /** Section 5.2.1: the words of a block are read most significant byte first. */
  function WordOf(b0: Byte, b1: Byte, b2: Byte, b3: Byte): Word {
    ((b0 as Word) << 24) | ((b1 as Word) << 16) | ((b2 as Word) << 8) | (b3 as Word)
  }

  /** Section 6.2.2, step 1: the message schedule. */
  function Schedule(block: seq<Byte>, t: nat): Word
    requires |block| == 64 && t < 64
  {
    if t < 16 then WordOf(block[4 * t], block[4 * t + 1], block[4 * t + 2], block[4 * t + 3])
    else
      Plus4(SmallSigma1(Schedule(block, t - 2)), Schedule(block, t - 7),
            SmallSigma0(Schedule(block, t - 15)), Schedule(block, t - 16))
  }

  /** Section 6.2.2, step 3. */
  function Round(r: Regs, k: Word, w: Word): Regs {
    var t1 := Plus(Plus4(r.h, BigSigma1(r.e), Ch(r.e, r.f, r.g), k), w);
    var t2 := Plus(BigSigma0(r.a), Maj(r.a, r.b, r.c));
    Regs(Plus(t1, t2), r.a, r.b, r.c, Plus(r.d, t1), r.e, r.f, r.g)
  }

  function Rounds(hash: Regs, block: seq<Byte>, t: nat): Regs
    requires |block| == 64 && t <= 64
  {
    if t == 0 then hash else Round(Rounds(hash, block, t - 1), K(t - 1), Schedule(block, t - 1))
  }

  /** Section 6.2.2, step 4. */
  function Add(x: Regs, y: Regs): Regs {
    Regs(Plus(x.a, y.a), Plus(x.b, y.b), Plus(x.c, y.c), Plus(x.d, y.d),
         Plus(x.e, y.e), Plus(x.f, y.f), Plus(x.g, y.g), Plus(x.h, y.h))
  }

  function Compress(hash: Regs, block: seq<Byte>): Regs
    requires |block| == 64
  {
    Add(hash, Rounds(hash, block, 64))
  }

  /** Section 5.3.3 */
  function InitialHash(): Regs {
    Regs(0x6a09e667, 0xbb67ae85, 0x3c6ef372, 0xa54ff53a, 0x510e527f, 0x9b05688c, 0x1f83d9ab, 0x5be0cd19)
  }

  /** The hash after all blocks of `m`. */
  function Fold(m: seq<Byte>): Regs
    requires |m| % 64 == 0
  {
    if m == [] then InitialHash()
    else Compress(Fold(m[..|m| - 64]), m[|m| - 64..])
  }

  lemma FoldBlock(m: seq<Byte>, block: seq<Byte>)
    requires |m| % 64 == 0 && |block| == 64
    ensures Fold(m + block) == Compress(Fold(m), block)
  {
    hide Compress;
    var all := m + block;
    assert all[..|all| - 64] == m && all[|all| - 64..] == block;
  }

  // ---------------------------------------------------------------- padding

  const TWO_64: nat := 0x1_0000_0000_0000_0000

  function Zeros(k: nat): seq<Byte> { seq(k, _ => 0) }

  /** `n` as `k` bytes, most significant first. */
  function BigEndian(n: nat, k: nat): seq<Byte> {
    if k == 0 then [] else BigEndian(n / 256, k - 1) + [(n % 256) as Byte]
  }

  /** How many zero bytes the padding of an n-byte message has. */
  function PadZeros(n: nat): nat { (119 - n % 64) % 64 }

  /** Section 5.1.1, for whole bytes; the length is taken modulo 2^64. */
  function Pad(m: seq<Byte>): seq<Byte> {
    m + [0x80] + Zeros(PadZeros(|m|)) + BigEndian(8 * |m| % TWO_64, 8)
  }

  lemma {:induction false} BigEndianLength(n: nat, k: nat)
    ensures |BigEndian(n, k)| == k
  {
    if k > 0 { BigEndianLength(n / 256, k - 1); }
  }

  /** The number of zero bytes is the least that leaves room for exactly the length in the last block. */
  lemma PadIsLeast(n: nat, k: nat)
    ensures (n + 1 + PadZeros(n) + 8) % 64 == 0
    ensures (n + 1 + k + 8) % 64 == 0 ==> PadZeros(n) <= k
  {
  }

  lemma PadLength(m: seq<Byte>)
    ensures |Pad(m)| % 64 == 0
  {
    PadIsLeast(|m|, 0);
    BigEndianLength(8 * |m| % TWO_64, 8);
  }

  function Hash(m: seq<Byte>): Regs {
    PadLength(m);
    Fold(Pad(m))
  }

  /** The number that a byte string denotes, most significant byte first. */
  function Value(s: seq<Byte>): nat {
    if s == [] then 0 else 256 * Value(s[..|s| - 1]) + s[|s| - 1] as nat
  }

  function Pow256(k: nat): nat { if k == 0 then 1 else 256 * Pow256(k - 1) }

  /** Every number below 256 is the number of some byte. */
  lemma {:induction false} SomeByte(n: nat) returns (b: Byte)
    requires n < 256
    ensures b as nat == n
  {
    if n == 0 {
      b := 0;
    } else {
      var before := SomeByte(n - 1);
      b := before + 1;
    }
  }

  lemma CastBack(n: nat, b: Byte)
    requires n < 256 && b as nat == n
    ensures n as Byte == b
  {
  }

  lemma ByteOf(n: nat)
    requires n < 256
    ensures (n as Byte) as nat == n
  {
    var b := SomeByte(n);
    CastBack(n, b);
  }

  lemma ValueSnoc(init: seq<Byte>, b: Byte)
    ensures Value(init + [b]) == 256 * Value(init) + b as nat
  {
    assert (init + [b])[..|init|] == init;
  }

  lemma {:induction false} ValueOfBigEndian(n: nat, k: nat)
    requires n < Pow256(k)
    ensures Value(BigEndian(n, k)) == n
  {
    if k > 0 {
      hide Value;
      ValueOfBigEndian(n / 256, k - 1);
      ValueSnoc(BigEndian(n / 256, k - 1), (n % 256) as Byte);
      ByteOf(n % 256);
    }
  }

  lemma PadEnds(m: seq<Byte>)
    requires 8 * |m| < TWO_64 && |BigEndian(8 * |m|, 8)| == 8
    ensures |Pad(m)| >= |m| + 9 && Pad(m)[..|m|] == m
    ensures Pad(m)[|Pad(m)| - 8..] == BigEndian(8 * |m|, 8)
  {
    assert 8 * |m| % TWO_64 == 8 * |m|;
    hide BigEndian, Zeros, PadZeros;
    var zeros, len := Zeros(PadZeros(|m|)), BigEndian(8 * |m|, 8);
    Ends(m, [0x80], zeros, len);
    assert |Pad(m)| - 8 == |m + [0x80] + zeros|;
  }

  lemma Pow256Eight()
    ensures Pow256(8) == TWO_64
  {
    assert Pow256(4) == 0x1_0000_0000;
    assert Pow256(6) == 0x1_0000_0000_0000;
  }

  lemma PadReadsBack(m: seq<Byte>)
    requires 8 * |m| < TWO_64
    ensures |Pad(m)| >= |m| + 9 && Pad(m)[..|m|] == m
    ensures Value(Pad(m)[|Pad(m)| - 8..]) == 8 * |m|
  {
    BigEndianLength(8 * |m|, 8);
    Pow256Eight();
    ValueOfBigEndian(8 * |m|, 8);
    PadEnds(m);
  }

  /** Two messages under 2^61 bytes with the same padding are the same message. */
  lemma PadInjective(m: seq<Byte>, m': seq<Byte>)
    requires 8 * |m| < TWO_64 && 8 * |m'| < TWO_64 && Pad(m) == Pad(m')
    ensures m == m'
  {
    PadReadsBack(m);
    PadReadsBack(m');
    hide Pad, Value;
  }

  // ---------------------------------------------------------------- where the constants come from

  /** The first 64 primes, eight in a row. */
  function PrimeRow(r: nat): (row: seq<nat>)
    requires r < 8
    ensures |row| == 8
  {
    if r == 0 then [2, 3, 5, 7, 11, 13, 17, 19]
    else if r == 1 then [23, 29, 31, 37, 41, 43, 47, 53]
    else if r == 2 then [59, 61, 67, 71, 73, 79, 83, 89]
    else if r == 3 then [97, 101, 103, 107, 109, 113, 127, 131]
    else if r == 4 then [137, 139, 149, 151, 157, 163, 167, 173]
    else if r == 5 then [179, 181, 191, 193, 197, 199, 211, 223]
    else if r == 6 then [227, 229, 233, 239, 241, 251, 257, 263]
    else [269, 271, 277, 281, 283, 293, 307, 311]
  }

  /** The first 32 bits of the fractional part of the cube root of p are f, and w is its whole part. */
  predicate CubeRoot(p: nat, w: nat, f: Word) {
    var x := w * 0x1_0000_0000 + f as nat;
    x * x * x <= p * 0x1_0000_0000_0000_0000_0000_0000 < (x + 1) * (x + 1) * (x + 1)
  }

  /** Likewise for the square root. */
  predicate SquareRoot(p: nat, w: nat, f: Word) {
    var x := w * 0x1_0000_0000 + f as nat;
    x * x <= p * 0x1_0000_0000_0000_0000 < (x + 1) * (x + 1)
  }

  lemma Cubes0()
    ensures CubeRoot(PrimeRow(0)[0], 1, KRow(0)[0])
    ensures CubeRoot(PrimeRow(0)[1], 1, KRow(0)[1])
    ensures CubeRoot(PrimeRow(0)[2], 1, KRow(0)[2])
    ensures CubeRoot(PrimeRow(0)[3], 1, KRow(0)[3])
  {
  }

  lemma Cubes1()
    ensures CubeRoot(PrimeRow(0)[4], 2, KRow(0)[4])
    ensures CubeRoot(PrimeRow(0)[5], 2, KRow(0)[5])
    ensures CubeRoot(PrimeRow(0)[6], 2, KRow(0)[6])
    ensures CubeRoot(PrimeRow(0)[7], 2, KRow(0)[7])
  {
  }

  lemma Cubes2()
    ensures CubeRoot(PrimeRow(1)[0], 2, KRow(1)[0])
    ensures CubeRoot(PrimeRow(1)[1], 3, KRow(1)[1])
    ensures CubeRoot(PrimeRow(1)[2], 3, KRow(1)[2])
    ensures CubeRoot(PrimeRow(1)[3], 3, KRow(1)[3])
  {
  }

  lemma Cubes3()
    ensures CubeRoot(PrimeRow(1)[4], 3, KRow(1)[4])
    ensures CubeRoot(PrimeRow(1)[5], 3, KRow(1)[5])
    ensures CubeRoot(PrimeRow(1)[6], 3, KRow(1)[6])
    ensures CubeRoot(PrimeRow(1)[7], 3, KRow(1)[7])
  {
  }

  lemma Cubes4()
    ensures CubeRoot(PrimeRow(2)[0], 3, KRow(2)[0])
    ensures CubeRoot(PrimeRow(2)[1], 3, KRow(2)[1])
    ensures CubeRoot(PrimeRow(2)[2], 4, KRow(2)[2])
    ensures CubeRoot(PrimeRow(2)[3], 4, KRow(2)[3])
  {
  }

  lemma Cubes5()
    ensures CubeRoot(PrimeRow(2)[4], 4, KRow(2)[4])
    ensures CubeRoot(PrimeRow(2)[5], 4, KRow(2)[5])
    ensures CubeRoot(PrimeRow(2)[6], 4, KRow(2)[6])
    ensures CubeRoot(PrimeRow(2)[7], 4, KRow(2)[7])
  {
  }

  lemma Cubes6()
    ensures CubeRoot(PrimeRow(3)[0], 4, KRow(3)[0])
    ensures CubeRoot(PrimeRow(3)[1], 4, KRow(3)[1])
    ensures CubeRoot(PrimeRow(3)[2], 4, KRow(3)[2])
    ensures CubeRoot(PrimeRow(3)[3], 4, KRow(3)[3])
  {
  }

  lemma Cubes7()
    ensures CubeRoot(PrimeRow(3)[4], 4, KRow(3)[4])
    ensures CubeRoot(PrimeRow(3)[5], 4, KRow(3)[5])
    ensures CubeRoot(PrimeRow(3)[6], 5, KRow(3)[6])
    ensures CubeRoot(PrimeRow(3)[7], 5, KRow(3)[7])
  {
  }

  lemma Cubes8()
    ensures CubeRoot(PrimeRow(4)[0], 5, KRow(4)[0])
    ensures CubeRoot(PrimeRow(4)[1], 5, KRow(4)[1])
    ensures CubeRoot(PrimeRow(4)[2], 5, KRow(4)[2])
    ensures CubeRoot(PrimeRow(4)[3], 5, KRow(4)[3])
  {
  }

  lemma Cubes9()
    ensures CubeRoot(PrimeRow(4)[4], 5, KRow(4)[4])
    ensures CubeRoot(PrimeRow(4)[5], 5, KRow(4)[5])
    ensures CubeRoot(PrimeRow(4)[6], 5, KRow(4)[6])
    ensures CubeRoot(PrimeRow(4)[7], 5, KRow(4)[7])
  {
  }

  lemma Cubes10()
    ensures CubeRoot(PrimeRow(5)[0], 5, KRow(5)[0])
    ensures CubeRoot(PrimeRow(5)[1], 5, KRow(5)[1])
    ensures CubeRoot(PrimeRow(5)[2], 5, KRow(5)[2])
    ensures CubeRoot(PrimeRow(5)[3], 5, KRow(5)[3])
  {
  }

  lemma Cubes11()
    ensures CubeRoot(PrimeRow(5)[4], 5, KRow(5)[4])
    ensures CubeRoot(PrimeRow(5)[5], 5, KRow(5)[5])
    ensures CubeRoot(PrimeRow(5)[6], 5, KRow(5)[6])
    ensures CubeRoot(PrimeRow(5)[7], 6, KRow(5)[7])
  {
  }

  lemma Cubes12()
    ensures CubeRoot(PrimeRow(6)[0], 6, KRow(6)[0])
    ensures CubeRoot(PrimeRow(6)[1], 6, KRow(6)[1])
    ensures CubeRoot(PrimeRow(6)[2], 6, KRow(6)[2])
    ensures CubeRoot(PrimeRow(6)[3], 6, KRow(6)[3])
  {
  }

  lemma Cubes13()
    ensures CubeRoot(PrimeRow(6)[4], 6, KRow(6)[4])
    ensures CubeRoot(PrimeRow(6)[5], 6, KRow(6)[5])
    ensures CubeRoot(PrimeRow(6)[6], 6, KRow(6)[6])
    ensures CubeRoot(PrimeRow(6)[7], 6, KRow(6)[7])
  {
  }

  lemma Cubes14()
    ensures CubeRoot(PrimeRow(7)[0], 6, KRow(7)[0])
    ensures CubeRoot(PrimeRow(7)[1], 6, KRow(7)[1])
    ensures CubeRoot(PrimeRow(7)[2], 6, KRow(7)[2])
    ensures CubeRoot(PrimeRow(7)[3], 6, KRow(7)[3])
  {
  }

  lemma Cubes15()
    ensures CubeRoot(PrimeRow(7)[4], 6, KRow(7)[4])
    ensures CubeRoot(PrimeRow(7)[5], 6, KRow(7)[5])
    ensures CubeRoot(PrimeRow(7)[6], 6, KRow(7)[6])
    ensures CubeRoot(PrimeRow(7)[7], 6, KRow(7)[7])
  {
  }

  /** Section 4.2.2: the constants are the fractions of the cube roots of the first 64 primes. */
  lemma KFromPrimes(r: nat, i: nat)
    requires r < 8 && i < 8
    ensures exists w: nat :: CubeRoot(PrimeRow(r)[i], w, KRow(r)[i])
  {
    hide PrimeRow, KRow, CubeRoot;
    if r == 0 { if i < 4 { Cubes0(); } else { Cubes1(); } }
    if r == 1 { if i < 4 { Cubes2(); } else { Cubes3(); } }
    if r == 2 { if i < 4 { Cubes4(); } else { Cubes5(); } }
    if r == 3 { if i < 4 { Cubes6(); } else { Cubes7(); } }
    if r == 4 { if i < 4 { Cubes8(); } else { Cubes9(); } }
    if r == 5 { if i < 4 { Cubes10(); } else { Cubes11(); } }
    if r == 6 { if i < 4 { Cubes12(); } else { Cubes13(); } }
    if r == 7 { if i < 4 { Cubes14(); } else { Cubes15(); } }
  }

  /** Section 5.3.3: the initial hash value is the fractions of the square roots of the first eight. */
  lemma InitialFromPrimes()
    ensures var h := InitialHash();
            && SquareRoot(2, 1, h.a) && SquareRoot(3, 1, h.b)
            && SquareRoot(5, 2, h.c) && SquareRoot(7, 2, h.d)
            && SquareRoot(11, 3, h.e) && SquareRoot(13, 3, h.f)
            && SquareRoot(17, 4, h.g) && SquareRoot(19, 4, h.h)
  {
  }
}
