/** A known answer: the digest of "abc", as published with FIPS 180-4. */
module KnownDigest {
  import opened SeqFacts
  import opened Fips180
  import opened Sha256

  function Abc(): seq<Byte> { [0x61, 0x62, 0x63] }

  /** The one block of the padded message. */
  function Block(): (b: seq<Byte>)
    ensures |b| == 64
  {
    Abc() + [0x80] + Zeros(59) + [0x18]
  }

  lemma {:induction false} BigEndianIs(n: nat, k: nat)
    requires n == 0
    ensures BigEndian(n, k) == Zeros(k)
  {
    if k > 0 {
      BigEndianIs(n / 256, k - 1);
      assert (n % 256) as Byte == 0;
      assert Zeros(k) == Zeros(k - 1) + [0];
    }
  }

  lemma LengthOfAbc()
    ensures BigEndian(24, 8) == Zeros(7) + [0x18]
  {
    BigEndianIs(0, 7);
    var n: nat := 24;
    assert BigEndian(n, 8) == BigEndian(0, 7) + [24 as Byte];
  }

  lemma PadOfAbc()
    ensures Pad(Abc()) == Abc() + [0x80] + Zeros(52) + BigEndian(24, 8)
  {
    assert |Abc()| == 3 && PadZeros(3) == 52 && 8 * 3 % TWO_64 == 24;
    hide BigEndian, Zeros, Abc;
  }

  lemma ZerosAppend(a: nat, b: nat)
    ensures Zeros(a) + Zeros(b) == Zeros(a + b)
  {
  }

  lemma BlockIs()
    ensures Block() == Abc() + [0x80] + Zeros(59) + [0x18]
  {
  }

  lemma PaddedIsBlock()
    ensures Pad(Abc()) == Block()
  {
    PadOfAbc();
    LengthOfAbc();
    ZerosAppend(52, 7);
    BlockIs();
    hide *;
    var front := Abc() + [0x80];
    Assoc(front, Zeros(52), Zeros(7) + [0x18]);
    Assoc(Zeros(52), Zeros(7), [0x18]);
    Assoc(front, Zeros(59), [0x18]);
  }

  // ---------------------------------------------------------------- the message schedule

  function WordAt(t: nat): Word
    requires t < 64
  {
    Schedule(Block(), t)
  }

  lemma Expands(t: nat, a: Word, b: Word, c: Word, d: Word)
    requires 16 <= t < 64
    requires WordAt(t - 2) == a && WordAt(t - 7) == b && WordAt(t - 15) == c && WordAt(t - 16) == d
    ensures WordAt(t) == Plus4(SmallSigma1(a), b, SmallSigma0(c), d)
  {
    hide Plus4, SmallSigma0, SmallSigma1, WordOf, Block;
  }

  lemma Words0(t: nat)
    requires t == 0
    ensures WordAt(t + 0) == 0x61626380 && WordAt(t + 1) == 0x00000000 && WordAt(t + 2) == 0x00000000
    ensures WordAt(t + 3) == 0x00000000 && WordAt(t + 4) == 0x00000000 && WordAt(t + 5) == 0x00000000
    ensures WordAt(t + 6) == 0x00000000 && WordAt(t + 7) == 0x00000000
  {
  }

  lemma Words1(t: nat)
    requires t == 8
    ensures WordAt(t + 0) == 0x00000000 && WordAt(t + 1) == 0x00000000 && WordAt(t + 2) == 0x00000000
    ensures WordAt(t + 3) == 0x00000000 && WordAt(t + 4) == 0x00000000 && WordAt(t + 5) == 0x00000000
    ensures WordAt(t + 6) == 0x00000000 && WordAt(t + 7) == 0x00000018
  {
  }

  lemma Words2(t: nat)
    requires t == 16
    ensures WordAt(t + 0) == 0x61626380 && WordAt(t + 1) == 0x000f0000 && WordAt(t + 2) == 0x7da86405
    ensures WordAt(t + 3) == 0x600003c6 && WordAt(t + 4) == 0x3e9d7b78 && WordAt(t + 5) == 0x0183fc00
    ensures WordAt(t + 6) == 0x12dcbfdb && WordAt(t + 7) == 0xe2e2c38e
  {
    hide WordAt;
    Words0(t - 16);
    Words1(t - 8);
    Expands(t + 0, 0x00000000, 0x00000000, 0x00000000, 0x61626380);
    Expands(t + 1, 0x00000018, 0x00000000, 0x00000000, 0x00000000);
    Expands(t + 2, 0x61626380, 0x00000000, 0x00000000, 0x00000000);
    Expands(t + 3, 0x000f0000, 0x00000000, 0x00000000, 0x00000000);
    Expands(t + 4, 0x7da86405, 0x00000000, 0x00000000, 0x00000000);
    Expands(t + 5, 0x600003c6, 0x00000000, 0x00000000, 0x00000000);
    Expands(t + 6, 0x3e9d7b78, 0x00000018, 0x00000000, 0x00000000);
    Expands(t + 7, 0x0183fc00, 0x61626380, 0x00000000, 0x00000000);
  }

  lemma Words3(t: nat)
    requires t == 24
    ensures WordAt(t + 0) == 0xc8215c1a && WordAt(t + 1) == 0xb73679a2 && WordAt(t + 2) == 0xe5bc3909
    ensures WordAt(t + 3) == 0x32663c5b && WordAt(t + 4) == 0x9d209d67 && WordAt(t + 5) == 0xec8726cb
    ensures WordAt(t + 6) == 0x702138a4 && WordAt(t + 7) == 0xd3b7973b
  {
    hide WordAt;
    Words1(t - 16);
    Words2(t - 8);
    Expands(t + 0, 0x12dcbfdb, 0x000f0000, 0x00000000, 0x00000000);
    Expands(t + 1, 0xe2e2c38e, 0x7da86405, 0x00000000, 0x00000000);
    Expands(t + 2, 0xc8215c1a, 0x600003c6, 0x00000000, 0x00000000);
    Expands(t + 3, 0xb73679a2, 0x3e9d7b78, 0x00000000, 0x00000000);
    Expands(t + 4, 0xe5bc3909, 0x0183fc00, 0x00000000, 0x00000000);
    Expands(t + 5, 0x32663c5b, 0x12dcbfdb, 0x00000000, 0x00000000);
    Expands(t + 6, 0x9d209d67, 0xe2e2c38e, 0x00000018, 0x00000000);
    Expands(t + 7, 0xec8726cb, 0xc8215c1a, 0x61626380, 0x00000018);
  }

  lemma Words4(t: nat)
    requires t == 32
    ensures WordAt(t + 0) == 0x93f5997f && WordAt(t + 1) == 0x3b68ba73 && WordAt(t + 2) == 0xaff4ffc1
    ensures WordAt(t + 3) == 0xf10a5c62 && WordAt(t + 4) == 0x0a8b3996 && WordAt(t + 5) == 0x72af830a
    ensures WordAt(t + 6) == 0x9409e33e && WordAt(t + 7) == 0x24641522
  {
    hide WordAt;
    Words2(t - 16);
    Words3(t - 8);
    Expands(t + 0, 0x702138a4, 0xb73679a2, 0x000f0000, 0x61626380);
    Expands(t + 1, 0xd3b7973b, 0xe5bc3909, 0x7da86405, 0x000f0000);
    Expands(t + 2, 0x93f5997f, 0x32663c5b, 0x600003c6, 0x7da86405);
    Expands(t + 3, 0x3b68ba73, 0x9d209d67, 0x3e9d7b78, 0x600003c6);
    Expands(t + 4, 0xaff4ffc1, 0xec8726cb, 0x0183fc00, 0x3e9d7b78);
    Expands(t + 5, 0xf10a5c62, 0x702138a4, 0x12dcbfdb, 0x0183fc00);
    Expands(t + 6, 0x0a8b3996, 0xd3b7973b, 0xe2e2c38e, 0x12dcbfdb);
    Expands(t + 7, 0x72af830a, 0x93f5997f, 0xc8215c1a, 0xe2e2c38e);
  }

  lemma Words5(t: nat)
    requires t == 40
    ensures WordAt(t + 0) == 0x9f47bf94 && WordAt(t + 1) == 0xf0a64f5a && WordAt(t + 2) == 0x3e246a79
    ensures WordAt(t + 3) == 0x27333ba3 && WordAt(t + 4) == 0x0c4763f2 && WordAt(t + 5) == 0x840abf27
    ensures WordAt(t + 6) == 0x7a290d5d && WordAt(t + 7) == 0x065c43da
  {
    hide WordAt;
    Words3(t - 16);
    Words4(t - 8);
    Expands(t + 0, 0x9409e33e, 0x3b68ba73, 0xb73679a2, 0xc8215c1a);
    Expands(t + 1, 0x24641522, 0xaff4ffc1, 0xe5bc3909, 0xb73679a2);
    Expands(t + 2, 0x9f47bf94, 0xf10a5c62, 0x32663c5b, 0xe5bc3909);
    Expands(t + 3, 0xf0a64f5a, 0x0a8b3996, 0x9d209d67, 0x32663c5b);
    Expands(t + 4, 0x3e246a79, 0x72af830a, 0xec8726cb, 0x9d209d67);
    Expands(t + 5, 0x27333ba3, 0x9409e33e, 0x702138a4, 0xec8726cb);
    Expands(t + 6, 0x0c4763f2, 0x24641522, 0xd3b7973b, 0x702138a4);
    Expands(t + 7, 0x840abf27, 0x9f47bf94, 0x93f5997f, 0xd3b7973b);
  }

  lemma Words6(t: nat)
    requires t == 48
    ensures WordAt(t + 0) == 0xfb3e89cb && WordAt(t + 1) == 0xcc7617db && WordAt(t + 2) == 0xb9e66c34
    ensures WordAt(t + 3) == 0xa9993667 && WordAt(t + 4) == 0x84badedd && WordAt(t + 5) == 0xc21462bc
    ensures WordAt(t + 6) == 0x1487472c && WordAt(t + 7) == 0xb20f7a99
  {
    hide WordAt;
    Words4(t - 16);
    Words5(t - 8);
    Expands(t + 0, 0x7a290d5d, 0xf0a64f5a, 0x3b68ba73, 0x93f5997f);
    Expands(t + 1, 0x065c43da, 0x3e246a79, 0xaff4ffc1, 0x3b68ba73);
    Expands(t + 2, 0xfb3e89cb, 0x27333ba3, 0xf10a5c62, 0xaff4ffc1);
    Expands(t + 3, 0xcc7617db, 0x0c4763f2, 0x0a8b3996, 0xf10a5c62);
    Expands(t + 4, 0xb9e66c34, 0x840abf27, 0x72af830a, 0x0a8b3996);
    Expands(t + 5, 0xa9993667, 0x7a290d5d, 0x9409e33e, 0x72af830a);
    Expands(t + 6, 0x84badedd, 0x065c43da, 0x24641522, 0x9409e33e);
    Expands(t + 7, 0xc21462bc, 0xfb3e89cb, 0x9f47bf94, 0x24641522);
  }

  lemma Words7(t: nat)
    requires t == 56
    ensures WordAt(t + 0) == 0xef57b9cd && WordAt(t + 1) == 0xebe6b238 && WordAt(t + 2) == 0x9fe3095e
    ensures WordAt(t + 3) == 0x78bc8d4b && WordAt(t + 4) == 0xa43fcf15 && WordAt(t + 5) == 0x668b2ff8
    ensures WordAt(t + 6) == 0xeeaba2cc && WordAt(t + 7) == 0x12b1edeb
  {
    hide WordAt;
    Words5(t - 16);
    Words6(t - 8);
    Expands(t + 0, 0x1487472c, 0xcc7617db, 0xf0a64f5a, 0x9f47bf94);
    Expands(t + 1, 0xb20f7a99, 0xb9e66c34, 0x3e246a79, 0xf0a64f5a);
    Expands(t + 2, 0xef57b9cd, 0xa9993667, 0x27333ba3, 0x3e246a79);
    Expands(t + 3, 0xebe6b238, 0x84badedd, 0x0c4763f2, 0x27333ba3);
    Expands(t + 4, 0x9fe3095e, 0xc21462bc, 0x840abf27, 0x0c4763f2);
    Expands(t + 5, 0x78bc8d4b, 0x1487472c, 0x7a290d5d, 0x840abf27);
    Expands(t + 6, 0xa43fcf15, 0xb20f7a99, 0x065c43da, 0x7a290d5d);
    Expands(t + 7, 0x668b2ff8, 0xef57b9cd, 0xfb3e89cb, 0x065c43da);
  }

  // ---------------------------------------------------------------- the rounds

  function After(t: nat): Regs
    requires t <= 64
  {
    Rounds(InitialHash(), Block(), t)
  }

  lemma OneRound(t: nat)
    requires t < 64
    ensures After(t + 1) == Round(After(t), K(t), WordAt(t))
  {
    hide Round, Block, Schedule, K;
  }

  lemma InitialIs()
    ensures InitialHash() == Regs(0x6a09e667, 0xbb67ae85, 0x3c6ef372, 0xa54ff53a,
                                 0x510e527f, 0x9b05688c, 0x1f83d9ab, 0x5be0cd19)
  {
  }

  lemma Constants0(t: nat)
    requires t == 0
    ensures K(t + 0) == 0x428a2f98 && K(t + 1) == 0x71374491 && K(t + 2) == 0xb5c0fbcf && K(t + 3) == 0xe9b5dba5
    ensures K(t + 4) == 0x3956c25b && K(t + 5) == 0x59f111f1 && K(t + 6) == 0x923f82a4 && K(t + 7) == 0xab1c5ed5
  {
  }

  lemma Turns0()
    ensures Round(Regs(0x6a09e667, 0xbb67ae85, 0x3c6ef372, 0xa54ff53a, 0x510e527f, 0x9b05688c, 0x1f83d9ab, 0x5be0cd19),
                  0x428a2f98, 0x61626380)
            == Regs(0x5d6aebcd, 0x6a09e667, 0xbb67ae85, 0x3c6ef372, 0xfa2a4622, 0x510e527f, 0x9b05688c, 0x1f83d9ab)
    ensures Round(Regs(0x5d6aebcd, 0x6a09e667, 0xbb67ae85, 0x3c6ef372, 0xfa2a4622, 0x510e527f, 0x9b05688c, 0x1f83d9ab),
                  0x71374491, 0x00000000)
            == Regs(0x5a6ad9ad, 0x5d6aebcd, 0x6a09e667, 0xbb67ae85, 0x78ce7989, 0xfa2a4622, 0x510e527f, 0x9b05688c)
    ensures Round(Regs(0x5a6ad9ad, 0x5d6aebcd, 0x6a09e667, 0xbb67ae85, 0x78ce7989, 0xfa2a4622, 0x510e527f, 0x9b05688c),
                  0xb5c0fbcf, 0x00000000)
            == Regs(0xc8c347a7, 0x5a6ad9ad, 0x5d6aebcd, 0x6a09e667, 0xf92939eb, 0x78ce7989, 0xfa2a4622, 0x510e527f)
    ensures Round(Regs(0xc8c347a7, 0x5a6ad9ad, 0x5d6aebcd, 0x6a09e667, 0xf92939eb, 0x78ce7989, 0xfa2a4622, 0x510e527f),
                  0xe9b5dba5, 0x00000000)
            == Regs(0xd550f666, 0xc8c347a7, 0x5a6ad9ad, 0x5d6aebcd, 0x24e00850, 0xf92939eb, 0x78ce7989, 0xfa2a4622)
    ensures Round(Regs(0xd550f666, 0xc8c347a7, 0x5a6ad9ad, 0x5d6aebcd, 0x24e00850, 0xf92939eb, 0x78ce7989, 0xfa2a4622),
                  0x3956c25b, 0x00000000)
            == Regs(0x04409a6a, 0xd550f666, 0xc8c347a7, 0x5a6ad9ad, 0x43ada245, 0x24e00850, 0xf92939eb, 0x78ce7989)
    ensures Round(Regs(0x04409a6a, 0xd550f666, 0xc8c347a7, 0x5a6ad9ad, 0x43ada245, 0x24e00850, 0xf92939eb, 0x78ce7989),
                  0x59f111f1, 0x00000000)
            == Regs(0x2b4209f5, 0x04409a6a, 0xd550f666, 0xc8c347a7, 0x714260ad, 0x43ada245, 0x24e00850, 0xf92939eb)
    ensures Round(Regs(0x2b4209f5, 0x04409a6a, 0xd550f666, 0xc8c347a7, 0x714260ad, 0x43ada245, 0x24e00850, 0xf92939eb),
                  0x923f82a4, 0x00000000)
            == Regs(0xe5030380, 0x2b4209f5, 0x04409a6a, 0xd550f666, 0x9b27a401, 0x714260ad, 0x43ada245, 0x24e00850)
    ensures Round(Regs(0xe5030380, 0x2b4209f5, 0x04409a6a, 0xd550f666, 0x9b27a401, 0x714260ad, 0x43ada245, 0x24e00850),
                  0xab1c5ed5, 0x00000000)
            == Regs(0x85a07b5f, 0xe5030380, 0x2b4209f5, 0x04409a6a, 0x0c657a79, 0x9b27a401, 0x714260ad, 0x43ada245)
  {
  }

  lemma Rounds0(t: nat)
    requires t == 0
    ensures After(t + 8) == Regs(0x85a07b5f, 0xe5030380, 0x2b4209f5, 0x04409a6a,
                                0x0c657a79, 0x9b27a401, 0x714260ad, 0x43ada245)
  {
    assert After(t) == InitialHash();
    hide *;
    InitialIs();
    Words0(t);
    Constants0(t);
    Turns0();
    OneRound(t + 0);
    OneRound(t + 1);
    OneRound(t + 2);
    OneRound(t + 3);
    OneRound(t + 4);
    OneRound(t + 5);
    OneRound(t + 6);
    OneRound(t + 7);
  }

  lemma Constants1(t: nat)
    requires t == 8
    ensures K(t + 0) == 0xd807aa98 && K(t + 1) == 0x12835b01 && K(t + 2) == 0x243185be && K(t + 3) == 0x550c7dc3
    ensures K(t + 4) == 0x72be5d74 && K(t + 5) == 0x80deb1fe && K(t + 6) == 0x9bdc06a7 && K(t + 7) == 0xc19bf174
  {
  }

  lemma Turns1()
    ensures Round(Regs(0x85a07b5f, 0xe5030380, 0x2b4209f5, 0x04409a6a, 0x0c657a79, 0x9b27a401, 0x714260ad, 0x43ada245),
                  0xd807aa98, 0x00000000)
            == Regs(0x8e04ecb9, 0x85a07b5f, 0xe5030380, 0x2b4209f5, 0x32ca2d8c, 0x0c657a79, 0x9b27a401, 0x714260ad)
    ensures Round(Regs(0x8e04ecb9, 0x85a07b5f, 0xe5030380, 0x2b4209f5, 0x32ca2d8c, 0x0c657a79, 0x9b27a401, 0x714260ad),
                  0x12835b01, 0x00000000)
            == Regs(0x8c87346b, 0x8e04ecb9, 0x85a07b5f, 0xe5030380, 0x1cc92596, 0x32ca2d8c, 0x0c657a79, 0x9b27a401)
    ensures Round(Regs(0x8c87346b, 0x8e04ecb9, 0x85a07b5f, 0xe5030380, 0x1cc92596, 0x32ca2d8c, 0x0c657a79, 0x9b27a401),
                  0x243185be, 0x00000000)
            == Regs(0x4798a3f4, 0x8c87346b, 0x8e04ecb9, 0x85a07b5f, 0x436b23e8, 0x1cc92596, 0x32ca2d8c, 0x0c657a79)
    ensures Round(Regs(0x4798a3f4, 0x8c87346b, 0x8e04ecb9, 0x85a07b5f, 0x436b23e8, 0x1cc92596, 0x32ca2d8c, 0x0c657a79),
                  0x550c7dc3, 0x00000000)
            == Regs(0xf71fc5a9, 0x4798a3f4, 0x8c87346b, 0x8e04ecb9, 0x816fd6e9, 0x436b23e8, 0x1cc92596, 0x32ca2d8c)
    ensures Round(Regs(0xf71fc5a9, 0x4798a3f4, 0x8c87346b, 0x8e04ecb9, 0x816fd6e9, 0x436b23e8, 0x1cc92596, 0x32ca2d8c),
                  0x72be5d74, 0x00000000)
            == Regs(0x87912990, 0xf71fc5a9, 0x4798a3f4, 0x8c87346b, 0x1e578218, 0x816fd6e9, 0x436b23e8, 0x1cc92596)
    ensures Round(Regs(0x87912990, 0xf71fc5a9, 0x4798a3f4, 0x8c87346b, 0x1e578218, 0x816fd6e9, 0x436b23e8, 0x1cc92596),
                  0x80deb1fe, 0x00000000)
            == Regs(0xd932eb16, 0x87912990, 0xf71fc5a9, 0x4798a3f4, 0x745a48de, 0x1e578218, 0x816fd6e9, 0x436b23e8)
    ensures Round(Regs(0xd932eb16, 0x87912990, 0xf71fc5a9, 0x4798a3f4, 0x745a48de, 0x1e578218, 0x816fd6e9, 0x436b23e8),
                  0x9bdc06a7, 0x00000000)
            == Regs(0xc0645fde, 0xd932eb16, 0x87912990, 0xf71fc5a9, 0x0b92f20c, 0x745a48de, 0x1e578218, 0x816fd6e9)
    ensures Round(Regs(0xc0645fde, 0xd932eb16, 0x87912990, 0xf71fc5a9, 0x0b92f20c, 0x745a48de, 0x1e578218, 0x816fd6e9),
                  0xc19bf174, 0x00000018)
            == Regs(0xb0fa238e, 0xc0645fde, 0xd932eb16, 0x87912990, 0x07590dcd, 0x0b92f20c, 0x745a48de, 0x1e578218)
  {
  }

  lemma Rounds1(t: nat)
    requires t == 8
    ensures After(t + 8) == Regs(0xb0fa238e, 0xc0645fde, 0xd932eb16, 0x87912990,
                                0x07590dcd, 0x0b92f20c, 0x745a48de, 0x1e578218)
  {
    hide *;
    Rounds0(t - 8);
    Words1(t);
    Constants1(t);
    Turns1();
    OneRound(t + 0);
    OneRound(t + 1);
    OneRound(t + 2);
    OneRound(t + 3);
    OneRound(t + 4);
    OneRound(t + 5);
    OneRound(t + 6);
    OneRound(t + 7);
  }

  lemma Constants2(t: nat)
    requires t == 16
    ensures K(t + 0) == 0xe49b69c1 && K(t + 1) == 0xefbe4786 && K(t + 2) == 0x0fc19dc6 && K(t + 3) == 0x240ca1cc
    ensures K(t + 4) == 0x2de92c6f && K(t + 5) == 0x4a7484aa && K(t + 6) == 0x5cb0a9dc && K(t + 7) == 0x76f988da
  {
  }

  lemma Turns2()
    ensures Round(Regs(0xb0fa238e, 0xc0645fde, 0xd932eb16, 0x87912990, 0x07590dcd, 0x0b92f20c, 0x745a48de, 0x1e578218),
                  0xe49b69c1, 0x61626380)
            == Regs(0x21da9a9b, 0xb0fa238e, 0xc0645fde, 0xd932eb16, 0x8034229c, 0x07590dcd, 0x0b92f20c, 0x745a48de)
    ensures Round(Regs(0x21da9a9b, 0xb0fa238e, 0xc0645fde, 0xd932eb16, 0x8034229c, 0x07590dcd, 0x0b92f20c, 0x745a48de),
                  0xefbe4786, 0x000f0000)
            == Regs(0xc2fbd9d1, 0x21da9a9b, 0xb0fa238e, 0xc0645fde, 0x846ee454, 0x8034229c, 0x07590dcd, 0x0b92f20c)
    ensures Round(Regs(0xc2fbd9d1, 0x21da9a9b, 0xb0fa238e, 0xc0645fde, 0x846ee454, 0x8034229c, 0x07590dcd, 0x0b92f20c),
                  0x0fc19dc6, 0x7da86405)
            == Regs(0xfe777bbf, 0xc2fbd9d1, 0x21da9a9b, 0xb0fa238e, 0xcc899961, 0x846ee454, 0x8034229c, 0x07590dcd)
    ensures Round(Regs(0xfe777bbf, 0xc2fbd9d1, 0x21da9a9b, 0xb0fa238e, 0xcc899961, 0x846ee454, 0x8034229c, 0x07590dcd),
                  0x240ca1cc, 0x600003c6)
            == Regs(0xe1f20c33, 0xfe777bbf, 0xc2fbd9d1, 0x21da9a9b, 0xb0638179, 0xcc899961, 0x846ee454, 0x8034229c)
    ensures Round(Regs(0xe1f20c33, 0xfe777bbf, 0xc2fbd9d1, 0x21da9a9b, 0xb0638179, 0xcc899961, 0x846ee454, 0x8034229c),
                  0x2de92c6f, 0x3e9d7b78)
            == Regs(0x9dc68b63, 0xe1f20c33, 0xfe777bbf, 0xc2fbd9d1, 0x8ada8930, 0xb0638179, 0xcc899961, 0x846ee454)
    ensures Round(Regs(0x9dc68b63, 0xe1f20c33, 0xfe777bbf, 0xc2fbd9d1, 0x8ada8930, 0xb0638179, 0xcc899961, 0x846ee454),
                  0x4a7484aa, 0x0183fc00)
            == Regs(0xc2606d6d, 0x9dc68b63, 0xe1f20c33, 0xfe777bbf, 0xe1257970, 0x8ada8930, 0xb0638179, 0xcc899961)
    ensures Round(Regs(0xc2606d6d, 0x9dc68b63, 0xe1f20c33, 0xfe777bbf, 0xe1257970, 0x8ada8930, 0xb0638179, 0xcc899961),
                  0x5cb0a9dc, 0x12dcbfdb)
            == Regs(0xa7a3623f, 0xc2606d6d, 0x9dc68b63, 0xe1f20c33, 0x49f5114a, 0xe1257970, 0x8ada8930, 0xb0638179)
    ensures Round(Regs(0xa7a3623f, 0xc2606d6d, 0x9dc68b63, 0xe1f20c33, 0x49f5114a, 0xe1257970, 0x8ada8930, 0xb0638179),
                  0x76f988da, 0xe2e2c38e)
            == Regs(0xc5d53d8d, 0xa7a3623f, 0xc2606d6d, 0x9dc68b63, 0xaa47c347, 0x49f5114a, 0xe1257970, 0x8ada8930)
  {
  }

  lemma Rounds2(t: nat)
    requires t == 16
    ensures After(t + 8) == Regs(0xc5d53d8d, 0xa7a3623f, 0xc2606d6d, 0x9dc68b63,
                                0xaa47c347, 0x49f5114a, 0xe1257970, 0x8ada8930)
  {
    hide *;
    Rounds1(t - 8);
    Words2(t);
    Constants2(t);
    Turns2();
    OneRound(t + 0);
    OneRound(t + 1);
    OneRound(t + 2);
    OneRound(t + 3);
    OneRound(t + 4);
    OneRound(t + 5);
    OneRound(t + 6);
    OneRound(t + 7);
  }

  lemma Constants3(t: nat)
    requires t == 24
    ensures K(t + 0) == 0x983e5152 && K(t + 1) == 0xa831c66d && K(t + 2) == 0xb00327c8 && K(t + 3) == 0xbf597fc7
    ensures K(t + 4) == 0xc6e00bf3 && K(t + 5) == 0xd5a79147 && K(t + 6) == 0x06ca6351 && K(t + 7) == 0x14292967
  {
  }

  lemma Turns3()
    ensures Round(Regs(0xc5d53d8d, 0xa7a3623f, 0xc2606d6d, 0x9dc68b63, 0xaa47c347, 0x49f5114a, 0xe1257970, 0x8ada8930),
                  0x983e5152, 0xc8215c1a)
            == Regs(0x1c2c2838, 0xc5d53d8d, 0xa7a3623f, 0xc2606d6d, 0x2823ef91, 0xaa47c347, 0x49f5114a, 0xe1257970)
    ensures Round(Regs(0x1c2c2838, 0xc5d53d8d, 0xa7a3623f, 0xc2606d6d, 0x2823ef91, 0xaa47c347, 0x49f5114a, 0xe1257970),
                  0xa831c66d, 0xb73679a2)
            == Regs(0xcde8037d, 0x1c2c2838, 0xc5d53d8d, 0xa7a3623f, 0x14383d8e, 0x2823ef91, 0xaa47c347, 0x49f5114a)
    ensures Round(Regs(0xcde8037d, 0x1c2c2838, 0xc5d53d8d, 0xa7a3623f, 0x14383d8e, 0x2823ef91, 0xaa47c347, 0x49f5114a),
                  0xb00327c8, 0xe5bc3909)
            == Regs(0xb62ec4bc, 0xcde8037d, 0x1c2c2838, 0xc5d53d8d, 0xc74c6516, 0x14383d8e, 0x2823ef91, 0xaa47c347)
    ensures Round(Regs(0xb62ec4bc, 0xcde8037d, 0x1c2c2838, 0xc5d53d8d, 0xc74c6516, 0x14383d8e, 0x2823ef91, 0xaa47c347),
                  0xbf597fc7, 0x32663c5b)
            == Regs(0x77d37528, 0xb62ec4bc, 0xcde8037d, 0x1c2c2838, 0xedffbff8, 0xc74c6516, 0x14383d8e, 0x2823ef91)
    ensures Round(Regs(0x77d37528, 0xb62ec4bc, 0xcde8037d, 0x1c2c2838, 0xedffbff8, 0xc74c6516, 0x14383d8e, 0x2823ef91),
                  0xc6e00bf3, 0x9d209d67)
            == Regs(0x363482c9, 0x77d37528, 0xb62ec4bc, 0xcde8037d, 0x6112a3b7, 0xedffbff8, 0xc74c6516, 0x14383d8e)
    ensures Round(Regs(0x363482c9, 0x77d37528, 0xb62ec4bc, 0xcde8037d, 0x6112a3b7, 0xedffbff8, 0xc74c6516, 0x14383d8e),
                  0xd5a79147, 0xec8726cb)
            == Regs(0xa0060b30, 0x363482c9, 0x77d37528, 0xb62ec4bc, 0xade79437, 0x6112a3b7, 0xedffbff8, 0xc74c6516)
    ensures Round(Regs(0xa0060b30, 0x363482c9, 0x77d37528, 0xb62ec4bc, 0xade79437, 0x6112a3b7, 0xedffbff8, 0xc74c6516),
                  0x06ca6351, 0x702138a4)
            == Regs(0xea992a22, 0xa0060b30, 0x363482c9, 0x77d37528, 0x0109ab3a, 0xade79437, 0x6112a3b7, 0xedffbff8)
    ensures Round(Regs(0xea992a22, 0xa0060b30, 0x363482c9, 0x77d37528, 0x0109ab3a, 0xade79437, 0x6112a3b7, 0xedffbff8),
                  0x14292967, 0xd3b7973b)
            == Regs(0x73b33bf5, 0xea992a22, 0xa0060b30, 0x363482c9, 0xba591112, 0x0109ab3a, 0xade79437, 0x6112a3b7)
  {
  }

  lemma Rounds3(t: nat)
    requires t == 24
    ensures After(t + 8) == Regs(0x73b33bf5, 0xea992a22, 0xa0060b30, 0x363482c9,
                                0xba591112, 0x0109ab3a, 0xade79437, 0x6112a3b7)
  {
    hide *;
    Rounds2(t - 8);
    Words3(t);
    Constants3(t);
    Turns3();
    OneRound(t + 0);
    OneRound(t + 1);
    OneRound(t + 2);
    OneRound(t + 3);
    OneRound(t + 4);
    OneRound(t + 5);
    OneRound(t + 6);
    OneRound(t + 7);
  }

  lemma Constants4(t: nat)
    requires t == 32
    ensures K(t + 0) == 0x27b70a85 && K(t + 1) == 0x2e1b2138 && K(t + 2) == 0x4d2c6dfc && K(t + 3) == 0x53380d13
    ensures K(t + 4) == 0x650a7354 && K(t + 5) == 0x766a0abb && K(t + 6) == 0x81c2c92e && K(t + 7) == 0x92722c85
  {
  }

  lemma Turns4()
    ensures Round(Regs(0x73b33bf5, 0xea992a22, 0xa0060b30, 0x363482c9, 0xba591112, 0x0109ab3a, 0xade79437, 0x6112a3b7),
                  0x27b70a85, 0x93f5997f)
            == Regs(0x98e12507, 0x73b33bf5, 0xea992a22, 0xa0060b30, 0x9cd9f5f6, 0xba591112, 0x0109ab3a, 0xade79437)
    ensures Round(Regs(0x98e12507, 0x73b33bf5, 0xea992a22, 0xa0060b30, 0x9cd9f5f6, 0xba591112, 0x0109ab3a, 0xade79437),
                  0x2e1b2138, 0x3b68ba73)
            == Regs(0xfe604df5, 0x98e12507, 0x73b33bf5, 0xea992a22, 0x59249dd3, 0x9cd9f5f6, 0xba591112, 0x0109ab3a)
    ensures Round(Regs(0xfe604df5, 0x98e12507, 0x73b33bf5, 0xea992a22, 0x59249dd3, 0x9cd9f5f6, 0xba591112, 0x0109ab3a),
                  0x4d2c6dfc, 0xaff4ffc1)
            == Regs(0xa9a7738c, 0xfe604df5, 0x98e12507, 0x73b33bf5, 0x085f3833, 0x59249dd3, 0x9cd9f5f6, 0xba591112)
    ensures Round(Regs(0xa9a7738c, 0xfe604df5, 0x98e12507, 0x73b33bf5, 0x085f3833, 0x59249dd3, 0x9cd9f5f6, 0xba591112),
                  0x53380d13, 0xf10a5c62)
            == Regs(0x65a0cfe4, 0xa9a7738c, 0xfe604df5, 0x98e12507, 0xf4b002d6, 0x085f3833, 0x59249dd3, 0x9cd9f5f6)
    ensures Round(Regs(0x65a0cfe4, 0xa9a7738c, 0xfe604df5, 0x98e12507, 0xf4b002d6, 0x085f3833, 0x59249dd3, 0x9cd9f5f6),
                  0x650a7354, 0x0a8b3996)
            == Regs(0x41a65cb1, 0x65a0cfe4, 0xa9a7738c, 0xfe604df5, 0x0772a26b, 0xf4b002d6, 0x085f3833, 0x59249dd3)
    ensures Round(Regs(0x41a65cb1, 0x65a0cfe4, 0xa9a7738c, 0xfe604df5, 0x0772a26b, 0xf4b002d6, 0x085f3833, 0x59249dd3),
                  0x766a0abb, 0x72af830a)
            == Regs(0x34df1604, 0x41a65cb1, 0x65a0cfe4, 0xa9a7738c, 0xa507a53d, 0x0772a26b, 0xf4b002d6, 0x085f3833)
    ensures Round(Regs(0x34df1604, 0x41a65cb1, 0x65a0cfe4, 0xa9a7738c, 0xa507a53d, 0x0772a26b, 0xf4b002d6, 0x085f3833),
                  0x81c2c92e, 0x9409e33e)
            == Regs(0x6dc57a8a, 0x34df1604, 0x41a65cb1, 0x65a0cfe4, 0xf0781bc8, 0xa507a53d, 0x0772a26b, 0xf4b002d6)
    ensures Round(Regs(0x6dc57a8a, 0x34df1604, 0x41a65cb1, 0x65a0cfe4, 0xf0781bc8, 0xa507a53d, 0x0772a26b, 0xf4b002d6),
                  0x92722c85, 0x24641522)
            == Regs(0x79ea687a, 0x6dc57a8a, 0x34df1604, 0x41a65cb1, 0x1efbc0a0, 0xf0781bc8, 0xa507a53d, 0x0772a26b)
  {
  }

  lemma Rounds4(t: nat)
    requires t == 32
    ensures After(t + 8) == Regs(0x79ea687a, 0x6dc57a8a, 0x34df1604, 0x41a65cb1,
                                0x1efbc0a0, 0xf0781bc8, 0xa507a53d, 0x0772a26b)
  {
    hide *;
    Rounds3(t - 8);
    Words4(t);
    Constants4(t);
    Turns4();
    OneRound(t + 0);
    OneRound(t + 1);
    OneRound(t + 2);
    OneRound(t + 3);
    OneRound(t + 4);
    OneRound(t + 5);
    OneRound(t + 6);
    OneRound(t + 7);
  }

  lemma Constants5(t: nat)
    requires t == 40
    ensures K(t + 0) == 0xa2bfe8a1 && K(t + 1) == 0xa81a664b && K(t + 2) == 0xc24b8b70 && K(t + 3) == 0xc76c51a3
    ensures K(t + 4) == 0xd192e819 && K(t + 5) == 0xd6990624 && K(t + 6) == 0xf40e3585 && K(t + 7) == 0x106aa070
  {
  }

  lemma Turns5()
    ensures Round(Regs(0x79ea687a, 0x6dc57a8a, 0x34df1604, 0x41a65cb1, 0x1efbc0a0, 0xf0781bc8, 0xa507a53d, 0x0772a26b),
                  0xa2bfe8a1, 0x9f47bf94)
            == Regs(0xd6670766, 0x79ea687a, 0x6dc57a8a, 0x34df1604, 0x26352d63, 0x1efbc0a0, 0xf0781bc8, 0xa507a53d)
    ensures Round(Regs(0xd6670766, 0x79ea687a, 0x6dc57a8a, 0x34df1604, 0x26352d63, 0x1efbc0a0, 0xf0781bc8, 0xa507a53d),
                  0xa81a664b, 0xf0a64f5a)
            == Regs(0xdf46652f, 0xd6670766, 0x79ea687a, 0x6dc57a8a, 0x838b2711, 0x26352d63, 0x1efbc0a0, 0xf0781bc8)
    ensures Round(Regs(0xdf46652f, 0xd6670766, 0x79ea687a, 0x6dc57a8a, 0x838b2711, 0x26352d63, 0x1efbc0a0, 0xf0781bc8),
                  0xc24b8b70, 0x3e246a79)
            == Regs(0x17aa0dfe, 0xdf46652f, 0xd6670766, 0x79ea687a, 0xdecd4715, 0x838b2711, 0x26352d63, 0x1efbc0a0)
    ensures Round(Regs(0x17aa0dfe, 0xdf46652f, 0xd6670766, 0x79ea687a, 0xdecd4715, 0x838b2711, 0x26352d63, 0x1efbc0a0),
                  0xc76c51a3, 0x27333ba3)
            == Regs(0x9d4baf93, 0x17aa0dfe, 0xdf46652f, 0xd6670766, 0xfda24c2e, 0xdecd4715, 0x838b2711, 0x26352d63)
    ensures Round(Regs(0x9d4baf93, 0x17aa0dfe, 0xdf46652f, 0xd6670766, 0xfda24c2e, 0xdecd4715, 0x838b2711, 0x26352d63),
                  0xd192e819, 0x0c4763f2)
            == Regs(0x26628815, 0x9d4baf93, 0x17aa0dfe, 0xdf46652f, 0xa80f11f0, 0xfda24c2e, 0xdecd4715, 0x838b2711)
    ensures Round(Regs(0x26628815, 0x9d4baf93, 0x17aa0dfe, 0xdf46652f, 0xa80f11f0, 0xfda24c2e, 0xdecd4715, 0x838b2711),
                  0xd6990624, 0x840abf27)
            == Regs(0x72ab4b91, 0x26628815, 0x9d4baf93, 0x17aa0dfe, 0xb7755da1, 0xa80f11f0, 0xfda24c2e, 0xdecd4715)
    ensures Round(Regs(0x72ab4b91, 0x26628815, 0x9d4baf93, 0x17aa0dfe, 0xb7755da1, 0xa80f11f0, 0xfda24c2e, 0xdecd4715),
                  0xf40e3585, 0x7a290d5d)
            == Regs(0xa14c14b0, 0x72ab4b91, 0x26628815, 0x9d4baf93, 0xd57b94a9, 0xb7755da1, 0xa80f11f0, 0xfda24c2e)
    ensures Round(Regs(0xa14c14b0, 0x72ab4b91, 0x26628815, 0x9d4baf93, 0xd57b94a9, 0xb7755da1, 0xa80f11f0, 0xfda24c2e),
                  0x106aa070, 0x065c43da)
            == Regs(0x4172328d, 0xa14c14b0, 0x72ab4b91, 0x26628815, 0xfecf0bc6, 0xd57b94a9, 0xb7755da1, 0xa80f11f0)
  {
  }

  lemma Rounds5(t: nat)
    requires t == 40
    ensures After(t + 8) == Regs(0x4172328d, 0xa14c14b0, 0x72ab4b91, 0x26628815,
                                0xfecf0bc6, 0xd57b94a9, 0xb7755da1, 0xa80f11f0)
  {
    hide *;
    Rounds4(t - 8);
    Words5(t);
    Constants5(t);
    Turns5();
    OneRound(t + 0);
    OneRound(t + 1);
    OneRound(t + 2);
    OneRound(t + 3);
    OneRound(t + 4);
    OneRound(t + 5);
    OneRound(t + 6);
    OneRound(t + 7);
  }

  lemma Constants6(t: nat)
    requires t == 48
    ensures K(t + 0) == 0x19a4c116 && K(t + 1) == 0x1e376c08 && K(t + 2) == 0x2748774c && K(t + 3) == 0x34b0bcb5
    ensures K(t + 4) == 0x391c0cb3 && K(t + 5) == 0x4ed8aa4a && K(t + 6) == 0x5b9cca4f && K(t + 7) == 0x682e6ff3
  {
  }

  lemma Turns6()
    ensures Round(Regs(0x4172328d, 0xa14c14b0, 0x72ab4b91, 0x26628815, 0xfecf0bc6, 0xd57b94a9, 0xb7755da1, 0xa80f11f0),
                  0x19a4c116, 0xfb3e89cb)
            == Regs(0x05757ceb, 0x4172328d, 0xa14c14b0, 0x72ab4b91, 0xbd714038, 0xfecf0bc6, 0xd57b94a9, 0xb7755da1)
    ensures Round(Regs(0x05757ceb, 0x4172328d, 0xa14c14b0, 0x72ab4b91, 0xbd714038, 0xfecf0bc6, 0xd57b94a9, 0xb7755da1),
                  0x1e376c08, 0xcc7617db)
            == Regs(0xf11bfaa8, 0x05757ceb, 0x4172328d, 0xa14c14b0, 0x6e5c390c, 0xbd714038, 0xfecf0bc6, 0xd57b94a9)
    ensures Round(Regs(0xf11bfaa8, 0x05757ceb, 0x4172328d, 0xa14c14b0, 0x6e5c390c, 0xbd714038, 0xfecf0bc6, 0xd57b94a9),
                  0x2748774c, 0xb9e66c34)
            == Regs(0x7a0508a1, 0xf11bfaa8, 0x05757ceb, 0x4172328d, 0x52f1ccf7, 0x6e5c390c, 0xbd714038, 0xfecf0bc6)
    ensures Round(Regs(0x7a0508a1, 0xf11bfaa8, 0x05757ceb, 0x4172328d, 0x52f1ccf7, 0x6e5c390c, 0xbd714038, 0xfecf0bc6),
                  0x34b0bcb5, 0xa9993667)
            == Regs(0x886e7a22, 0x7a0508a1, 0xf11bfaa8, 0x05757ceb, 0x49231c1e, 0x52f1ccf7, 0x6e5c390c, 0xbd714038)
    ensures Round(Regs(0x886e7a22, 0x7a0508a1, 0xf11bfaa8, 0x05757ceb, 0x49231c1e, 0x52f1ccf7, 0x6e5c390c, 0xbd714038),
                  0x391c0cb3, 0x84badedd)
            == Regs(0x101fd28f, 0x886e7a22, 0x7a0508a1, 0xf11bfaa8, 0x529e7d00, 0x49231c1e, 0x52f1ccf7, 0x6e5c390c)
    ensures Round(Regs(0x101fd28f, 0x886e7a22, 0x7a0508a1, 0xf11bfaa8, 0x529e7d00, 0x49231c1e, 0x52f1ccf7, 0x6e5c390c),
                  0x4ed8aa4a, 0xc21462bc)
            == Regs(0xf5702fdb, 0x101fd28f, 0x886e7a22, 0x7a0508a1, 0x9f4787c3, 0x529e7d00, 0x49231c1e, 0x52f1ccf7)
    ensures Round(Regs(0xf5702fdb, 0x101fd28f, 0x886e7a22, 0x7a0508a1, 0x9f4787c3, 0x529e7d00, 0x49231c1e, 0x52f1ccf7),
                  0x5b9cca4f, 0x1487472c)
            == Regs(0x3ec45cdb, 0xf5702fdb, 0x101fd28f, 0x886e7a22, 0xe50e1b4f, 0x9f4787c3, 0x529e7d00, 0x49231c1e)
    ensures Round(Regs(0x3ec45cdb, 0xf5702fdb, 0x101fd28f, 0x886e7a22, 0xe50e1b4f, 0x9f4787c3, 0x529e7d00, 0x49231c1e),
                  0x682e6ff3, 0xb20f7a99)
            == Regs(0x38cc9913, 0x3ec45cdb, 0xf5702fdb, 0x101fd28f, 0x54cb266b, 0xe50e1b4f, 0x9f4787c3, 0x529e7d00)
  {
  }

  lemma Rounds6(t: nat)
    requires t == 48
    ensures After(t + 8) == Regs(0x38cc9913, 0x3ec45cdb, 0xf5702fdb, 0x101fd28f,
                                0x54cb266b, 0xe50e1b4f, 0x9f4787c3, 0x529e7d00)
  {
    hide *;
    Rounds5(t - 8);
    Words6(t);
    Constants6(t);
    Turns6();
    OneRound(t + 0);
    OneRound(t + 1);
    OneRound(t + 2);
    OneRound(t + 3);
    OneRound(t + 4);
    OneRound(t + 5);
    OneRound(t + 6);
    OneRound(t + 7);
  }

  lemma Constants7(t: nat)
    requires t == 56
    ensures K(t + 0) == 0x748f82ee && K(t + 1) == 0x78a5636f && K(t + 2) == 0x84c87814 && K(t + 3) == 0x8cc70208
    ensures K(t + 4) == 0x90befffa && K(t + 5) == 0xa4506ceb && K(t + 6) == 0xbef9a3f7 && K(t + 7) == 0xc67178f2
  {
  }

  lemma Turns7()
    ensures Round(Regs(0x38cc9913, 0x3ec45cdb, 0xf5702fdb, 0x101fd28f, 0x54cb266b, 0xe50e1b4f, 0x9f4787c3, 0x529e7d00),
                  0x748f82ee, 0xef57b9cd)
            == Regs(0xfcd1887b, 0x38cc9913, 0x3ec45cdb, 0xf5702fdb, 0x9b5e906c, 0x54cb266b, 0xe50e1b4f, 0x9f4787c3)
    ensures Round(Regs(0xfcd1887b, 0x38cc9913, 0x3ec45cdb, 0xf5702fdb, 0x9b5e906c, 0x54cb266b, 0xe50e1b4f, 0x9f4787c3),
                  0x78a5636f, 0xebe6b238)
            == Regs(0xc062d46f, 0xfcd1887b, 0x38cc9913, 0x3ec45cdb, 0x7e44008e, 0x9b5e906c, 0x54cb266b, 0xe50e1b4f)
    ensures Round(Regs(0xc062d46f, 0xfcd1887b, 0x38cc9913, 0x3ec45cdb, 0x7e44008e, 0x9b5e906c, 0x54cb266b, 0xe50e1b4f),
                  0x84c87814, 0x9fe3095e)
            == Regs(0xffb70472, 0xc062d46f, 0xfcd1887b, 0x38cc9913, 0x6d83bfc6, 0x7e44008e, 0x9b5e906c, 0x54cb266b)
    ensures Round(Regs(0xffb70472, 0xc062d46f, 0xfcd1887b, 0x38cc9913, 0x6d83bfc6, 0x7e44008e, 0x9b5e906c, 0x54cb266b),
                  0x8cc70208, 0x78bc8d4b)
            == Regs(0xb6ae8fff, 0xffb70472, 0xc062d46f, 0xfcd1887b, 0xb21bad3d, 0x6d83bfc6, 0x7e44008e, 0x9b5e906c)
    ensures Round(Regs(0xb6ae8fff, 0xffb70472, 0xc062d46f, 0xfcd1887b, 0xb21bad3d, 0x6d83bfc6, 0x7e44008e, 0x9b5e906c),
                  0x90befffa, 0xa43fcf15)
            == Regs(0xb85e2ce9, 0xb6ae8fff, 0xffb70472, 0xc062d46f, 0x961f4894, 0xb21bad3d, 0x6d83bfc6, 0x7e44008e)
    ensures Round(Regs(0xb85e2ce9, 0xb6ae8fff, 0xffb70472, 0xc062d46f, 0x961f4894, 0xb21bad3d, 0x6d83bfc6, 0x7e44008e),
                  0xa4506ceb, 0x668b2ff8)
            == Regs(0x04d24d6c, 0xb85e2ce9, 0xb6ae8fff, 0xffb70472, 0x948d25b6, 0x961f4894, 0xb21bad3d, 0x6d83bfc6)
    ensures Round(Regs(0x04d24d6c, 0xb85e2ce9, 0xb6ae8fff, 0xffb70472, 0x948d25b6, 0x961f4894, 0xb21bad3d, 0x6d83bfc6),
                  0xbef9a3f7, 0xeeaba2cc)
            == Regs(0xd39a2165, 0x04d24d6c, 0xb85e2ce9, 0xb6ae8fff, 0xfb121210, 0x948d25b6, 0x961f4894, 0xb21bad3d)
    ensures Round(Regs(0xd39a2165, 0x04d24d6c, 0xb85e2ce9, 0xb6ae8fff, 0xfb121210, 0x948d25b6, 0x961f4894, 0xb21bad3d),
                  0xc67178f2, 0x12b1edeb)
            == Regs(0x506e3058, 0xd39a2165, 0x04d24d6c, 0xb85e2ce9, 0x5ef50f24, 0xfb121210, 0x948d25b6, 0x961f4894)
  {
  }

  lemma Rounds7(t: nat)
    requires t == 56
    ensures After(t + 8) == Regs(0x506e3058, 0xd39a2165, 0x04d24d6c, 0xb85e2ce9,
                                0x5ef50f24, 0xfb121210, 0x948d25b6, 0x961f4894)
  {
    hide *;
    Rounds6(t - 8);
    Words7(t);
    Constants7(t);
    Turns7();
    OneRound(t + 0);
    OneRound(t + 1);
    OneRound(t + 2);
    OneRound(t + 3);
    OneRound(t + 4);
    OneRound(t + 5);
    OneRound(t + 6);
    OneRound(t + 7);
  }

  lemma HashIs()
    ensures Hash(Abc()) == Add(InitialHash(), After(64))
  {
    PadLength(Abc());
    PaddedIsBlock();
    var b := Block();
    assert b[..0] == [] && b[0..] == b;
    hide Block, Rounds, Add, Pad;
  }

  lemma Sum()
    ensures Add(Regs(0x6a09e667, 0xbb67ae85, 0x3c6ef372, 0xa54ff53a, 0x510e527f, 0x9b05688c, 0x1f83d9ab, 0x5be0cd19),
                Regs(0x506e3058, 0xd39a2165, 0x04d24d6c, 0xb85e2ce9, 0x5ef50f24, 0xfb121210, 0x948d25b6, 0x961f4894))
            == Regs(0xba7816bf, 0x8f01cfea, 0x414140de, 0x5dae2223, 0xb00361a3, 0x96177a9c, 0xb410ff61, 0xf20015ad)
  {
  }

  lemma HashOfAbc()
    ensures Hash(Abc()) == Regs(0xba7816bf, 0x8f01cfea, 0x414140de, 0x5dae2223,
                               0xb00361a3, 0x96177a9c, 0xb410ff61, 0xf20015ad)
  {
    hide *;
    HashIs();
    InitialIs();
    Rounds7(56);
    Sum();
  }

  // ---------------------------------------------------------------- its digits

  lemma Digits0()
    ensures HexWord(0xba7816bf, 8) == "ba7816bf"
  {
  }

  lemma Digits1()
    ensures HexWord(0x8f01cfea, 8) == "8f01cfea"
  {
  }

  lemma Digits2()
    ensures HexWord(0x414140de, 8) == "414140de"
  {
  }

  lemma Digits3()
    ensures HexWord(0x5dae2223, 8) == "5dae2223"
  {
  }

  lemma Digits4()
    ensures HexWord(0xb00361a3, 8) == "b00361a3"
  {
  }

  lemma Digits5()
    ensures HexWord(0x96177a9c, 8) == "96177a9c"
  {
  }

  lemma Digits6()
    ensures HexWord(0xb410ff61, 8) == "b410ff61"
  {
  }

  lemma Digits7()
    ensures HexWord(0xf20015ad, 8) == "f20015ad"
  {
  }

  lemma Group(h: Regs, i: nat, lo: nat, w: Word, text: string)
    requires h == Hash(Abc()) && i < 8 && lo == 8 * i && WordsOf(h)[i] == w && HexWord(w, 8) == text
    ensures |HexHash(Abc())| == 64 && HexHash(Abc())[lo..lo + 8] == text
  {
    hide Hash, HexWord, HexWords, Abc;
    HexWordsParts(WordsOf(h), i);
  }

  lemma Parts(h: Regs)
    ensures var ws := WordsOf(h);
            && ws[0] == h.a && ws[1] == h.b && ws[2] == h.c && ws[3] == h.d
            && ws[4] == h.e && ws[5] == h.f && ws[6] == h.g && ws[7] == h.h && |ws| == 8
  {
  }

  /** The digest of "abc", in eight groups of eight digits. */
  lemma DigestOfAbc()
    ensures var d := HexHash(Abc());
            && |d| == 64
            && d[0..8] == "ba7816bf" && d[8..16] == "8f01cfea"
            && d[16..24] == "414140de" && d[24..32] == "5dae2223"
            && d[32..40] == "b00361a3" && d[40..48] == "96177a9c"
            && d[48..56] == "b410ff61" && d[56..64] == "f20015ad"
  {
    hide *;
    HashOfAbc();
    var h := Hash(Abc());
    Parts(h);
    Digits0();
    Group(h, 0, 0, 0xba7816bf, "ba7816bf");
    Digits1();
    Group(h, 1, 8, 0x8f01cfea, "8f01cfea");
    Digits2();
    Group(h, 2, 16, 0x414140de, "414140de");
    Digits3();
    Group(h, 3, 24, 0x5dae2223, "5dae2223");
    Digits4();
    Group(h, 4, 32, 0xb00361a3, "b00361a3");
    Digits5();
    Group(h, 5, 40, 0x96177a9c, "96177a9c");
    Digits6();
    Group(h, 6, 48, 0xb410ff61, "b410ff61");
    Digits7();
    Group(h, 7, 56, 0xf20015ad, "f20015ad");
  }
}
