/** The incremental hasher of src/util/sha256.cpp: a class that buffers bytes and works block
    by block. Whatever the pieces in which the message comes, the digest is the one that
    FIPS 180-4 defines for the whole message. */
module Sha256 {
  import opened SeqFacts
  import opened Fips180

  /** The hash words held in the eight cells of the state array. */
  function RegsOf(s: seq<Word>): Regs
    requires |s| == 8
  {
    Regs(s[0], s[1], s[2], s[3], s[4], s[5], s[6], s[7])
  }

  function WordsOf(r: Regs): seq<Word> { [r.a, r.b, r.c, r.d, r.e, r.f, r.g, r.h] }

  // ---------------------------------------------------------------- hexadecimal

  const HEX: string := "0123456789abcdef"

  /** The k-th nibble of a word, counted from the left. */
  function Nibble(s: Word, k: nat): Word
    requires k < 8
  {
    var shifted :=
      if k == 0 then s >> 28 else if k == 1 then s >> 24 else if k == 2 then s >> 20 else if k == 3 then s >> 16
      else if k == 4 then s >> 12 else if k == 5 then s >> 8 else if k == 6 then s >> 4 else s;
    shifted & 0xf
  }

  function HexDigit(v: Word): char { HEX[(v & 0xf) as nat] }

  /** The first k hexadecimal digits of a word. */
  function HexWord(s: Word, k: nat): string
    requires k <= 8
  {
    if k == 0 then "" else HexWord(s, k - 1) + [HexDigit(Nibble(s, k - 1))]
  }

  function HexWords(ws: seq<Word>): string {
    if ws == [] then "" else HexWords(ws[..|ws| - 1]) + HexWord(ws[|ws| - 1], 8)
  }

  /** The digest that FIPS 180-4 gives a message, in hexadecimal. */
  function HexHash(m: seq<Byte>): string {
    HexWords(WordsOf(Hash(m)))
  }

  // ---------------------------------------------------------------- one block

  lemma AddOrder(x: Word, y: Word, z: Word, u: Word)
    ensures x + y + z + u == u + z + y + x
  {
  }

  /** The program adds the four terms in another order than the standard. */
  lemma PlusOrder(x: Word, y: Word, z: Word, u: Word)
    ensures Plus4(x, y, z, u) == Plus4(u, z, y, x)
  {
    AddOrder(x, y, z, u);
  }

  /** Fills the message schedule. */
  method FillSchedule(block: seq<Byte>) returns (w: array<Word>)
    requires |block| == 64
    ensures fresh(w) && w.Length == 64
    ensures forall t :: 0 <= t < 64 ==> w[t] == Schedule(block, t)
  {
    hide WordOf, SmallSigma0, SmallSigma1, Plus4;
    w := new Word[64];
    for i := 0 to 16
      invariant forall t :: 0 <= t < i ==> w[t] == Schedule(block, t)
    {
      w[i] := WordOf(block[i * 4], block[i * 4 + 1], block[i * 4 + 2], block[i * 4 + 3]);
    }
    for i := 16 to 64
      invariant forall t :: 0 <= t < i ==> w[t] == Schedule(block, t)
    {
      var s0 := SmallSigma0(w[i - 15]);
      var s1 := SmallSigma1(w[i - 2]);
      PlusOrder(w[i - 16], s0, w[i - 7], s1);
      w[i] := Plus4(w[i - 16], s0, w[i - 7], s1);
    }
  }

  /** The 64 rounds on eight variables. */
  method RunRounds(hash: Regs, block: seq<Byte>, w: array<Word>) returns (r: Regs)
    requires |block| == 64 && w.Length == 64
    requires forall t :: 0 <= t < 64 ==> w[t] == Schedule(block, t)
    ensures r == Rounds(hash, block, 64)
  {
    hide BigSigma0, BigSigma1, Ch, Maj, K, Schedule, Plus, Plus4;
    var a, b, c, d := hash.a, hash.b, hash.c, hash.d;
    var e, f, g, h := hash.e, hash.f, hash.g, hash.h;
    for i := 0 to 64
      invariant Regs(a, b, c, d, e, f, g, h) == Rounds(hash, block, i)
    {
      var t1 := Plus(Plus4(h, BigSigma1(e), Ch(e, f, g), K(i)), w[i]);
      var t2 := Plus(BigSigma0(a), Maj(a, b, c));
      h := g;
      g := f;
      f := e;
      e := Plus(d, t1);
      d := c;
      c := b;
      b := a;
      a := Plus(t1, t2);
    }
    r := Regs(a, b, c, d, e, f, g, h);
  }

  // ---------------------------------------------------------------- the class

  /** The padding loop runs until exactly the least number of zeros is there. */
  lemma PadRoom(n: nat, zeros: nat)
    requires zeros <= PadZeros(n)
    ensures (n + 1 + zeros) % 64 == 56 <==> zeros == PadZeros(n)
  {
  }

  lemma NoZeros(s: seq<Byte>)
    ensures s + Zeros(0) == s && |Zeros(0)| == 0
  {
  }

  lemma BitLength(n: nat)
    ensures n % TWO_64 * 8 % TWO_64 == 8 * n % TWO_64
  {
    var q, r := n / TWO_64, n % TWO_64;
    assert 8 * n == (8 * q) * TWO_64 + 8 * r;
  }

  lemma MoreZeros(s: seq<Byte>, k: nat)
    ensures s + Zeros(k) + [0] == s + Zeros(k + 1) && |Zeros(k + 1)| == k + 1
  {
    assert Zeros(k) + [0] == Zeros(k + 1);
    Assoc(s, Zeros(k), [0]);
  }

  /** `n` shifted right by k bytes. */
  function ShiftBytes(n: nat, k: nat): nat {
    if k == 0 then n else ShiftBytes(n, k - 1) / 256
  }

  /** The eight length bytes: byte i is the low byte of the number shifted right by 7 - i bytes. */
  method LengthBytes(n: nat) returns (b: seq<Byte>)
    ensures |b| == 8 && b == BigEndian(n, 8)
  {
    b := [];
    for i := 0 to 8
      invariant b == BigEndian(ShiftBytes(n, 8 - i), i)
    {
      b := b + [(ShiftBytes(n, 7 - i) % 256) as Byte];
    }
    BigEndianLength(n, 8);
  }

  lemma Grown(before: seq<Byte>, folded: seq<Byte>, held: seq<Byte>, more: seq<Byte>)
    requires |held| <= |before| && folded == before[..|before| - |held|] && held == before[|before| - |held|..]
    ensures before + more == folded + (held + more)
    ensures (before + more)[..|before + more| - |held + more|] == folded
    ensures (before + more)[|before + more| - |held + more|..] == held + more
  {
    Cut(before, |before| - |held|);
    Assoc(folded, held, more);
    DropConcat(folded, held + more);
  }

  class Sha256 {
    const state: array<Word>
    const buffer: array<Byte>
    var totalLen: nat    // modulo 2^64
    var bufferLen: nat

    /** Every byte passed to `Update` so far. */
    ghost var absorbed: seq<Byte>

    /** The state is the fold over complete blocks; the buffer holds the rest, perhaps a whole block. */
    ghost predicate Loose()
      reads `bufferLen, `absorbed, state, buffer
    {
      && state.Length == 8 && buffer.Length == 64
      && bufferLen <= 64 && bufferLen <= |absorbed| && (|absorbed| - bufferLen) % 64 == 0
      && buffer[..bufferLen] == absorbed[|absorbed| - bufferLen..]
      && RegsOf(state[..]) == Fold(absorbed[..|absorbed| - bufferLen])
    }

    ghost predicate Core()
      reads `bufferLen, `absorbed, state, buffer
    {
      Loose() && bufferLen < 64
    }

    ghost predicate Valid()
      reads this, state, buffer
    {
      Core() && totalLen == |absorbed| % TWO_64
    }

    constructor ()
      ensures Valid() && absorbed == [] && fresh(state) && fresh(buffer)
    {
      state := new Word[8] [0x6a09e667, 0xbb67ae85, 0x3c6ef372, 0xa54ff53a,
                            0x510e527f, 0x9b05688c, 0x1f83d9ab, 0x5be0cd19];
      buffer := new Byte[64];
      totalLen, bufferLen, absorbed := 0, 0, [];
    }

    method ProcessBlock(block: seq<Byte>)
      requires |block| == 64 && state.Length == 8
      modifies state
      ensures RegsOf(state[..]) == Compress(old(RegsOf(state[..])), block)
    {
      hide Schedule, Rounds, Plus;
      var before := RegsOf(state[..]);
      var w := FillSchedule(block);
      var r := RunRounds(before, block, w);
      state[0], state[1], state[2], state[3], state[4], state[5], state[6], state[7] :=
        Plus(state[0], r.a), Plus(state[1], r.b), Plus(state[2], r.c), Plus(state[3], r.d),
        Plus(state[4], r.e), Plus(state[5], r.f), Plus(state[6], r.g), Plus(state[7], r.h);
    }

    /** std::memcpy into the buffer. */
    method CopyIn(at: nat, data: seq<Byte>)
      requires at + |data| <= buffer.Length
      modifies buffer
      ensures buffer[..at + |data|] == old(buffer[..at]) + data
    {
      forall i | 0 <= i < |data| {
        buffer[at + i] := data[i];
      }
    }

    /** Appends to the buffer what fits into it. */
    method Append(p: seq<Byte>)
      requires Core() && bufferLen + |p| <= 64
      modifies `bufferLen, `absorbed, buffer
      ensures Loose() && absorbed == old(absorbed) + p && bufferLen == old(bufferLen) + |p|
    {
      hide Fold;
      ghost var folded, held := absorbed[..|absorbed| - bufferLen], buffer[..bufferLen];
      CopyIn(bufferLen, p);
      Grown(absorbed, folded, held, p);
      bufferLen := bufferLen + |p|;
      absorbed := absorbed + p;
    }

    /** Processes a full buffer. */
    method Flush()
      requires Loose() && bufferLen == 64
      modifies `bufferLen, state
      ensures Core() && bufferLen == 0
    {
      hide Fold, Compress;
      ghost var folded := absorbed[..|absorbed| - 64];
      FoldBlock(folded, buffer[..64]);
      Cut(absorbed, |absorbed| - 64);
      assert buffer[..64] == buffer[..];
      ProcessBlock(buffer[..]);
      bufferLen := 0;
      assert absorbed[..|absorbed|] == absorbed;
    }

    /** Fills up a partly filled buffer and processes it once it is full. */
    method TopUp(p: seq<Byte>) returns (rest: seq<Byte>)
      requires Core() && bufferLen > 0
      modifies `bufferLen, `absorbed, state, buffer
      ensures Core() && absorbed + rest == old(absorbed) + p
      ensures bufferLen == 0 || rest == []
    {
      hide *;
      var fill := if |p| < 64 - bufferLen then |p| else 64 - bufferLen;
      Fits();
      Append(p[..fill]);
      rest := p[fill..];
      Cut(p, fill);
      Assoc(old(absorbed), p[..fill], rest);
      if bufferLen == 64 {
        Flush();
      } else {
        CoreFold();
      }
    }

    lemma Fits()
      requires Core()
      ensures bufferLen < 64
    {
    }

    lemma CoreFold()
      requires Loose() && bufferLen < 64
      ensures Core()
    {
    }

    /** Processes complete blocks straight from the input. */
    method Blocks(p: seq<Byte>) returns (rest: seq<Byte>)
      requires Core() && (bufferLen == 0 || p == [])
      modifies `absorbed, state
      ensures Core() && absorbed + rest == old(absorbed) + p
      ensures |rest| < 64 && (bufferLen == 0 || rest == [])
    {
      hide Fold, Compress;
      rest := p;
      while |rest| >= 64
        invariant Core() && absorbed + rest == old(absorbed) + p
        invariant bufferLen == 0 || rest == []
      {
        assert absorbed[..|absorbed|] == absorbed;
        ProcessBlock(rest[..64]);
        FoldBlock(absorbed, rest[..64]);
        Cut(rest, 64);
        Assoc(absorbed, rest[..64], rest[64..]);
        absorbed := absorbed + rest[..64];
        assert absorbed[..|absorbed|] == absorbed;
        rest := rest[64..];
      }
    }

    method Update(data: seq<Byte>)
      requires Core()
      modifies this, state, buffer
      ensures Core() && absorbed == old(absorbed) + data
      ensures totalLen == (old(totalLen) + |data|) % TWO_64
    {
      hide Fold, RegsOf;
      var p := data;
      totalLen := (totalLen + |data|) % TWO_64;
      if bufferLen > 0 {
        p := TopUp(p);
      }
      p := Blocks(p);
      if |p| > 0 {
        Append(p);
      }
    }

    /** Padding does not count toward the message length. */
    method Uncount()
      modifies `totalLen
      ensures totalLen == (old(totalLen) - 1) % TWO_64
    {
      totalLen := (totalLen - 1) % TWO_64;
    }

    /** Appends 0x80 and zeros until 56 bytes of a block are filled. */
    method PadBlock()
      requires Core()
      modifies this, state, buffer
      ensures Core() && absorbed == old(absorbed) + [0x80] + Zeros(PadZeros(|old(absorbed)|))
    {
      hide *;
      ghost var n, start := |absorbed|, absorbed + [0x80];
      Update([0x80]);
      Uncount();
      ghost var zeros := 0;
      NoZeros(start);
      while bufferLen != 56
        invariant Core() && absorbed == start + Zeros(zeros) && |Zeros(zeros)| == zeros
        invariant zeros <= PadZeros(n)
        decreases PadZeros(n) - zeros
      {
        Position();
        PadRoom(n, zeros);
        Update([0x00]);
        Uncount();
        MoreZeros(start, zeros);
        zeros := zeros + 1;
      }
      Position();
      PadRoom(n, zeros);
    }

    lemma ValidCore()
      requires Valid()
      ensures Core() && totalLen == |absorbed| % TWO_64
    {
    }

    lemma CoreValid()
      requires Core() && totalLen == |absorbed| % TWO_64
      ensures Valid()
    {
    }

    lemma Position()
      requires Core()
      ensures bufferLen == |absorbed| % 64
    {
      hide Fold, RegsOf;
    }

    /** Pads with 0x80, the least number of zeros and the length; the object is spent afterwards. */
    method HexDigest() returns (out: string)
      requires Valid()
      modifies this, state, buffer
      ensures out == HexHash(old(absorbed))
    {
      hide Fold, BigEndian, Zeros, PadZeros, RegsOf;
      ghost var m := absorbed;
      var bitLen := totalLen * 8 % TWO_64;
      BitLength(|m|);
      PadBlock();
      var lenBe := LengthBytes(bitLen);
      Update(lenBe);
      assert absorbed == Pad(m);
      PadLength(m);
      Position();
      StateIsHash(m);
      out := HexOfState();
    }

    lemma StateIsHash(m: seq<Byte>)
      requires Core() && absorbed == Pad(m) && bufferLen == 0
      ensures state.Length == 8 && state[..] == WordsOf(Hash(m))
    {
      hide Fold, Pad;
      assert absorbed[..|absorbed|] == absorbed;
    }

    /** The state in hexadecimal, nibble by nibble. */
    method HexOfState() returns (out: string)
      requires state.Length == 8
      ensures out == HexWords(state[..])
    {
      hide HexDigit, Nibble;
      out := "";
      for i := 0 to 8
        invariant out == HexWords(state[..i])
      {
        ghost var before := out;
        for k := 0 to 8
          invariant out == before + HexWord(state[i], k)
        {
          Assoc(before, HexWord(state[i], k), [HexDigit(Nibble(state[i], k))]);
          out := out + [HexDigit(Nibble(state[i], k))];
        }
        assert state[..i + 1][..i] == state[..i];
      }
      assert state[..8] == state[..];
    }
  }

  // ---------------------------------------------------------------- one-shot and file hashing

  lemma CountAdds(n: nat, k: nat)
    ensures (n % TWO_64 + k) % TWO_64 == (n + k) % TWO_64
  {
  }

  method Sha256Hex(data: seq<Byte>) returns (out: string)
    ensures out == HexHash(data)
  {
    hide *;
    var h := new Sha256();
    h.ValidCore();
    h.Update(data);
    CountAdds(0, |data|);
    h.CoreValid();
    assert h.absorbed == data;
    out := h.HexDigest();
  }

  function Flatten(chunks: seq<seq<Byte>>): seq<Byte> {
    if chunks == [] then [] else Flatten(chunks[..|chunks| - 1]) + chunks[|chunks| - 1]
  }

  lemma FlattenNothing(chunks: seq<seq<Byte>>)
    ensures Flatten(chunks[..0]) == []
  {
  }

  lemma FlattenNext(chunks: seq<seq<Byte>>, i: nat)
    requires i < |chunks|
    ensures Flatten(chunks[..i + 1]) == Flatten(chunks[..i]) + chunks[i]
  {
    assert chunks[..i + 1][..i] == chunks[..i];
  }

  /** Hashes a file in the pieces in which the stream hands it out, however it is cut; the empty
      string stands for a file that cannot be opened or read. */
  method Sha256FileHex(canOpen: bool, chunks: seq<seq<Byte>>, bad: bool) returns (out: string)
    ensures out == if canOpen && !bad then HexHash(Flatten(chunks)) else ""
  {
    hide *;
    if !canOpen { return ""; }
    var h := new Sha256();
    FlattenNothing(chunks);
    for i := 0 to |chunks|
      invariant h.Valid() && h.absorbed == Flatten(chunks[..i])
      invariant fresh(h) && fresh(h.state) && fresh(h.buffer)
    {
      var got := chunks[i];
      FlattenNext(chunks, i);
      CountAdds(|h.absorbed|, |got|);
      if |got| > 0 {
        h.ValidCore();
        h.Update(got);
        h.CoreValid();
      }
    }
    assert chunks[..|chunks|] == chunks;
    if bad { return ""; }
    out := h.HexDigest();
  }

  // ---------------------------------------------------------------- the digest names its hash

  function UnhexDigit(c: char): Word {
    if c == '1' then 1 else if c == '2' then 2 else if c == '3' then 3 else if c == '4' then 4
    else if c == '5' then 5 else if c == '6' then 6 else if c == '7' then 7 else if c == '8' then 8
    else if c == '9' then 9 else if c == 'a' then 10 else if c == 'b' then 11 else if c == 'c' then 12
    else if c == 'd' then 13 else if c == 'e' then 14 else if c == 'f' then 15 else 0
  }

  /** The word that eight hexadecimal digits denote. */
  function UnhexWord(s: string): Word
    requires |s| == 8
  {
    (UnhexDigit(s[0]) << 28) | (UnhexDigit(s[1]) << 24) | (UnhexDigit(s[2]) << 20) | (UnhexDigit(s[3]) << 16) |
    (UnhexDigit(s[4]) << 12) | (UnhexDigit(s[5]) << 8) | (UnhexDigit(s[6]) << 4) | UnhexDigit(s[7])
  }

  lemma UnhexOfDigit(v: Word)
    requires v < 16
    ensures UnhexDigit(HexDigit(v)) == v
  {
    var n := v as nat;
    assert v & 0xf == v;
  }

  lemma {:induction false} HexWordDigits(s: Word, k: nat)
    requires k <= 8
    ensures |HexWord(s, k)| == k
    ensures forall i :: 0 <= i < k ==> HexWord(s, k)[i] == HexDigit(Nibble(s, i))
  {
    hide HexDigit, Nibble;
    if k > 0 { HexWordDigits(s, k - 1); }
  }

  lemma NibbleSmall(s: Word, k: nat)
    requires k < 8
    ensures Nibble(s, k) < 16
  {
  }

  lemma NibbleDigit(s: Word, k: nat)
    requires k < 8
    ensures UnhexDigit(HexDigit(Nibble(s, k))) == Nibble(s, k)
  {
    NibbleSmall(s, k);
    hide *;
    UnhexOfDigit(Nibble(s, k));
  }

  lemma NibblesJoin(s: Word)
    ensures (((s >> 28) & 0xf) << 28) | (((s >> 24) & 0xf) << 24)
            | (((s >> 20) & 0xf) << 20) | (((s >> 16) & 0xf) << 16)
          | (((s >> 12) & 0xf) << 12) | (((s >> 8) & 0xf) << 8) | (((s >> 4) & 0xf) << 4) | (s & 0xf)
         == s
  {
  }

  /** The eight digits of a word denote the word. */
  lemma HexReadsBack(s: Word)
    ensures |HexWord(s, 8)| == 8 && UnhexWord(HexWord(s, 8)) == s
  {
    HexWordDigits(s, 8);
    forall k | 0 <= k < 8 ensures UnhexDigit(HexWord(s, 8)[k]) == Nibble(s, k) {
      NibbleDigit(s, k);
    }
    NibblesJoin(s);
    hide UnhexDigit, HexDigit, HexWord;
  }

  lemma HexWordsNone()
    ensures HexWords([]) == ""
  {
  }

  lemma HexWordsLast(ws: seq<Word>)
    requires ws != []
    ensures HexWords(ws) == HexWords(ws[..|ws| - 1]) + HexWord(ws[|ws| - 1], 8)
  {
    hide HexWord;
  }

  lemma SliceOfFront<T>(a: seq<T>, b: seq<T>, i: nat, j: nat)
    requires i <= j <= |a|
    ensures (a + b)[i..j] == a[i..j]
  {
  }

  lemma {:induction false} HexWordsParts(ws: seq<Word>, i: nat)
    requires i < |ws|
    ensures |HexWords(ws)| == 8 * |ws|
    ensures HexWords(ws)[8 * i..8 * i + 8] == HexWord(ws[i], 8)
  {
    hide HexWord, UnhexWord, HexWords;
    var k := |ws| - 1;
    HexReadsBack(ws[k]);
    HexWordsLast(ws);
    if k == 0 {
      assert ws[..0] == [];
      HexWordsNone();
    } else {
      HexWordsParts(ws[..k], if i < k then i else 0);
      if i < k {
        SliceOfFront(HexWords(ws[..k]), HexWord(ws[k], 8), 8 * i, 8 * i + 8);
      } else {
        DropConcat(HexWords(ws[..k]), HexWord(ws[k], 8));
      }
    }
  }

  /** The hexadecimal digest has 64 digits, and two messages have the same digest exactly when
      they have the same hash value. */
  lemma HexNamesHash(m: seq<Byte>, m': seq<Byte>)
    ensures |HexHash(m)| == 64
    ensures HexHash(m) == HexHash(m') <==> Hash(m) == Hash(m')
  {
    hide HexWords, HexWord, UnhexWord, Hash;
    var ws, ws' := WordsOf(Hash(m)), WordsOf(Hash(m'));
    forall i | 0 <= i < 8
      ensures |HexWords(ws)| == 64 && (HexWords(ws) == HexWords(ws') ==> ws[i] == ws'[i])
    {
      HexWordsParts(ws, i);
      HexWordsParts(ws', i);
      HexReadsBack(ws[i]);
      HexReadsBack(ws'[i]);
    }
    if HexHash(m) == HexHash(m') {
      assert ws[0] == ws'[0] && ws[1] == ws'[1] && ws[2] == ws'[2] && ws[3] == ws'[3];
      assert ws[4] == ws'[4] && ws[5] == ws'[5] && ws[6] == ws'[6] && ws[7] == ws'[7];
    }
  }

  /** The digest read as numbers: its eight groups of eight digits denote the eight words of the hash, in
      their order. */
  lemma DigestReads(m: seq<Byte>)
    ensures var d, h := HexHash(m), Hash(m);
            && |d| == 64
            && UnhexWord(d[0..8]) == h.a && UnhexWord(d[8..16]) == h.b && UnhexWord(d[16..24]) == h.c
            && UnhexWord(d[24..32]) == h.d && UnhexWord(d[32..40]) == h.e && UnhexWord(d[40..48]) == h.f
            && UnhexWord(d[48..56]) == h.g && UnhexWord(d[56..64]) == h.h
  {
    hide HexWords, HexWord, UnhexWord, Hash;
    var ws := WordsOf(Hash(m));
    forall i | 0 <= i < 8
      ensures |HexWords(ws)| == 64 && |HexWords(ws)[8 * i..8 * i + 8]| == 8
      ensures UnhexWord(HexWords(ws)[8 * i..8 * i + 8]) == ws[i]
    {
      HexWordsParts(ws, i);
      HexReadsBack(ws[i]);
    }
    var d := HexWords(ws);
    assert UnhexWord(d[8 * 0..8 * 0 + 8]) == ws[0] && UnhexWord(d[8 * 1..8 * 1 + 8]) == ws[1];
    assert UnhexWord(d[8 * 2..8 * 2 + 8]) == ws[2] && UnhexWord(d[8 * 3..8 * 3 + 8]) == ws[3];
    assert UnhexWord(d[8 * 4..8 * 4 + 8]) == ws[4] && UnhexWord(d[8 * 5..8 * 5 + 8]) == ws[5];
    assert UnhexWord(d[8 * 6..8 * 6 + 8]) == ws[6] && UnhexWord(d[8 * 7..8 * 7 + 8]) == ws[7];
  }
}
