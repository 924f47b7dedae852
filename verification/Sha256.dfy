/** SHA-256 and HMAC: the in-place loops against FIPS 180-4 and RFC 2104. */
module Sha256 {
  import opened Bytes

  type Word = bv32

  // ---------------------------------------------------------------------------------------
  // FIPS 180-4, sections 3.2, 4.1.2, 4.2.2 and 5.3.3

  // The operators on words. Naming them lets the loops be compared with the standard without
  // looking at single bits.

  function Xor(x: Word, y: Word): Word { x ^ y }
  function And(x: Word, y: Word): Word { x & y }
  function Not(x: Word): Word { !x }
  function Shr(n: Word, x: Word): Word requires n < 32 { x >> n }

  /** Sums modulo 2^32. */
  function Plus(x: Word, y: Word): Word { x + y }
  function Sum4(a: Word, b: Word, c: Word, d: Word): Word { a + b + c + d }

  function Rotr(n: Word, x: Word): Word
    requires 0 < n < 32
  {
    (x >> n) | (x << (32 - n))
  }

  function Xor3(x: Word, y: Word, z: Word): Word { Xor(Xor(x, y), z) }
  function Ch(x: Word, y: Word, z: Word): Word { Xor(And(x, y), And(Not(x), z)) }
  function Maj(x: Word, y: Word, z: Word): Word { Xor3(And(x, y), And(x, z), And(y, z)) }
  function BigSigma0(x: Word): Word { Xor3(Rotr(2, x), Rotr(13, x), Rotr(22, x)) }
  function BigSigma1(x: Word): Word { Xor3(Rotr(6, x), Rotr(11, x), Rotr(25, x)) }
  function SmallSigma0(x: Word): Word { Xor3(Rotr(7, x), Rotr(18, x), Shr(3, x)) }
  function SmallSigma1(x: Word): Word { Xor3(Rotr(17, x), Rotr(19, x), Shr(10, x)) }

  const ROW0: seq<Word> := [0x428a2f98, 0x71374491, 0xb5c0fbcf, 0xe9b5dba5, 0x3956c25b, 0x59f111f1, 0x923f82a4, 0xab1c5ed5]
  const ROW1: seq<Word> := [0xd807aa98, 0x12835b01, 0x243185be, 0x550c7dc3, 0x72be5d74, 0x80deb1fe, 0x9bdc06a7, 0xc19bf174]
  const ROW2: seq<Word> := [0xe49b69c1, 0xefbe4786, 0x0fc19dc6, 0x240ca1cc, 0x2de92c6f, 0x4a7484aa, 0x5cb0a9dc, 0x76f988da]
  const ROW3: seq<Word> := [0x983e5152, 0xa831c66d, 0xb00327c8, 0xbf597fc7, 0xc6e00bf3, 0xd5a79147, 0x06ca6351, 0x14292967]
  const ROW4: seq<Word> := [0x27b70a85, 0x2e1b2138, 0x4d2c6dfc, 0x53380d13, 0x650a7354, 0x766a0abb, 0x81c2c92e, 0x92722c85]
  const ROW5: seq<Word> := [0xa2bfe8a1, 0xa81a664b, 0xc24b8b70, 0xc76c51a3, 0xd192e819, 0xd6990624, 0xf40e3585, 0x106aa070]
  const ROW6: seq<Word> := [0x19a4c116, 0x1e376c08, 0x2748774c, 0x34b0bcb5, 0x391c0cb3, 0x4ed8aa4a, 0x5b9cca4f, 0x682e6ff3]
  const ROW7: seq<Word> := [0x748f82ee, 0x78a5636f, 0x84c87814, 0x8cc70208, 0x90befffa, 0xa4506ceb, 0xbef9a3f7, 0xc67178f2]

  function K(): (k: seq<Word>)
    ensures |k| == 64
  {
    ROW0 + ROW1 + ROW2 + ROW3 + ROW4 + ROW5 + ROW6 + ROW7
  }

  /** Eight words: a hash value, or the working variables a to h. */
  datatype State = State(a: Word, b: Word, c: Word, d: Word, e: Word, f: Word, g: Word, h: Word)

  const INITIAL := State(0x6a09e667, 0xbb67ae85, 0x3c6ef372, 0xa54ff53a, 0x510e527f, 0x9b05688c, 0x1f83d9ab, 0x5be0cd19)

  // ---------------------------------------------------------------------------------------
  // Section 6.2.2: one block

  /** Step 1, the message schedule. */
  function Schedule(block: seq<Word>, t: nat): Word
    requires |block| == 16
  {
    if t < 16 then block[t]
    else NextWord(Schedule(block, t - 2), Schedule(block, t - 7), Schedule(block, t - 15), Schedule(block, t - 16))
  }

  function NextWord(w2: Word, w7: Word, w15: Word, w16: Word): Word {
    Sum4(SmallSigma1(w2), w7, SmallSigma0(w15), w16)
  }

  /** Step 3, one round. */
  function Round(s: State, k: Word, w: Word): State {
    var t1 := Plus(Plus(Plus(Plus(s.h, BigSigma1(s.e)), Ch(s.e, s.f, s.g)), k), w);
    var t2 := Plus(BigSigma0(s.a), Maj(s.a, s.b, s.c));
    State(Plus(t1, t2), s.a, s.b, s.c, Plus(s.d, t1), s.e, s.f, s.g)
  }

  function Rounds(s: State, block: seq<Word>, t: nat): State
    requires |block| == 16 && t <= 64
  {
    if t == 0 then s else Round(Rounds(s, block, t - 1), K()[t - 1], Schedule(block, t - 1))
  }

  /** Step 4. */
  function Add(x: State, y: State): State {
    State(Plus(x.a, y.a), Plus(x.b, y.b), Plus(x.c, y.c), Plus(x.d, y.d), Plus(x.e, y.e), Plus(x.f, y.f), Plus(x.g, y.g), Plus(x.h, y.h))
  }

  function Compress(s: State, block: seq<Word>): State
    requires |block| == 16
  {
    Add(s, Rounds(s, block, 64))
  }

  // ---------------------------------------------------------------------------------------
  // Words and bytes, most significant byte first

  function ToWord(b0: Byte, b1: Byte, b2: Byte, b3: Byte): Word {
    ((b0 as Word) << 24) | ((b1 as Word) << 16) | ((b2 as Word) << 8) | (b3 as Word)
  }

  function ToBytes(x: Word): seq<Byte> {
    [((x >> 24) & 0xff) as Byte, ((x >> 16) & 0xff) as Byte, ((x >> 8) & 0xff) as Byte, (x & 0xff) as Byte]
  }

  function WordAt(p: seq<Byte>, i: nat): Word
    requires i + 4 <= |p|
  {
    ToWord(p[i], p[i + 1], p[i + 2], p[i + 3])
  }

  function BlockAt(p: seq<Byte>, off: nat): (b: seq<Word>)
    requires off + 64 <= |p|
    ensures |b| == 16
  {
    seq(16, i requires 0 <= i < 16 => WordAt(p, off + 4 * i))
  }

  // ---------------------------------------------------------------------------------------
  // Section 5.1.1, padding, and section 6.2, the whole message

  const TWO_TO_THE_32: nat := 0x1_0000_0000

  /** The standard is for messages of less than 2^64 bits. */
  predicate Hashable(m: seq<Byte>) {
    8 * |m| < TWO_TO_THE_32 * TWO_TO_THE_32
  }

  /** The length of the message in bits, in 64 bits. */
  function LengthField(bytes: nat): seq<Byte> {
    BigEndian(8 * bytes, 8)
  }

  function Zeros(n: nat): (z: seq<Byte>)
    ensures |z| == n && forall k :: 0 <= k < n ==> z[k] == 0
  {
    seq(n, _ => 0)
  }

  /** The smallest number of zero bytes that completes a block. */
  function ZeroCount(bytes: nat): (z: nat)
    ensures z < 64 && (bytes + 1 + z + 8) % 64 == 0
  {
    (119 - bytes % 64) % 64
  }

  function Pad(m: seq<Byte>): (p: seq<Byte>)
    requires Hashable(m)
    ensures |p| % 64 == 0
  {
    m + [0x80] + Zeros(ZeroCount(|m|)) + LengthField(|m|)
  }

  function HashFrom(s: State, p: seq<Byte>, off: nat): State
    requires |p| % 64 == 0 && off % 64 == 0 && off <= |p|
    decreases |p| - off
  {
    if off == |p| then s else HashFrom(Compress(s, BlockAt(p, off)), p, off + 64)
  }

  function Words(s: State): (w: seq<Word>)
    ensures |w| == 8
  {
    [s.a, s.b, s.c, s.d, s.e, s.f, s.g, s.h]
  }

  function WordsBytes(ws: seq<Word>): (b: seq<Byte>)
    ensures |b| == 4 * |ws|
  {
    if ws == [] then [] else WordsBytes(ws[..|ws| - 1]) + ToBytes(ws[|ws| - 1])
  }

  function Digest(m: seq<Byte>): (d: seq<Byte>)
    requires Hashable(m)
    ensures |d| == 32
  {
    WordsBytes(Words(HashFrom(INITIAL, Pad(m), 0)))
  }

  /** The padded message is the smallest whole number of blocks that holds the message, the
      mark and the length. */
  lemma PaddingIsMinimal(m: seq<Byte>)
    requires Hashable(m)
    ensures var p := Pad(m); |p| % 64 == 0 && |m| + 9 <= |p| < |m| + 9 + 64
  {}

  lemma FitsIn64(n: nat)
    requires n < TWO_TO_THE_32 * TWO_TO_THE_32
    ensures FitsIn(n, 8)
  {
    assert n / 256 < 0x100_0000_0000_0000 && n / 256 / 256 < 0x1_0000_0000_0000 && n / 256 / 256 / 256 < 0x100_0000_0000;
    var m := n / 256 / 256 / 256;
    assert m / 256 < 0x1_0000_0000 && m / 256 / 256 < 0x100_0000 && m / 256 / 256 / 256 < 0x1_0000;
    assert FitsIn(m / 256 / 256 / 256, 2);
    assert FitsIn(m, 5);
  }

  lemma LengthFieldInjective(x: nat, y: nat)
    requires 8 * x < TWO_TO_THE_32 * TWO_TO_THE_32 && 8 * y < TWO_TO_THE_32 * TWO_TO_THE_32
    requires LengthField(x) == LengthField(y)
    ensures x == y
  {
    hide BigEndian;
    FitsIn64(8 * x);
    FitsIn64(8 * y);
    BigEndianRoundTrip(8 * x, 8);
    BigEndianRoundTrip(8 * y, 8);
  }

  /** Different messages are padded differently. */
  lemma PaddingIsInjective(m: seq<Byte>, n: seq<Byte>)
    requires Hashable(m) && Hashable(n)
    requires Pad(m) == Pad(n)
    ensures m == n
  {
    var p, q := Pad(m), Pad(n);
    hide LengthField;
    assert p[|p| - 8..] == LengthField(|m|) && q[|q| - 8..] == LengthField(|n|);
    LengthFieldInjective(|m|, |n|);
    assert p[..|m|] == m && q[..|n|] == n;
  }

  /** The rotations the standard uses, as rotations. */
  lemma RotrRotates(x: Word)
    ensures Rotr(2, x) == x.RotateRight(2) && Rotr(13, x) == x.RotateRight(13) && Rotr(22, x) == x.RotateRight(22)
    ensures Rotr(6, x) == x.RotateRight(6) && Rotr(11, x) == x.RotateRight(11) && Rotr(25, x) == x.RotateRight(25)
    ensures Rotr(7, x) == x.RotateRight(7) && Rotr(18, x) == x.RotateRight(18)
    ensures Rotr(17, x) == x.RotateRight(17) && Rotr(19, x) == x.RotateRight(19)
  {}

  // ---------------------------------------------------------------------------------------
  // The program

  /** An integer as the 32-bit shift operators see it. */
  function ToInt32(x: int): int {
    (x + 0x8000_0000) % TWO_TO_THE_32 - 0x8000_0000
  }

  /** The length the program gives the padded buffer. */
  function PaddedLength(bytes: nat): int {
    ToInt32((ToInt32(bytes + 8) / 64 + 1) * 64)
  }

  /** Up to here the shifts do not wrap; beyond, the buffer cannot be made or filled. */
  const LIMIT: nat := 0x8000_0000 - 72

  lemma Int32Range(x: int)
    ensures ToInt32(x) < 0x8000_0000
    ensures -0x8000_0000 <= x < 0x8000_0000 ==> ToInt32(x) == x
    ensures 0x8000_0000 <= x < 0x1_8000_0000 ==> ToInt32(x) == x - TWO_TO_THE_32
  {}

  lemma PaddedLengthExactly(m: seq<Byte>)
    ensures |m| < LIMIT ==> Hashable(m) && PaddedLength(|m|) == |Pad(m)|
    ensures |m| >= LIMIT ==> PaddedLength(|m|) < |m|
  {
    var n := |m|;
    hide ToInt32;
    Int32Range(n + 8);
    var x := ToInt32(n + 8);
    Int32Range((x / 64 + 1) * 64);
    if n < LIMIT {
      assert x == n + 8 && (x / 64 + 1) * 64 < 0x8000_0000;
      PaddedSize(m);
    } else if n < 0x8000_0000 - 8 {
      assert x / 64 == 0x1ff_ffff;
    } else if n < 0x8000_0000 {
      assert x / 64 == -0x200_0000;
    }
  }

  lemma PaddedSize(m: seq<Byte>)
    requires Hashable(m)
    ensures |Pad(m)| == ((|m| + 8) / 64 + 1) * 64
  {
    PaddingIsMinimal(m);
    hide Pad;
    Blocks(|Pad(m)|, |m|);
  }

  lemma Blocks(p: nat, n: nat)
    requires p % 64 == 0 && n + 9 <= p < n + 73
    ensures p == ((n + 8) / 64 + 1) * 64
  {}

  method SetNumber(buffer: array<Byte>, pos: nat, n: nat)
    requires pos + 4 <= buffer.Length
    modifies buffer
    ensures buffer[..] == old(buffer[..pos]) + BigEndian(n, 4) + old(buffer[pos + 4..])
  {
    ghost var before := buffer[..];
    buffer[pos] := ByteOf(n / 0x100_0000 % 256);
    buffer[pos + 1] := ByteOf(n / 0x1_0000 % 256);
    buffer[pos + 2] := ByteOf(n / 0x100 % 256);
    buffer[pos + 3] := ByteOf(n % 256);
    FourBytes(n);
    assert buffer[..] == before[..pos] + BigEndian(n, 4) + before[pos + 4..];
  }

  method SetWord(buffer: array<Byte>, pos: nat, x: Word)
    requires pos + 4 <= buffer.Length
    modifies buffer
    ensures buffer[..] == old(buffer[..pos]) + ToBytes(x) + old(buffer[pos + 4..])
  {
    buffer[pos] := ((x >> 24) & 0xff) as Byte;
    buffer[pos + 1] := ((x >> 16) & 0xff) as Byte;
    buffer[pos + 2] := ((x >> 8) & 0xff) as Byte;
    buffer[pos + 3] := (x & 0xff) as Byte;
  }

  /** The padded copy of the data; null where the buffer cannot be made or filled. */
  method PadBuffer(data: array<Byte>) returns (padded: array?<Byte>)
    ensures padded == null <==> data.Length >= LIMIT
    ensures padded != null ==> fresh(padded) && Hashable(data[..]) && padded[..] == Pad(data[..])
  {
    hide PaddedLength, BigEndian, Pad;
    var size := PaddedLength(data.Length);
    PaddedLengthExactly(data[..]);
    ghost var m := data[..];
    assert |m| == data.Length;
    if size < data.Length {
      PaddedLonger(m);
      return null;
    }
    var bitLen := data.Length * 8;
    PaddedParts(m);
    padded := MarkedCopy(data, size);
    ghost var front := m + [0x80] + Zeros(ZeroCount(|m|));
    assert |front| == size - 8 && padded[..size - 8] == front;
    SetNumber(padded, padded.Length - 8, bitLen / TWO_TO_THE_32);
    assert padded[..size - 4] == front + BigEndian(bitLen / TWO_TO_THE_32, 4);
    SetNumber(padded, padded.Length - 4, bitLen % TWO_TO_THE_32);
    LengthHalves(bitLen);
    Grouped(padded[..], front, BigEndian(bitLen / TWO_TO_THE_32, 4), BigEndian(bitLen % TWO_TO_THE_32, 4));
    assert data[..] == m;
  }

  lemma Grouped<T>(all: seq<T>, a: seq<T>, b: seq<T>, c: seq<T>)
    requires all == a + b + c
    ensures all == a + (b + c)
  {}

  /** The data, the mark behind it, and zeros. */
  method MarkedCopy(data: array<Byte>, size: nat) returns (padded: array<Byte>)
    requires data.Length < size
    ensures fresh(padded) && padded.Length == size && padded[..] == data[..] + [0x80] + Zeros(size - data.Length - 1)
  {
    padded := new Byte[size](_ => 0);
    forall k | 0 <= k < data.Length {
      padded[k] := data[k];
    }
    padded[data.Length] := 0x80;
  }

  lemma PaddedParts(m: seq<Byte>)
    requires Hashable(m)
    ensures Pad(m) == m + [0x80] + Zeros(ZeroCount(|m|)) + BigEndian(8 * |m|, 8)
    ensures |Pad(m)| == |m| + 1 + ZeroCount(|m|) + 8
  {}

  lemma PaddedLonger(m: seq<Byte>)
    ensures |m| < LIMIT ==> Hashable(m) && |Pad(m)| > |m|
  {}

  lemma LengthHalves(n: nat)
    ensures BigEndian(n, 8) == BigEndian(n / TWO_TO_THE_32, 4) + BigEndian(n % TWO_TO_THE_32, 4)
  {
    hide BigEndian;
    assert Power256(4) == TWO_TO_THE_32;
    BigEndianParts(n / TWO_TO_THE_32, n % TWO_TO_THE_32, 4, 4);
  }

  lemma FirstWords(p: seq<Byte>, off: nat, i: nat)
    requires off + 64 <= |p| && i < 16
    ensures Schedule(BlockAt(p, off), i) == ToWord(p[off + i * 4], p[off + i * 4 + 1], p[off + i * 4 + 2], p[off + i * 4 + 3])
  {
    hide ToWord;
  }

  lemma LaterWord(block: seq<Word>, t: nat)
    requires |block| == 16 && t >= 16
    ensures Schedule(block, t) ==
            NextWord(Schedule(block, t - 2), Schedule(block, t - 7), Schedule(block, t - 15), Schedule(block, t - 16))
  {
    hide NextWord;
  }

  /** The first loops of a block: sixteen words of it, and the rest of the schedule. */
  method ExpandBlock(padded: array<Byte>, off: nat, w: array<Word>)
    requires off + 64 <= padded.Length && w.Length == 64
    modifies w
    ensures forall t :: 0 <= t < 64 ==> w[t] == Schedule(BlockAt(padded[..], off), t)
  {
    ghost var block := BlockAt(padded[..], off);
    hide ToWord, NextWord, Schedule, BlockAt;
    for i := 0 to 16
      modifies w
      invariant forall t :: 0 <= t < i ==> w[t] == Schedule(block, t)
    {
      FirstWords(padded[..], off, i);
      w[i] := ToWord(padded[off + i * 4], padded[off + i * 4 + 1], padded[off + i * 4 + 2], padded[off + i * 4 + 3]);
    }
    ExpandRest(w, block);
  }

  /** The second loop. */
  method ExpandRest(w: array<Word>, ghost block: seq<Word>)
    requires |block| == 16 && w.Length == 64 && forall t :: 0 <= t < 16 ==> w[t] == Schedule(block, t)
    modifies w
    ensures forall t :: 0 <= t < 64 ==> w[t] == Schedule(block, t)
  {
    hide NextWord, Schedule;
    for i := 16 to 64
      invariant forall t :: 0 <= t < i ==> w[t] == Schedule(block, t)
    {
      LaterWord(block, i);
      w[i] := ComputeNext(w[i - 2], w[i - 7], w[i - 15], w[i - 16]);
    }
  }

  method ComputeNext(w2: Word, w7: Word, w15: Word, w16: Word) returns (x: Word)
    ensures x == NextWord(w2, w7, w15, w16)
  {
    hide Rotr, Sum4, Xor, Shr;
    var s0 := Xor(Xor(Rotr(7, w15), Rotr(18, w15)), Shr(3, w15));
    var s1 := Xor(Xor(Rotr(17, w2), Rotr(19, w2)), Shr(10, w2));
    Sum4Turned(w16, s0, w7, s1);
    x := Sum4(w16, s0, w7, s1);
  }

  lemma Sum4Turned(a: Word, b: Word, c: Word, d: Word)
    ensures Sum4(a, b, c, d) == Sum4(d, c, b, a)
  {}

  function Hashes(h: array<Word>): State
    requires h.Length == 8
    reads h
  {
    State(h[0], h[1], h[2], h[3], h[4], h[5], h[6], h[7])
  }

  /** One turn of the round loop. */
  method ComputeRound(s: State, k: Word, w: Word) returns (r: State)
    ensures r == Round(s, k, w)
  {
    hide Plus, Rotr, Xor, And, Not;
    var State(a, b, c, d, e, f, g, hh) := s;
    var bigS1 := Xor(Xor(Rotr(6, e), Rotr(11, e)), Rotr(25, e));
    var ch := Xor(And(e, f), And(Not(e), g));
    var t1 := Plus(Plus(Plus(Plus(hh, bigS1), ch), k), w);
    var bigS0 := Xor(Xor(Rotr(2, a), Rotr(13, a)), Rotr(22, a));
    var maj := Xor(Xor(And(a, b), And(a, c)), And(b, c));
    var t2 := Plus(bigS0, maj);
    hh := g;
    g := f;
    f := e;
    e := Plus(d, t1);
    d := c;
    c := b;
    b := a;
    a := Plus(t1, t2);
    r := State(a, b, c, d, e, f, g, hh);
  }

  /** The last loop of a block: sixty-four rounds on the working variables, added to the hash. */
  method CompressBlock(h: array<Word>, w: array<Word>, ghost block: seq<Word>)
    requires h.Length == 8 && w.Length == 64 && h != w && |block| == 16
    requires forall t :: 0 <= t < 64 ==> w[t] == Schedule(block, t)
    modifies h
    ensures Hashes(h) == Compress(old(Hashes(h)), block)
  {
    hide Round, K, Schedule, Add;
    ghost var start := Hashes(h);
    var working := Hashes(h);
    for i := 0 to 64
      invariant Hashes(h) == start && working == Rounds(start, block, i)
      invariant forall t :: 0 <= t < 64 ==> w[t] == Schedule(block, t)
    {
      working := ComputeRound(working, K()[i], w[i]);
    }
    AddInto(h, working);
    assert Hashes(h) == Add(start, Rounds(start, block, 64));
  }

  method AddInto(h: array<Word>, x: State)
    requires h.Length == 8
    modifies h
    ensures Hashes(h) == Add(old(Hashes(h)), x)
  {
    hide Plus;
    h[0], h[1], h[2], h[3] := Plus(h[0], x.a), Plus(h[1], x.b), Plus(h[2], x.c), Plus(h[3], x.d);
    h[4], h[5], h[6], h[7] := Plus(h[4], x.e), Plus(h[5], x.f), Plus(h[6], x.g), Plus(h[7], x.h);
  }

  /** The hash of the data; null where the program throws a RangeError. */
  method Hash(data: array<Byte>) returns (out: array?<Byte>)
    ensures out == null <==> data.Length >= LIMIT
    ensures out != null ==> fresh(out) && Hashable(data[..]) && out[..] == Digest(data[..])
  {
    var padded := PadBuffer(data);
    if padded == null {
      return null;
    }
    hide Pad, HashFrom, WordsBytes;
    var h := new Word[8];
    h[0], h[1], h[2], h[3] := 0x6a09e667, 0xbb67ae85, 0x3c6ef372, 0xa54ff53a;
    h[4], h[5], h[6], h[7] := 0x510e527f, 0x9b05688c, 0x1f83d9ab, 0x5be0cd19;
    var w := new Word[64];
    assert Hashes(h) == INITIAL;
    HashBlocks(padded, h, w);
    out := WriteOut(h);
  }

  /** The loop over the blocks. */
  method HashBlocks(padded: array<Byte>, h: array<Word>, w: array<Word>)
    requires padded.Length % 64 == 0 && h.Length == 8 && w.Length == 64 && h != w
    modifies h, w
    ensures Hashes(h) == HashFrom(old(Hashes(h)), padded[..], 0)
  {
    hide Compress, Schedule, BlockAt, HashFrom;
    ghost var p, start := padded[..], Hashes(h);
    var off := 0;
    while off < padded.Length
      invariant 0 <= off <= padded.Length && off % 64 == 0 && padded[..] == p
      invariant HashFrom(Hashes(h), p, off) == HashFrom(start, p, 0)
    {
      HashStep(Hashes(h), p, off);
      ExpandBlock(padded, off, w);
      CompressBlock(h, w, BlockAt(p, off));
      off := off + 64;
    }
    HashEnd(Hashes(h), p);
  }

  lemma HashStep(s: State, p: seq<Byte>, off: nat)
    requires |p| % 64 == 0 && off % 64 == 0 && off < |p|
    ensures off + 64 <= |p| && HashFrom(s, p, off) == HashFrom(Compress(s, BlockAt(p, off)), p, off + 64)
  {
    hide Compress, BlockAt;
  }

  lemma HashEnd(s: State, p: seq<Byte>)
    requires |p| % 64 == 0
    ensures HashFrom(s, p, |p|) == s
  {}

  method WriteOut(h: array<Word>) returns (out: array<Byte>)
    requires h.Length == 8
    ensures fresh(out) && out[..] == WordsBytes(Words(Hashes(h)))
  {
    hide ToBytes;
    out := new Byte[32](_ => 0);
    for i := 0 to 8
      invariant out[..4 * i] == WordsBytes(h[..i])
    {
      ghost var before := out[..];
      SetWord(out, i * 4, h[i]);
      assert h[..i + 1][..i] == h[..i];
      assert out[..4 * (i + 1)] == before[..4 * i] + ToBytes(h[i]);
    }
    assert out[..] == out[..32] && h[..8] == Words(Hashes(h));
  }

  // ---------------------------------------------------------------------------------------
  // RFC 2104, section 2

  const BLOCK := 64

  /** The key, hashed if it is longer than a block, with zeros behind it up to a block. */
  function BlockKey(key: seq<Byte>): (k: seq<Byte>)
    requires Hashable(key)
    ensures |k| == BLOCK
  {
    var k := if |key| > BLOCK then Digest(key) else key;
    k + Zeros(BLOCK - |k|)
  }

  function XorAll(k: seq<Byte>, b: Byte): (r: seq<Byte>)
    ensures |r| == |k| && forall i :: 0 <= i < |k| ==> r[i] == k[i] ^ b
  {
    seq(|k|, i requires 0 <= i < |k| => k[i] ^ b)
  }

  function Hmac(key: seq<Byte>, text: seq<Byte>): seq<Byte>
    requires Hashable(key) && 8 * (BLOCK + |text|) < TWO_TO_THE_32 * TWO_TO_THE_32
  {
    Digest(XorAll(BlockKey(key), 0x5c) + Digest(XorAll(BlockKey(key), 0x36) + text))
  }

  method HmacSha256(key: array<Byte>, msg: array<Byte>) returns (out: array?<Byte>)
    ensures out == null <==> key.Length >= LIMIT || BLOCK + msg.Length >= LIMIT
    ensures out != null ==> Hashable(key[..]) && 8 * (BLOCK + msg.Length) < TWO_TO_THE_32 * TWO_TO_THE_32 && out[..] == Hmac(key[..], msg[..])
  {
    hide Pad, Digest, Hmac;
    ghost var keyBytes, text := key[..], msg[..];
    var k: array<Byte> := key;
    if key.Length > BLOCK {
      var hashed := Hash(key);
      if hashed == null {
        return null;
      }
      k := hashed;
    }
    ghost var blockKey := BlockKey(keyBytes);
    assert blockKey == k[..] + Zeros(BLOCK - k.Length);
    var ipad, opad := FillPads(k, msg, blockKey);
    var inner := Hash(ipad);
    if inner == null {
      return null;
    }
    ghost var ipadBytes, innerBytes := ipad[..], inner[..];
    forall j | 0 <= j < 32 {
      opad[BLOCK + j] := inner[j];
    }
    assert opad[..] == XorAll(blockKey, 0x5c) + innerBytes;
    out := Hash(opad);
    HmacIs(keyBytes, text, ipadBytes, XorAll(blockKey, 0x5c) + innerBytes, innerBytes);
    assert key[..] == keyBytes && msg[..] == text;
  }

  /** The loop that fills both pads, and the text behind the inner one. */
  method FillPads(k: array<Byte>, msg: array<Byte>, ghost blockKey: seq<Byte>) returns (ipad: array<Byte>, opad: array<Byte>)
    requires k.Length <= BLOCK && blockKey == k[..] + Zeros(BLOCK - k.Length)
    ensures fresh(ipad) && fresh(opad) && ipad != opad
    ensures ipad[..] == XorAll(blockKey, 0x36) + msg[..]
    ensures opad.Length == BLOCK + 32 && opad[..BLOCK] == XorAll(blockKey, 0x5c)
  {
    ipad, opad := new Byte[BLOCK + msg.Length](_ => 0), new Byte[BLOCK + 32](_ => 0);
    for i := 0 to BLOCK
      invariant forall j :: 0 <= j < i ==> ipad[j] == blockKey[j] ^ 0x36 && opad[j] == blockKey[j] ^ 0x5c
    {
      var kb := if i < k.Length then k[i] else 0;
      ipad[i] := kb ^ 0x36;
      opad[i] := kb ^ 0x5c;
    }
    forall j | 0 <= j < msg.Length {
      ipad[BLOCK + j] := msg[j];
    }
    assert ipad[..BLOCK] == XorAll(blockKey, 0x36) && ipad[BLOCK..] == msg[..];
  }

  lemma HmacIs(key: seq<Byte>, text: seq<Byte>, ipad: seq<Byte>, opad: seq<Byte>, inner: seq<Byte>)
    requires |key| < LIMIT && BLOCK + |text| < LIMIT
    requires ipad == XorAll(BlockKey(key), 0x36) + text && inner == Digest(ipad) && opad == XorAll(BlockKey(key), 0x5c) + inner
    ensures Digest(opad) == Hmac(key, text)
  {
    hide Digest, XorAll, BlockKey;
  }

  /** Section 2 of RFC 2104, byte by byte: for a key of at most 64 bytes the digest of the key, zero
      bytes behind it, combined with 0x5c, before the digest of the same combined with 0x36 before
      the text. */
  lemma HmacOfShortKey(key: seq<Byte>, text: seq<Byte>, outer: seq<Byte>, inner: seq<Byte>)
    requires |key| <= 64 == |outer| == |inner| && 8 * (64 + |text|) < TWO_TO_THE_32 * TWO_TO_THE_32
    requires forall j :: 0 <= j < 64 ==> outer[j] == (if j < |key| then key[j] else 0) ^ 0x5c
    requires forall j :: 0 <= j < 64 ==> inner[j] == (if j < |key| then key[j] else 0) ^ 0x36
    ensures Hashable(key) && Hmac(key, text) == Digest(outer + Digest(inner + text))
  {
    hide Digest;
    var k := BlockKey(key);
    assert forall j :: 0 <= j < 64 ==> k[j] == if j < |key| then key[j] else 0;
    assert XorAll(k, 0x5c) == outer && XorAll(k, 0x36) == inner;
  }

  /** And a longer key counts as its digest. */
  lemma HmacOfLongKey(key: seq<Byte>, text: seq<Byte>)
    requires |key| > 64 && Hashable(key) && 8 * (64 + |text|) < TWO_TO_THE_32 * TWO_TO_THE_32
    ensures Hashable(Digest(key)) && Hmac(key, text) == Hmac(Digest(key), text)
  {
    hide Digest;
  }
}
