/** The constants of SHA-256 as the standard defines them, and its example for a message of one
    block. */
module Sha256Example {
  import opened Bytes
  import opened Sha256

  // ---------------------------------------------------------------------------------------
  // FIPS 180-4, sections 4.2.2 and 5.3.3: where the constants come from

  /** The word is the first 32 bits of the fractional part of the cube root of p. */
  predicate FromCubeRoot(p: nat, k: Word) {
    exists whole: nat :: whole < 7 && CubeRootIs(p, whole * 0x1_0000_0000 + k as nat)
  }

  /** n is the cube root of p in units of 2^-32, rounded down. */
  predicate CubeRootIs(p: nat, n: nat) {
    n * n * n <= p * 0x1_0000_0000_0000_0000_0000_0000 < (n + 1) * (n + 1) * (n + 1)
  }

  predicate FromSquareRoot(p: nat, k: Word) {
    exists whole: nat :: whole < 5 && SquareRootIs(p, whole * 0x1_0000_0000 + k as nat)
  }

  predicate SquareRootIs(p: nat, n: nat) {
    n * n <= p * 0x1_0000_0000_0000_0000 < (n + 1) * (n + 1)
  }

  /** Of the primes from 2 to 19. */
  lemma CubeRoots0()
    ensures FromCubeRoot(2, ROW0[0])
    ensures FromCubeRoot(3, ROW0[1])
    ensures FromCubeRoot(5, ROW0[2])
    ensures FromCubeRoot(7, ROW0[3])
    ensures FromCubeRoot(11, ROW0[4])
    ensures FromCubeRoot(13, ROW0[5])
    ensures FromCubeRoot(17, ROW0[6])
    ensures FromCubeRoot(19, ROW0[7])
  {
    assert CubeRootIs(2, 1 * 0x1_0000_0000 + ROW0[0] as nat);
    assert CubeRootIs(3, 1 * 0x1_0000_0000 + ROW0[1] as nat);
    assert CubeRootIs(5, 1 * 0x1_0000_0000 + ROW0[2] as nat);
    assert CubeRootIs(7, 1 * 0x1_0000_0000 + ROW0[3] as nat);
    assert CubeRootIs(11, 2 * 0x1_0000_0000 + ROW0[4] as nat);
    assert CubeRootIs(13, 2 * 0x1_0000_0000 + ROW0[5] as nat);
    assert CubeRootIs(17, 2 * 0x1_0000_0000 + ROW0[6] as nat);
    assert CubeRootIs(19, 2 * 0x1_0000_0000 + ROW0[7] as nat);
  }

  /** Of the primes from 23 to 53. */
  lemma CubeRoots1()
    ensures FromCubeRoot(23, ROW1[0])
    ensures FromCubeRoot(29, ROW1[1])
    ensures FromCubeRoot(31, ROW1[2])
    ensures FromCubeRoot(37, ROW1[3])
    ensures FromCubeRoot(41, ROW1[4])
    ensures FromCubeRoot(43, ROW1[5])
    ensures FromCubeRoot(47, ROW1[6])
    ensures FromCubeRoot(53, ROW1[7])
  {
    assert CubeRootIs(23, 2 * 0x1_0000_0000 + ROW1[0] as nat);
    assert CubeRootIs(29, 3 * 0x1_0000_0000 + ROW1[1] as nat);
    assert CubeRootIs(31, 3 * 0x1_0000_0000 + ROW1[2] as nat);
    assert CubeRootIs(37, 3 * 0x1_0000_0000 + ROW1[3] as nat);
    assert CubeRootIs(41, 3 * 0x1_0000_0000 + ROW1[4] as nat);
    assert CubeRootIs(43, 3 * 0x1_0000_0000 + ROW1[5] as nat);
    assert CubeRootIs(47, 3 * 0x1_0000_0000 + ROW1[6] as nat);
    assert CubeRootIs(53, 3 * 0x1_0000_0000 + ROW1[7] as nat);
  }

  /** Of the primes from 59 to 89. */
  lemma CubeRoots2()
    ensures FromCubeRoot(59, ROW2[0])
    ensures FromCubeRoot(61, ROW2[1])
    ensures FromCubeRoot(67, ROW2[2])
    ensures FromCubeRoot(71, ROW2[3])
    ensures FromCubeRoot(73, ROW2[4])
    ensures FromCubeRoot(79, ROW2[5])
    ensures FromCubeRoot(83, ROW2[6])
    ensures FromCubeRoot(89, ROW2[7])
  {
    assert CubeRootIs(59, 3 * 0x1_0000_0000 + ROW2[0] as nat);
    assert CubeRootIs(61, 3 * 0x1_0000_0000 + ROW2[1] as nat);
    assert CubeRootIs(67, 4 * 0x1_0000_0000 + ROW2[2] as nat);
    assert CubeRootIs(71, 4 * 0x1_0000_0000 + ROW2[3] as nat);
    assert CubeRootIs(73, 4 * 0x1_0000_0000 + ROW2[4] as nat);
    assert CubeRootIs(79, 4 * 0x1_0000_0000 + ROW2[5] as nat);
    assert CubeRootIs(83, 4 * 0x1_0000_0000 + ROW2[6] as nat);
    assert CubeRootIs(89, 4 * 0x1_0000_0000 + ROW2[7] as nat);
  }

  /** Of the primes from 97 to 131. */
  lemma CubeRoots3()
    ensures FromCubeRoot(97, ROW3[0])
    ensures FromCubeRoot(101, ROW3[1])
    ensures FromCubeRoot(103, ROW3[2])
    ensures FromCubeRoot(107, ROW3[3])
    ensures FromCubeRoot(109, ROW3[4])
    ensures FromCubeRoot(113, ROW3[5])
    ensures FromCubeRoot(127, ROW3[6])
    ensures FromCubeRoot(131, ROW3[7])
  {
    assert CubeRootIs(97, 4 * 0x1_0000_0000 + ROW3[0] as nat);
    assert CubeRootIs(101, 4 * 0x1_0000_0000 + ROW3[1] as nat);
    assert CubeRootIs(103, 4 * 0x1_0000_0000 + ROW3[2] as nat);
    assert CubeRootIs(107, 4 * 0x1_0000_0000 + ROW3[3] as nat);
    assert CubeRootIs(109, 4 * 0x1_0000_0000 + ROW3[4] as nat);
    assert CubeRootIs(113, 4 * 0x1_0000_0000 + ROW3[5] as nat);
    assert CubeRootIs(127, 5 * 0x1_0000_0000 + ROW3[6] as nat);
    assert CubeRootIs(131, 5 * 0x1_0000_0000 + ROW3[7] as nat);
  }

  /** Of the primes from 137 to 173. */
  lemma CubeRoots4()
    ensures FromCubeRoot(137, ROW4[0])
    ensures FromCubeRoot(139, ROW4[1])
    ensures FromCubeRoot(149, ROW4[2])
    ensures FromCubeRoot(151, ROW4[3])
    ensures FromCubeRoot(157, ROW4[4])
    ensures FromCubeRoot(163, ROW4[5])
    ensures FromCubeRoot(167, ROW4[6])
    ensures FromCubeRoot(173, ROW4[7])
  {
    assert CubeRootIs(137, 5 * 0x1_0000_0000 + ROW4[0] as nat);
    assert CubeRootIs(139, 5 * 0x1_0000_0000 + ROW4[1] as nat);
    assert CubeRootIs(149, 5 * 0x1_0000_0000 + ROW4[2] as nat);
    assert CubeRootIs(151, 5 * 0x1_0000_0000 + ROW4[3] as nat);
    assert CubeRootIs(157, 5 * 0x1_0000_0000 + ROW4[4] as nat);
    assert CubeRootIs(163, 5 * 0x1_0000_0000 + ROW4[5] as nat);
    assert CubeRootIs(167, 5 * 0x1_0000_0000 + ROW4[6] as nat);
    assert CubeRootIs(173, 5 * 0x1_0000_0000 + ROW4[7] as nat);
  }

  /** Of the primes from 179 to 223. */
  lemma CubeRoots5()
    ensures FromCubeRoot(179, ROW5[0])
    ensures FromCubeRoot(181, ROW5[1])
    ensures FromCubeRoot(191, ROW5[2])
    ensures FromCubeRoot(193, ROW5[3])
    ensures FromCubeRoot(197, ROW5[4])
    ensures FromCubeRoot(199, ROW5[5])
    ensures FromCubeRoot(211, ROW5[6])
    ensures FromCubeRoot(223, ROW5[7])
  {
    assert CubeRootIs(179, 5 * 0x1_0000_0000 + ROW5[0] as nat);
    assert CubeRootIs(181, 5 * 0x1_0000_0000 + ROW5[1] as nat);
    assert CubeRootIs(191, 5 * 0x1_0000_0000 + ROW5[2] as nat);
    assert CubeRootIs(193, 5 * 0x1_0000_0000 + ROW5[3] as nat);
    assert CubeRootIs(197, 5 * 0x1_0000_0000 + ROW5[4] as nat);
    assert CubeRootIs(199, 5 * 0x1_0000_0000 + ROW5[5] as nat);
    assert CubeRootIs(211, 5 * 0x1_0000_0000 + ROW5[6] as nat);
    assert CubeRootIs(223, 6 * 0x1_0000_0000 + ROW5[7] as nat);
  }

  /** Of the primes from 227 to 263. */
  lemma CubeRoots6()
    ensures FromCubeRoot(227, ROW6[0])
    ensures FromCubeRoot(229, ROW6[1])
    ensures FromCubeRoot(233, ROW6[2])
    ensures FromCubeRoot(239, ROW6[3])
    ensures FromCubeRoot(241, ROW6[4])
    ensures FromCubeRoot(251, ROW6[5])
    ensures FromCubeRoot(257, ROW6[6])
    ensures FromCubeRoot(263, ROW6[7])
  {
    assert CubeRootIs(227, 6 * 0x1_0000_0000 + ROW6[0] as nat);
    assert CubeRootIs(229, 6 * 0x1_0000_0000 + ROW6[1] as nat);
    assert CubeRootIs(233, 6 * 0x1_0000_0000 + ROW6[2] as nat);
    assert CubeRootIs(239, 6 * 0x1_0000_0000 + ROW6[3] as nat);
    assert CubeRootIs(241, 6 * 0x1_0000_0000 + ROW6[4] as nat);
    assert CubeRootIs(251, 6 * 0x1_0000_0000 + ROW6[5] as nat);
    assert CubeRootIs(257, 6 * 0x1_0000_0000 + ROW6[6] as nat);
    assert CubeRootIs(263, 6 * 0x1_0000_0000 + ROW6[7] as nat);
  }

  /** Of the primes from 269 to 311. */
  lemma CubeRoots7()
    ensures FromCubeRoot(269, ROW7[0])
    ensures FromCubeRoot(271, ROW7[1])
    ensures FromCubeRoot(277, ROW7[2])
    ensures FromCubeRoot(281, ROW7[3])
    ensures FromCubeRoot(283, ROW7[4])
    ensures FromCubeRoot(293, ROW7[5])
    ensures FromCubeRoot(307, ROW7[6])
    ensures FromCubeRoot(311, ROW7[7])
  {
    assert CubeRootIs(269, 6 * 0x1_0000_0000 + ROW7[0] as nat);
    assert CubeRootIs(271, 6 * 0x1_0000_0000 + ROW7[1] as nat);
    assert CubeRootIs(277, 6 * 0x1_0000_0000 + ROW7[2] as nat);
    assert CubeRootIs(281, 6 * 0x1_0000_0000 + ROW7[3] as nat);
    assert CubeRootIs(283, 6 * 0x1_0000_0000 + ROW7[4] as nat);
    assert CubeRootIs(293, 6 * 0x1_0000_0000 + ROW7[5] as nat);
    assert CubeRootIs(307, 6 * 0x1_0000_0000 + ROW7[6] as nat);
    assert CubeRootIs(311, 6 * 0x1_0000_0000 + ROW7[7] as nat);
  }

  /** The initial hash value comes from the square roots of the first eight primes. */
  lemma SquareRoots()
    ensures FromSquareRoot(2, INITIAL.a)
    ensures FromSquareRoot(3, INITIAL.b)
    ensures FromSquareRoot(5, INITIAL.c)
    ensures FromSquareRoot(7, INITIAL.d)
    ensures FromSquareRoot(11, INITIAL.e)
    ensures FromSquareRoot(13, INITIAL.f)
    ensures FromSquareRoot(17, INITIAL.g)
    ensures FromSquareRoot(19, INITIAL.h)
  {
    assert SquareRootIs(2, 1 * 0x1_0000_0000 + INITIAL.a as nat);
    assert SquareRootIs(3, 1 * 0x1_0000_0000 + INITIAL.b as nat);
    assert SquareRootIs(5, 2 * 0x1_0000_0000 + INITIAL.c as nat);
    assert SquareRootIs(7, 2 * 0x1_0000_0000 + INITIAL.d as nat);
    assert SquareRootIs(11, 3 * 0x1_0000_0000 + INITIAL.e as nat);
    assert SquareRootIs(13, 3 * 0x1_0000_0000 + INITIAL.f as nat);
    assert SquareRootIs(17, 4 * 0x1_0000_0000 + INITIAL.g as nat);
    assert SquareRootIs(19, 4 * 0x1_0000_0000 + INITIAL.h as nat);
  }

  // ---------------------------------------------------------------------------------------
  // Schedules and rounds, eight words at a time

  /** The words of a schedule that follow two rows of it. */
  predicate Follows(p: seq<Word>, q: seq<Word>, row: seq<Word>)
    requires |p| == |q| == |row| == 8
  {
    && row[0] == NextWord(q[6], q[1], p[1], p[0])
    && row[1] == NextWord(q[7], q[2], p[2], p[1])
    && row[2] == NextWord(row[0], q[3], p[3], p[2])
    && row[3] == NextWord(row[1], q[4], p[4], p[3])
    && row[4] == NextWord(row[2], q[5], p[5], p[4])
    && row[5] == NextWord(row[3], q[6], p[6], p[5])
    && row[6] == NextWord(row[4], q[7], p[7], p[6])
    && row[7] == NextWord(row[5], row[0], q[0], p[7])
  }

  /** Eight rounds, from the constants and the words of a row. */
  function EightRounds(s: State, k: seq<Word>, w: seq<Word>): State
    requires |k| == |w| == 8
  {
    var s4 := Round(Round(Round(Round(s, k[0], w[0]), k[1], w[1]), k[2], w[2]), k[3], w[3]);
    Round(Round(Round(Round(s4, k[4], w[4]), k[5], w[5]), k[6], w[6]), k[7], w[7])
  }

  /** Rows of which each follows the two before it are the schedule of the first two. */
  ghost predicate IsSchedule(block: seq<Word>, rows: seq<seq<Word>>)
  {
    && |block| == 16 && |rows| == 8 && (forall k :: 0 <= k < 8 ==> |rows[k]| == 8)
    && block == rows[0] + rows[1]
    && forall k :: 2 <= k < 8 ==> Follows(rows[k - 2], rows[k - 1], rows[k])
  }

  lemma WordFollows(p: seq<Word>, q: seq<Word>, row: seq<Word>, i: nat)
    requires |p| == |q| == |row| == 8 && i < 8 && Follows(p, q, row)
    ensures row[i] == NextWord(if i >= 2 then row[i - 2] else q[i + 6], if i >= 7 then row[i - 7] else q[i + 1],
                               if i >= 7 then q[i - 7] else p[i + 1], p[i])
  {
    hide NextWord;
  }

  /** Where the words that a word is made of are in the rows. */
  lemma Places(t: nat)
    requires 16 <= t < 64
    ensures var k, i := t / 8, t % 8;
            && (t - 16) / 8 == k - 2 && (t - 16) % 8 == i
            && (if i == 7 then (t - 15) / 8 == k - 1 && (t - 15) % 8 == 0 else (t - 15) / 8 == k - 2 && (t - 15) % 8 == i + 1)
            && (if i == 7 then (t - 7) / 8 == k && (t - 7) % 8 == 0 else (t - 7) / 8 == k - 1 && (t - 7) % 8 == i + 1)
            && (if i >= 2 then (t - 2) / 8 == k && (t - 2) % 8 == i - 2 else (t - 2) / 8 == k - 1 && (t - 2) % 8 == i + 6)
  {}

  lemma FirstRows(block: seq<Word>, rows: seq<seq<Word>>, t: nat)
    requires IsSchedule(block, rows) && t < 16
    ensures Schedule(block, t) == rows[t / 8][t % 8]
  {
    hide NextWord, Follows;
    assert t < 8 ==> block[t] == rows[0][t];
    assert t >= 8 ==> block[t] == rows[1][t - 8];
  }

  lemma {:induction false} ScheduleIs(block: seq<Word>, rows: seq<seq<Word>>, t: nat)
    requires IsSchedule(block, rows) && t < 64
    ensures Schedule(block, t) == rows[t / 8][t % 8]
  {
    hide NextWord, Follows, Schedule;
    if t < 16 {
      FirstRows(block, rows, t);
    } else {
      var k, i := t / 8, t % 8;
      assert Follows(rows[k - 2], rows[k - 1], rows[k]);
      Places(t);
      hide IsSchedule;
      LaterWord(block, t);
      ScheduleIs(block, rows, t - 2);
      ScheduleIs(block, rows, t - 7);
      ScheduleIs(block, rows, t - 15);
      ScheduleIs(block, rows, t - 16);
      WordFollows(rows[k - 2], rows[k - 1], rows[k], i);
    }
  }

  /** Rows that are the constants of the rounds. */
  ghost predicate AreConstants(ks: seq<seq<Word>>) {
    |ks| == 8 && (forall k :: 0 <= k < 8 ==> |ks[k]| == 8) && forall t :: 0 <= t < 64 ==> K()[t] == ks[t / 8][t % 8]
  }

  const KROWS: seq<seq<Word>> := [ROW0, ROW1, ROW2, ROW3, ROW4, ROW5, ROW6, ROW7]

  lemma RowsAreConstants()
    ensures AreConstants(KROWS)
  {
    forall t | 0 <= t < 64
      ensures K()[t] == KROWS[t / 8][t % 8]
    {
      OfEight(ROW0, ROW1, ROW2, ROW3, ROW4, ROW5, ROW6, ROW7, t / 8, t % 8);
    }
  }

  lemma OfEight(a: seq<Word>, b: seq<Word>, c: seq<Word>, d: seq<Word>, e: seq<Word>, f: seq<Word>, g: seq<Word>, h: seq<Word>, r: nat, i: nat)
    requires |a| == |b| == |c| == |d| == |e| == |f| == |g| == |h| == 8 && r < 8 && i < 8
    ensures (a + b + c + d + e + f + g + h)[8 * r + i] == [a, b, c, d, e, f, g, h][r][i]
  {}

  lemma NextRound(s: State, block: seq<Word>, ks: seq<seq<Word>>, rows: seq<seq<Word>>, t: nat)
    requires AreConstants(ks) && IsSchedule(block, rows) && t < 64
    ensures Rounds(s, block, t + 1) == Round(Rounds(s, block, t), ks[t / 8][t % 8], rows[t / 8][t % 8])
  {
    ScheduleIs(block, rows, t);
    hide Round, Schedule, K;
  }

  lemma RowRound(s: State, block: seq<Word>, ks: seq<seq<Word>>, rows: seq<seq<Word>>, k: nat, i: nat)
    requires AreConstants(ks) && IsSchedule(block, rows) && k < 8 && i < 8
    ensures Rounds(s, block, 8 * k + i + 1) == Round(Rounds(s, block, 8 * k + i), ks[k][i], rows[k][i])
  {
    assert (8 * k + i) / 8 == k && (8 * k + i) % 8 == i;
    hide Round, Rounds, IsSchedule, AreConstants;
    NextRound(s, block, ks, rows, 8 * k + i);
  }

  function FourRounds(s: State, k: seq<Word>, w: seq<Word>, i: nat): State
    requires |k| == |w| == 8 && i <= 4
  {
    Round(Round(Round(Round(s, k[i], w[i]), k[i + 1], w[i + 1]), k[i + 2], w[i + 2]), k[i + 3], w[i + 3])
  }

  lemma TwoHalves(s: State, k: seq<Word>, w: seq<Word>)
    requires |k| == |w| == 8
    ensures EightRounds(s, k, w) == FourRounds(FourRounds(s, k, w, 0), k, w, 4)
  {
    hide Round;
  }

  lemma Lengths(block: seq<Word>, ks: seq<seq<Word>>, rows: seq<seq<Word>>)
    requires AreConstants(ks) && IsSchedule(block, rows)
    ensures |block| == 16 && |ks| == |rows| == 8 && forall k :: 0 <= k < 8 ==> |ks[k]| == |rows[k]| == 8
  {
    hide Follows, K;
  }

  lemma Chained(s0: State, s1: State, s2: State, s3: State, s4: State, k: seq<Word>, w: seq<Word>, i: nat)
    requires |k| == |w| == 8 && i <= 4
    requires s1 == Round(s0, k[i], w[i]) && s2 == Round(s1, k[i + 1], w[i + 1])
    requires s3 == Round(s2, k[i + 2], w[i + 2]) && s4 == Round(s3, k[i + 3], w[i + 3])
    ensures s4 == FourRounds(s0, k, w, i)
  {
    hide Round;
  }

  lemma HalfRow(s: State, block: seq<Word>, ks: seq<seq<Word>>, rows: seq<seq<Word>>, k: nat, i: nat)
    requires AreConstants(ks) && IsSchedule(block, rows) && k < 8 && i <= 4
    ensures Rounds(s, block, 8 * k + i + 4) == FourRounds(Rounds(s, block, 8 * k + i), ks[k], rows[k], i)
  {
    assert |ks[k]| == |rows[k]| == 8;
    var kr, wr := ks[k], rows[k];
    hide Round, Rounds, IsSchedule, AreConstants;
    RowRound(s, block, ks, rows, k, i);
    RowRound(s, block, ks, rows, k, i + 1);
    RowRound(s, block, ks, rows, k, i + 2);
    RowRound(s, block, ks, rows, k, i + 3);
    Chained(Rounds(s, block, 8 * k + i), Rounds(s, block, 8 * k + i + 1), Rounds(s, block, 8 * k + i + 2),
            Rounds(s, block, 8 * k + i + 3), Rounds(s, block, 8 * k + i + 4), kr, wr, i);
  }

  lemma NextRow(s: State, block: seq<Word>, ks: seq<seq<Word>>, rows: seq<seq<Word>>, k: nat)
    requires AreConstants(ks) && IsSchedule(block, rows) && k < 8
    ensures Rounds(s, block, 8 * k + 8) == EightRounds(Rounds(s, block, 8 * k), ks[k], rows[k])
  {
    hide *;
    Lengths(block, ks, rows);
    HalfRow(s, block, ks, rows, k, 0);
    HalfRow(s, block, ks, rows, k, 4);
    TwoHalves(Rounds(s, block, 8 * k), ks[k], rows[k]);
  }

  // ---------------------------------------------------------------------------------------
  // The message "abc": the one block, its schedule and its rounds

  const ABC: seq<Byte> := [0x61, 0x62, 0x63]

  const WORDS0: seq<Word> := [0x61626380, 0x00000000, 0x00000000, 0x00000000, 0x00000000, 0x00000000, 0x00000000, 0x00000000]
  const WORDS1: seq<Word> := [0x00000000, 0x00000000, 0x00000000, 0x00000000, 0x00000000, 0x00000000, 0x00000000, 0x00000018]
  const WORDS2: seq<Word> := [0x61626380, 0x000f0000, 0x7da86405, 0x600003c6, 0x3e9d7b78, 0x0183fc00, 0x12dcbfdb, 0xe2e2c38e]
  const WORDS3: seq<Word> := [0xc8215c1a, 0xb73679a2, 0xe5bc3909, 0x32663c5b, 0x9d209d67, 0xec8726cb, 0x702138a4, 0xd3b7973b]
  const WORDS4: seq<Word> := [0x93f5997f, 0x3b68ba73, 0xaff4ffc1, 0xf10a5c62, 0x0a8b3996, 0x72af830a, 0x9409e33e, 0x24641522]
  const WORDS5: seq<Word> := [0x9f47bf94, 0xf0a64f5a, 0x3e246a79, 0x27333ba3, 0x0c4763f2, 0x840abf27, 0x7a290d5d, 0x065c43da]
  const WORDS6: seq<Word> := [0xfb3e89cb, 0xcc7617db, 0xb9e66c34, 0xa9993667, 0x84badedd, 0xc21462bc, 0x1487472c, 0xb20f7a99]
  const WORDS7: seq<Word> := [0xef57b9cd, 0xebe6b238, 0x9fe3095e, 0x78bc8d4b, 0xa43fcf15, 0x668b2ff8, 0xeeaba2cc, 0x12b1edeb]

  const WORDS: seq<seq<Word>> := [WORDS0, WORDS1, WORDS2, WORDS3, WORDS4, WORDS5, WORDS6, WORDS7]

  lemma Words2Follow()
    ensures Follows(WORDS0, WORDS1, WORDS2)
  {}

  lemma Words3Follow()
    ensures Follows(WORDS1, WORDS2, WORDS3)
  {}

  lemma Words4Follow()
    ensures Follows(WORDS2, WORDS3, WORDS4)
  {}

  lemma Words5Follow()
    ensures Follows(WORDS3, WORDS4, WORDS5)
  {}

  lemma Words6Follow()
    ensures Follows(WORDS4, WORDS5, WORDS6)
  {}

  lemma Words7Follow()
    ensures Follows(WORDS5, WORDS6, WORDS7)
  {}

  lemma Rounds0()
    ensures EightRounds(State(0x6a09e667, 0xbb67ae85, 0x3c6ef372, 0xa54ff53a, 0x510e527f, 0x9b05688c, 0x1f83d9ab, 0x5be0cd19), ROW0, WORDS0) ==
            State(0x85a07b5f, 0xe5030380, 0x2b4209f5, 0x04409a6a, 0x0c657a79, 0x9b27a401, 0x714260ad, 0x43ada245)
  {
    assert Round(State(0x6a09e667, 0xbb67ae85, 0x3c6ef372, 0xa54ff53a, 0x510e527f, 0x9b05688c, 0x1f83d9ab, 0x5be0cd19), 0x428a2f98, 0x61626380) ==
           State(0x5d6aebcd, 0x6a09e667, 0xbb67ae85, 0x3c6ef372, 0xfa2a4622, 0x510e527f, 0x9b05688c, 0x1f83d9ab);
    assert Round(State(0x5d6aebcd, 0x6a09e667, 0xbb67ae85, 0x3c6ef372, 0xfa2a4622, 0x510e527f, 0x9b05688c, 0x1f83d9ab), 0x71374491, 0x00000000) ==
           State(0x5a6ad9ad, 0x5d6aebcd, 0x6a09e667, 0xbb67ae85, 0x78ce7989, 0xfa2a4622, 0x510e527f, 0x9b05688c);
    assert Round(State(0x5a6ad9ad, 0x5d6aebcd, 0x6a09e667, 0xbb67ae85, 0x78ce7989, 0xfa2a4622, 0x510e527f, 0x9b05688c), 0xb5c0fbcf, 0x00000000) ==
           State(0xc8c347a7, 0x5a6ad9ad, 0x5d6aebcd, 0x6a09e667, 0xf92939eb, 0x78ce7989, 0xfa2a4622, 0x510e527f);
    assert Round(State(0xc8c347a7, 0x5a6ad9ad, 0x5d6aebcd, 0x6a09e667, 0xf92939eb, 0x78ce7989, 0xfa2a4622, 0x510e527f), 0xe9b5dba5, 0x00000000) ==
           State(0xd550f666, 0xc8c347a7, 0x5a6ad9ad, 0x5d6aebcd, 0x24e00850, 0xf92939eb, 0x78ce7989, 0xfa2a4622);
    assert Round(State(0xd550f666, 0xc8c347a7, 0x5a6ad9ad, 0x5d6aebcd, 0x24e00850, 0xf92939eb, 0x78ce7989, 0xfa2a4622), 0x3956c25b, 0x00000000) ==
           State(0x04409a6a, 0xd550f666, 0xc8c347a7, 0x5a6ad9ad, 0x43ada245, 0x24e00850, 0xf92939eb, 0x78ce7989);
    assert Round(State(0x04409a6a, 0xd550f666, 0xc8c347a7, 0x5a6ad9ad, 0x43ada245, 0x24e00850, 0xf92939eb, 0x78ce7989), 0x59f111f1, 0x00000000) ==
           State(0x2b4209f5, 0x04409a6a, 0xd550f666, 0xc8c347a7, 0x714260ad, 0x43ada245, 0x24e00850, 0xf92939eb);
    assert Round(State(0x2b4209f5, 0x04409a6a, 0xd550f666, 0xc8c347a7, 0x714260ad, 0x43ada245, 0x24e00850, 0xf92939eb), 0x923f82a4, 0x00000000) ==
           State(0xe5030380, 0x2b4209f5, 0x04409a6a, 0xd550f666, 0x9b27a401, 0x714260ad, 0x43ada245, 0x24e00850);
    assert Round(State(0xe5030380, 0x2b4209f5, 0x04409a6a, 0xd550f666, 0x9b27a401, 0x714260ad, 0x43ada245, 0x24e00850), 0xab1c5ed5, 0x00000000) ==
           State(0x85a07b5f, 0xe5030380, 0x2b4209f5, 0x04409a6a, 0x0c657a79, 0x9b27a401, 0x714260ad, 0x43ada245);
    hide Round;
  }

  lemma Rounds1()
    ensures EightRounds(State(0x85a07b5f, 0xe5030380, 0x2b4209f5, 0x04409a6a, 0x0c657a79, 0x9b27a401, 0x714260ad, 0x43ada245), ROW1, WORDS1) ==
            State(0xb0fa238e, 0xc0645fde, 0xd932eb16, 0x87912990, 0x07590dcd, 0x0b92f20c, 0x745a48de, 0x1e578218)
  {
    assert Round(State(0x85a07b5f, 0xe5030380, 0x2b4209f5, 0x04409a6a, 0x0c657a79, 0x9b27a401, 0x714260ad, 0x43ada245), 0xd807aa98, 0x00000000) ==
           State(0x8e04ecb9, 0x85a07b5f, 0xe5030380, 0x2b4209f5, 0x32ca2d8c, 0x0c657a79, 0x9b27a401, 0x714260ad);
    assert Round(State(0x8e04ecb9, 0x85a07b5f, 0xe5030380, 0x2b4209f5, 0x32ca2d8c, 0x0c657a79, 0x9b27a401, 0x714260ad), 0x12835b01, 0x00000000) ==
           State(0x8c87346b, 0x8e04ecb9, 0x85a07b5f, 0xe5030380, 0x1cc92596, 0x32ca2d8c, 0x0c657a79, 0x9b27a401);
    assert Round(State(0x8c87346b, 0x8e04ecb9, 0x85a07b5f, 0xe5030380, 0x1cc92596, 0x32ca2d8c, 0x0c657a79, 0x9b27a401), 0x243185be, 0x00000000) ==
           State(0x4798a3f4, 0x8c87346b, 0x8e04ecb9, 0x85a07b5f, 0x436b23e8, 0x1cc92596, 0x32ca2d8c, 0x0c657a79);
    assert Round(State(0x4798a3f4, 0x8c87346b, 0x8e04ecb9, 0x85a07b5f, 0x436b23e8, 0x1cc92596, 0x32ca2d8c, 0x0c657a79), 0x550c7dc3, 0x00000000) ==
           State(0xf71fc5a9, 0x4798a3f4, 0x8c87346b, 0x8e04ecb9, 0x816fd6e9, 0x436b23e8, 0x1cc92596, 0x32ca2d8c);
    assert Round(State(0xf71fc5a9, 0x4798a3f4, 0x8c87346b, 0x8e04ecb9, 0x816fd6e9, 0x436b23e8, 0x1cc92596, 0x32ca2d8c), 0x72be5d74, 0x00000000) ==
           State(0x87912990, 0xf71fc5a9, 0x4798a3f4, 0x8c87346b, 0x1e578218, 0x816fd6e9, 0x436b23e8, 0x1cc92596);
    assert Round(State(0x87912990, 0xf71fc5a9, 0x4798a3f4, 0x8c87346b, 0x1e578218, 0x816fd6e9, 0x436b23e8, 0x1cc92596), 0x80deb1fe, 0x00000000) ==
           State(0xd932eb16, 0x87912990, 0xf71fc5a9, 0x4798a3f4, 0x745a48de, 0x1e578218, 0x816fd6e9, 0x436b23e8);
    assert Round(State(0xd932eb16, 0x87912990, 0xf71fc5a9, 0x4798a3f4, 0x745a48de, 0x1e578218, 0x816fd6e9, 0x436b23e8), 0x9bdc06a7, 0x00000000) ==
           State(0xc0645fde, 0xd932eb16, 0x87912990, 0xf71fc5a9, 0x0b92f20c, 0x745a48de, 0x1e578218, 0x816fd6e9);
    assert Round(State(0xc0645fde, 0xd932eb16, 0x87912990, 0xf71fc5a9, 0x0b92f20c, 0x745a48de, 0x1e578218, 0x816fd6e9), 0xc19bf174, 0x00000018) ==
           State(0xb0fa238e, 0xc0645fde, 0xd932eb16, 0x87912990, 0x07590dcd, 0x0b92f20c, 0x745a48de, 0x1e578218);
    hide Round;
  }

  lemma Rounds2()
    ensures EightRounds(State(0xb0fa238e, 0xc0645fde, 0xd932eb16, 0x87912990, 0x07590dcd, 0x0b92f20c, 0x745a48de, 0x1e578218), ROW2, WORDS2) ==
            State(0xc5d53d8d, 0xa7a3623f, 0xc2606d6d, 0x9dc68b63, 0xaa47c347, 0x49f5114a, 0xe1257970, 0x8ada8930)
  {
    assert Round(State(0xb0fa238e, 0xc0645fde, 0xd932eb16, 0x87912990, 0x07590dcd, 0x0b92f20c, 0x745a48de, 0x1e578218), 0xe49b69c1, 0x61626380) ==
           State(0x21da9a9b, 0xb0fa238e, 0xc0645fde, 0xd932eb16, 0x8034229c, 0x07590dcd, 0x0b92f20c, 0x745a48de);
    assert Round(State(0x21da9a9b, 0xb0fa238e, 0xc0645fde, 0xd932eb16, 0x8034229c, 0x07590dcd, 0x0b92f20c, 0x745a48de), 0xefbe4786, 0x000f0000) ==
           State(0xc2fbd9d1, 0x21da9a9b, 0xb0fa238e, 0xc0645fde, 0x846ee454, 0x8034229c, 0x07590dcd, 0x0b92f20c);
    assert Round(State(0xc2fbd9d1, 0x21da9a9b, 0xb0fa238e, 0xc0645fde, 0x846ee454, 0x8034229c, 0x07590dcd, 0x0b92f20c), 0x0fc19dc6, 0x7da86405) ==
           State(0xfe777bbf, 0xc2fbd9d1, 0x21da9a9b, 0xb0fa238e, 0xcc899961, 0x846ee454, 0x8034229c, 0x07590dcd);
    assert Round(State(0xfe777bbf, 0xc2fbd9d1, 0x21da9a9b, 0xb0fa238e, 0xcc899961, 0x846ee454, 0x8034229c, 0x07590dcd), 0x240ca1cc, 0x600003c6) ==
           State(0xe1f20c33, 0xfe777bbf, 0xc2fbd9d1, 0x21da9a9b, 0xb0638179, 0xcc899961, 0x846ee454, 0x8034229c);
    assert Round(State(0xe1f20c33, 0xfe777bbf, 0xc2fbd9d1, 0x21da9a9b, 0xb0638179, 0xcc899961, 0x846ee454, 0x8034229c), 0x2de92c6f, 0x3e9d7b78) ==
           State(0x9dc68b63, 0xe1f20c33, 0xfe777bbf, 0xc2fbd9d1, 0x8ada8930, 0xb0638179, 0xcc899961, 0x846ee454);
    assert Round(State(0x9dc68b63, 0xe1f20c33, 0xfe777bbf, 0xc2fbd9d1, 0x8ada8930, 0xb0638179, 0xcc899961, 0x846ee454), 0x4a7484aa, 0x0183fc00) ==
           State(0xc2606d6d, 0x9dc68b63, 0xe1f20c33, 0xfe777bbf, 0xe1257970, 0x8ada8930, 0xb0638179, 0xcc899961);
    assert Round(State(0xc2606d6d, 0x9dc68b63, 0xe1f20c33, 0xfe777bbf, 0xe1257970, 0x8ada8930, 0xb0638179, 0xcc899961), 0x5cb0a9dc, 0x12dcbfdb) ==
           State(0xa7a3623f, 0xc2606d6d, 0x9dc68b63, 0xe1f20c33, 0x49f5114a, 0xe1257970, 0x8ada8930, 0xb0638179);
    assert Round(State(0xa7a3623f, 0xc2606d6d, 0x9dc68b63, 0xe1f20c33, 0x49f5114a, 0xe1257970, 0x8ada8930, 0xb0638179), 0x76f988da, 0xe2e2c38e) ==
           State(0xc5d53d8d, 0xa7a3623f, 0xc2606d6d, 0x9dc68b63, 0xaa47c347, 0x49f5114a, 0xe1257970, 0x8ada8930);
    hide Round;
  }

  lemma Rounds3()
    ensures EightRounds(State(0xc5d53d8d, 0xa7a3623f, 0xc2606d6d, 0x9dc68b63, 0xaa47c347, 0x49f5114a, 0xe1257970, 0x8ada8930), ROW3, WORDS3) ==
            State(0x73b33bf5, 0xea992a22, 0xa0060b30, 0x363482c9, 0xba591112, 0x0109ab3a, 0xade79437, 0x6112a3b7)
  {
    assert Round(State(0xc5d53d8d, 0xa7a3623f, 0xc2606d6d, 0x9dc68b63, 0xaa47c347, 0x49f5114a, 0xe1257970, 0x8ada8930), 0x983e5152, 0xc8215c1a) ==
           State(0x1c2c2838, 0xc5d53d8d, 0xa7a3623f, 0xc2606d6d, 0x2823ef91, 0xaa47c347, 0x49f5114a, 0xe1257970);
    assert Round(State(0x1c2c2838, 0xc5d53d8d, 0xa7a3623f, 0xc2606d6d, 0x2823ef91, 0xaa47c347, 0x49f5114a, 0xe1257970), 0xa831c66d, 0xb73679a2) ==
           State(0xcde8037d, 0x1c2c2838, 0xc5d53d8d, 0xa7a3623f, 0x14383d8e, 0x2823ef91, 0xaa47c347, 0x49f5114a);
    assert Round(State(0xcde8037d, 0x1c2c2838, 0xc5d53d8d, 0xa7a3623f, 0x14383d8e, 0x2823ef91, 0xaa47c347, 0x49f5114a), 0xb00327c8, 0xe5bc3909) ==
           State(0xb62ec4bc, 0xcde8037d, 0x1c2c2838, 0xc5d53d8d, 0xc74c6516, 0x14383d8e, 0x2823ef91, 0xaa47c347);
    assert Round(State(0xb62ec4bc, 0xcde8037d, 0x1c2c2838, 0xc5d53d8d, 0xc74c6516, 0x14383d8e, 0x2823ef91, 0xaa47c347), 0xbf597fc7, 0x32663c5b) ==
           State(0x77d37528, 0xb62ec4bc, 0xcde8037d, 0x1c2c2838, 0xedffbff8, 0xc74c6516, 0x14383d8e, 0x2823ef91);
    assert Round(State(0x77d37528, 0xb62ec4bc, 0xcde8037d, 0x1c2c2838, 0xedffbff8, 0xc74c6516, 0x14383d8e, 0x2823ef91), 0xc6e00bf3, 0x9d209d67) ==
           State(0x363482c9, 0x77d37528, 0xb62ec4bc, 0xcde8037d, 0x6112a3b7, 0xedffbff8, 0xc74c6516, 0x14383d8e);
    assert Round(State(0x363482c9, 0x77d37528, 0xb62ec4bc, 0xcde8037d, 0x6112a3b7, 0xedffbff8, 0xc74c6516, 0x14383d8e), 0xd5a79147, 0xec8726cb) ==
           State(0xa0060b30, 0x363482c9, 0x77d37528, 0xb62ec4bc, 0xade79437, 0x6112a3b7, 0xedffbff8, 0xc74c6516);
    assert Round(State(0xa0060b30, 0x363482c9, 0x77d37528, 0xb62ec4bc, 0xade79437, 0x6112a3b7, 0xedffbff8, 0xc74c6516), 0x06ca6351, 0x702138a4) ==
           State(0xea992a22, 0xa0060b30, 0x363482c9, 0x77d37528, 0x0109ab3a, 0xade79437, 0x6112a3b7, 0xedffbff8);
    assert Round(State(0xea992a22, 0xa0060b30, 0x363482c9, 0x77d37528, 0x0109ab3a, 0xade79437, 0x6112a3b7, 0xedffbff8), 0x14292967, 0xd3b7973b) ==
           State(0x73b33bf5, 0xea992a22, 0xa0060b30, 0x363482c9, 0xba591112, 0x0109ab3a, 0xade79437, 0x6112a3b7);
    hide Round;
  }

  lemma Rounds4()
    ensures EightRounds(State(0x73b33bf5, 0xea992a22, 0xa0060b30, 0x363482c9, 0xba591112, 0x0109ab3a, 0xade79437, 0x6112a3b7), ROW4, WORDS4) ==
            State(0x79ea687a, 0x6dc57a8a, 0x34df1604, 0x41a65cb1, 0x1efbc0a0, 0xf0781bc8, 0xa507a53d, 0x0772a26b)
  {
    assert Round(State(0x73b33bf5, 0xea992a22, 0xa0060b30, 0x363482c9, 0xba591112, 0x0109ab3a, 0xade79437, 0x6112a3b7), 0x27b70a85, 0x93f5997f) ==
           State(0x98e12507, 0x73b33bf5, 0xea992a22, 0xa0060b30, 0x9cd9f5f6, 0xba591112, 0x0109ab3a, 0xade79437);
    assert Round(State(0x98e12507, 0x73b33bf5, 0xea992a22, 0xa0060b30, 0x9cd9f5f6, 0xba591112, 0x0109ab3a, 0xade79437), 0x2e1b2138, 0x3b68ba73) ==
           State(0xfe604df5, 0x98e12507, 0x73b33bf5, 0xea992a22, 0x59249dd3, 0x9cd9f5f6, 0xba591112, 0x0109ab3a);
    assert Round(State(0xfe604df5, 0x98e12507, 0x73b33bf5, 0xea992a22, 0x59249dd3, 0x9cd9f5f6, 0xba591112, 0x0109ab3a), 0x4d2c6dfc, 0xaff4ffc1) ==
           State(0xa9a7738c, 0xfe604df5, 0x98e12507, 0x73b33bf5, 0x085f3833, 0x59249dd3, 0x9cd9f5f6, 0xba591112);
    assert Round(State(0xa9a7738c, 0xfe604df5, 0x98e12507, 0x73b33bf5, 0x085f3833, 0x59249dd3, 0x9cd9f5f6, 0xba591112), 0x53380d13, 0xf10a5c62) ==
           State(0x65a0cfe4, 0xa9a7738c, 0xfe604df5, 0x98e12507, 0xf4b002d6, 0x085f3833, 0x59249dd3, 0x9cd9f5f6);
    assert Round(State(0x65a0cfe4, 0xa9a7738c, 0xfe604df5, 0x98e12507, 0xf4b002d6, 0x085f3833, 0x59249dd3, 0x9cd9f5f6), 0x650a7354, 0x0a8b3996) ==
           State(0x41a65cb1, 0x65a0cfe4, 0xa9a7738c, 0xfe604df5, 0x0772a26b, 0xf4b002d6, 0x085f3833, 0x59249dd3);
    assert Round(State(0x41a65cb1, 0x65a0cfe4, 0xa9a7738c, 0xfe604df5, 0x0772a26b, 0xf4b002d6, 0x085f3833, 0x59249dd3), 0x766a0abb, 0x72af830a) ==
           State(0x34df1604, 0x41a65cb1, 0x65a0cfe4, 0xa9a7738c, 0xa507a53d, 0x0772a26b, 0xf4b002d6, 0x085f3833);
    assert Round(State(0x34df1604, 0x41a65cb1, 0x65a0cfe4, 0xa9a7738c, 0xa507a53d, 0x0772a26b, 0xf4b002d6, 0x085f3833), 0x81c2c92e, 0x9409e33e) ==
           State(0x6dc57a8a, 0x34df1604, 0x41a65cb1, 0x65a0cfe4, 0xf0781bc8, 0xa507a53d, 0x0772a26b, 0xf4b002d6);
    assert Round(State(0x6dc57a8a, 0x34df1604, 0x41a65cb1, 0x65a0cfe4, 0xf0781bc8, 0xa507a53d, 0x0772a26b, 0xf4b002d6), 0x92722c85, 0x24641522) ==
           State(0x79ea687a, 0x6dc57a8a, 0x34df1604, 0x41a65cb1, 0x1efbc0a0, 0xf0781bc8, 0xa507a53d, 0x0772a26b);
    hide Round;
  }

  lemma Rounds5()
    ensures EightRounds(State(0x79ea687a, 0x6dc57a8a, 0x34df1604, 0x41a65cb1, 0x1efbc0a0, 0xf0781bc8, 0xa507a53d, 0x0772a26b), ROW5, WORDS5) ==
            State(0x4172328d, 0xa14c14b0, 0x72ab4b91, 0x26628815, 0xfecf0bc6, 0xd57b94a9, 0xb7755da1, 0xa80f11f0)
  {
    assert Round(State(0x79ea687a, 0x6dc57a8a, 0x34df1604, 0x41a65cb1, 0x1efbc0a0, 0xf0781bc8, 0xa507a53d, 0x0772a26b), 0xa2bfe8a1, 0x9f47bf94) ==
           State(0xd6670766, 0x79ea687a, 0x6dc57a8a, 0x34df1604, 0x26352d63, 0x1efbc0a0, 0xf0781bc8, 0xa507a53d);
    assert Round(State(0xd6670766, 0x79ea687a, 0x6dc57a8a, 0x34df1604, 0x26352d63, 0x1efbc0a0, 0xf0781bc8, 0xa507a53d), 0xa81a664b, 0xf0a64f5a) ==
           State(0xdf46652f, 0xd6670766, 0x79ea687a, 0x6dc57a8a, 0x838b2711, 0x26352d63, 0x1efbc0a0, 0xf0781bc8);
    assert Round(State(0xdf46652f, 0xd6670766, 0x79ea687a, 0x6dc57a8a, 0x838b2711, 0x26352d63, 0x1efbc0a0, 0xf0781bc8), 0xc24b8b70, 0x3e246a79) ==
           State(0x17aa0dfe, 0xdf46652f, 0xd6670766, 0x79ea687a, 0xdecd4715, 0x838b2711, 0x26352d63, 0x1efbc0a0);
    assert Round(State(0x17aa0dfe, 0xdf46652f, 0xd6670766, 0x79ea687a, 0xdecd4715, 0x838b2711, 0x26352d63, 0x1efbc0a0), 0xc76c51a3, 0x27333ba3) ==
           State(0x9d4baf93, 0x17aa0dfe, 0xdf46652f, 0xd6670766, 0xfda24c2e, 0xdecd4715, 0x838b2711, 0x26352d63);
    assert Round(State(0x9d4baf93, 0x17aa0dfe, 0xdf46652f, 0xd6670766, 0xfda24c2e, 0xdecd4715, 0x838b2711, 0x26352d63), 0xd192e819, 0x0c4763f2) ==
           State(0x26628815, 0x9d4baf93, 0x17aa0dfe, 0xdf46652f, 0xa80f11f0, 0xfda24c2e, 0xdecd4715, 0x838b2711);
    assert Round(State(0x26628815, 0x9d4baf93, 0x17aa0dfe, 0xdf46652f, 0xa80f11f0, 0xfda24c2e, 0xdecd4715, 0x838b2711), 0xd6990624, 0x840abf27) ==
           State(0x72ab4b91, 0x26628815, 0x9d4baf93, 0x17aa0dfe, 0xb7755da1, 0xa80f11f0, 0xfda24c2e, 0xdecd4715);
    assert Round(State(0x72ab4b91, 0x26628815, 0x9d4baf93, 0x17aa0dfe, 0xb7755da1, 0xa80f11f0, 0xfda24c2e, 0xdecd4715), 0xf40e3585, 0x7a290d5d) ==
           State(0xa14c14b0, 0x72ab4b91, 0x26628815, 0x9d4baf93, 0xd57b94a9, 0xb7755da1, 0xa80f11f0, 0xfda24c2e);
    assert Round(State(0xa14c14b0, 0x72ab4b91, 0x26628815, 0x9d4baf93, 0xd57b94a9, 0xb7755da1, 0xa80f11f0, 0xfda24c2e), 0x106aa070, 0x065c43da) ==
           State(0x4172328d, 0xa14c14b0, 0x72ab4b91, 0x26628815, 0xfecf0bc6, 0xd57b94a9, 0xb7755da1, 0xa80f11f0);
    hide Round;
  }

  lemma Rounds6()
    ensures EightRounds(State(0x4172328d, 0xa14c14b0, 0x72ab4b91, 0x26628815, 0xfecf0bc6, 0xd57b94a9, 0xb7755da1, 0xa80f11f0), ROW6, WORDS6) ==
            State(0x38cc9913, 0x3ec45cdb, 0xf5702fdb, 0x101fd28f, 0x54cb266b, 0xe50e1b4f, 0x9f4787c3, 0x529e7d00)
  {
    assert Round(State(0x4172328d, 0xa14c14b0, 0x72ab4b91, 0x26628815, 0xfecf0bc6, 0xd57b94a9, 0xb7755da1, 0xa80f11f0), 0x19a4c116, 0xfb3e89cb) ==
           State(0x05757ceb, 0x4172328d, 0xa14c14b0, 0x72ab4b91, 0xbd714038, 0xfecf0bc6, 0xd57b94a9, 0xb7755da1);
    assert Round(State(0x05757ceb, 0x4172328d, 0xa14c14b0, 0x72ab4b91, 0xbd714038, 0xfecf0bc6, 0xd57b94a9, 0xb7755da1), 0x1e376c08, 0xcc7617db) ==
           State(0xf11bfaa8, 0x05757ceb, 0x4172328d, 0xa14c14b0, 0x6e5c390c, 0xbd714038, 0xfecf0bc6, 0xd57b94a9);
    assert Round(State(0xf11bfaa8, 0x05757ceb, 0x4172328d, 0xa14c14b0, 0x6e5c390c, 0xbd714038, 0xfecf0bc6, 0xd57b94a9), 0x2748774c, 0xb9e66c34) ==
           State(0x7a0508a1, 0xf11bfaa8, 0x05757ceb, 0x4172328d, 0x52f1ccf7, 0x6e5c390c, 0xbd714038, 0xfecf0bc6);
    assert Round(State(0x7a0508a1, 0xf11bfaa8, 0x05757ceb, 0x4172328d, 0x52f1ccf7, 0x6e5c390c, 0xbd714038, 0xfecf0bc6), 0x34b0bcb5, 0xa9993667) ==
           State(0x886e7a22, 0x7a0508a1, 0xf11bfaa8, 0x05757ceb, 0x49231c1e, 0x52f1ccf7, 0x6e5c390c, 0xbd714038);
    assert Round(State(0x886e7a22, 0x7a0508a1, 0xf11bfaa8, 0x05757ceb, 0x49231c1e, 0x52f1ccf7, 0x6e5c390c, 0xbd714038), 0x391c0cb3, 0x84badedd) ==
           State(0x101fd28f, 0x886e7a22, 0x7a0508a1, 0xf11bfaa8, 0x529e7d00, 0x49231c1e, 0x52f1ccf7, 0x6e5c390c);
    assert Round(State(0x101fd28f, 0x886e7a22, 0x7a0508a1, 0xf11bfaa8, 0x529e7d00, 0x49231c1e, 0x52f1ccf7, 0x6e5c390c), 0x4ed8aa4a, 0xc21462bc) ==
           State(0xf5702fdb, 0x101fd28f, 0x886e7a22, 0x7a0508a1, 0x9f4787c3, 0x529e7d00, 0x49231c1e, 0x52f1ccf7);
    assert Round(State(0xf5702fdb, 0x101fd28f, 0x886e7a22, 0x7a0508a1, 0x9f4787c3, 0x529e7d00, 0x49231c1e, 0x52f1ccf7), 0x5b9cca4f, 0x1487472c) ==
           State(0x3ec45cdb, 0xf5702fdb, 0x101fd28f, 0x886e7a22, 0xe50e1b4f, 0x9f4787c3, 0x529e7d00, 0x49231c1e);
    assert Round(State(0x3ec45cdb, 0xf5702fdb, 0x101fd28f, 0x886e7a22, 0xe50e1b4f, 0x9f4787c3, 0x529e7d00, 0x49231c1e), 0x682e6ff3, 0xb20f7a99) ==
           State(0x38cc9913, 0x3ec45cdb, 0xf5702fdb, 0x101fd28f, 0x54cb266b, 0xe50e1b4f, 0x9f4787c3, 0x529e7d00);
    hide Round;
  }

  lemma Rounds7()
    ensures EightRounds(State(0x38cc9913, 0x3ec45cdb, 0xf5702fdb, 0x101fd28f, 0x54cb266b, 0xe50e1b4f, 0x9f4787c3, 0x529e7d00), ROW7, WORDS7) ==
            State(0x506e3058, 0xd39a2165, 0x04d24d6c, 0xb85e2ce9, 0x5ef50f24, 0xfb121210, 0x948d25b6, 0x961f4894)
  {
    assert Round(State(0x38cc9913, 0x3ec45cdb, 0xf5702fdb, 0x101fd28f, 0x54cb266b, 0xe50e1b4f, 0x9f4787c3, 0x529e7d00), 0x748f82ee, 0xef57b9cd) ==
           State(0xfcd1887b, 0x38cc9913, 0x3ec45cdb, 0xf5702fdb, 0x9b5e906c, 0x54cb266b, 0xe50e1b4f, 0x9f4787c3);
    assert Round(State(0xfcd1887b, 0x38cc9913, 0x3ec45cdb, 0xf5702fdb, 0x9b5e906c, 0x54cb266b, 0xe50e1b4f, 0x9f4787c3), 0x78a5636f, 0xebe6b238) ==
           State(0xc062d46f, 0xfcd1887b, 0x38cc9913, 0x3ec45cdb, 0x7e44008e, 0x9b5e906c, 0x54cb266b, 0xe50e1b4f);
    assert Round(State(0xc062d46f, 0xfcd1887b, 0x38cc9913, 0x3ec45cdb, 0x7e44008e, 0x9b5e906c, 0x54cb266b, 0xe50e1b4f), 0x84c87814, 0x9fe3095e) ==
           State(0xffb70472, 0xc062d46f, 0xfcd1887b, 0x38cc9913, 0x6d83bfc6, 0x7e44008e, 0x9b5e906c, 0x54cb266b);
    assert Round(State(0xffb70472, 0xc062d46f, 0xfcd1887b, 0x38cc9913, 0x6d83bfc6, 0x7e44008e, 0x9b5e906c, 0x54cb266b), 0x8cc70208, 0x78bc8d4b) ==
           State(0xb6ae8fff, 0xffb70472, 0xc062d46f, 0xfcd1887b, 0xb21bad3d, 0x6d83bfc6, 0x7e44008e, 0x9b5e906c);
    assert Round(State(0xb6ae8fff, 0xffb70472, 0xc062d46f, 0xfcd1887b, 0xb21bad3d, 0x6d83bfc6, 0x7e44008e, 0x9b5e906c), 0x90befffa, 0xa43fcf15) ==
           State(0xb85e2ce9, 0xb6ae8fff, 0xffb70472, 0xc062d46f, 0x961f4894, 0xb21bad3d, 0x6d83bfc6, 0x7e44008e);
    assert Round(State(0xb85e2ce9, 0xb6ae8fff, 0xffb70472, 0xc062d46f, 0x961f4894, 0xb21bad3d, 0x6d83bfc6, 0x7e44008e), 0xa4506ceb, 0x668b2ff8) ==
           State(0x04d24d6c, 0xb85e2ce9, 0xb6ae8fff, 0xffb70472, 0x948d25b6, 0x961f4894, 0xb21bad3d, 0x6d83bfc6);
    assert Round(State(0x04d24d6c, 0xb85e2ce9, 0xb6ae8fff, 0xffb70472, 0x948d25b6, 0x961f4894, 0xb21bad3d, 0x6d83bfc6), 0xbef9a3f7, 0xeeaba2cc) ==
           State(0xd39a2165, 0x04d24d6c, 0xb85e2ce9, 0xb6ae8fff, 0xfb121210, 0x948d25b6, 0x961f4894, 0xb21bad3d);
    assert Round(State(0xd39a2165, 0x04d24d6c, 0xb85e2ce9, 0xb6ae8fff, 0xfb121210, 0x948d25b6, 0x961f4894, 0xb21bad3d), 0xc67178f2, 0x12b1edeb) ==
           State(0x506e3058, 0xd39a2165, 0x04d24d6c, 0xb85e2ce9, 0x5ef50f24, 0xfb121210, 0x948d25b6, 0x961f4894);
    hide Round;
  }

  lemma RowsAreSchedule(a: seq<Word>, b: seq<Word>, c: seq<Word>, d: seq<Word>, e: seq<Word>, f: seq<Word>, g: seq<Word>, h: seq<Word>)
    requires |a| == |b| == |c| == |d| == |e| == |f| == |g| == |h| == 8
    requires Follows(a, b, c) && Follows(b, c, d) && Follows(c, d, e) && Follows(d, e, f) && Follows(e, f, g) && Follows(f, g, h)
    ensures IsSchedule(a + b, [a, b, c, d, e, f, g, h])
  {
    hide Follows;
  }

  lemma WordsAreSchedule()
    ensures IsSchedule(WORDS0 + WORDS1, WORDS)
  {
    Words2Follow(); Words3Follow(); Words4Follow(); Words5Follow(); Words6Follow(); Words7Follow();
    hide Follows, IsSchedule;
    RowsAreSchedule(WORDS0, WORDS1, WORDS2, WORDS3, WORDS4, WORDS5, WORDS6, WORDS7);
  }

  lemma NextRounds(rows: seq<seq<Word>>, k: nat, s: State, u: State, row: seq<Word>, words: seq<Word>)
    requires IsSchedule(WORDS0 + WORDS1, rows) && k < 8 && KROWS[k] == row && rows[k] == words
    requires Rounds(INITIAL, WORDS0 + WORDS1, 8 * k) == s && EightRounds(s, row, words) == u
    ensures Rounds(INITIAL, WORDS0 + WORDS1, 8 * k + 8) == u
  {
    hide EightRounds, Rounds, IsSchedule;
    RowsAreConstants();
    hide AreConstants;
    NextRow(INITIAL, WORDS0 + WORDS1, KROWS, rows, k);
  }

  lemma FirstRounds(t: nat)
    requires t == 32
    ensures Rounds(INITIAL, WORDS0 + WORDS1, t) == State(0x73b33bf5, 0xea992a22, 0xa0060b30, 0x363482c9, 0xba591112, 0x0109ab3a, 0xade79437, 0x6112a3b7)
  {
    hide EightRounds, Rounds, IsSchedule, Follows;
    WordsAreSchedule();
    AtStart(WORDS0 + WORDS1);
    Rounds0(); Rounds1(); Rounds2(); Rounds3();
    NextRounds(WORDS, 0, State(0x6a09e667, 0xbb67ae85, 0x3c6ef372, 0xa54ff53a, 0x510e527f, 0x9b05688c, 0x1f83d9ab, 0x5be0cd19), State(0x85a07b5f, 0xe5030380, 0x2b4209f5, 0x04409a6a, 0x0c657a79, 0x9b27a401, 0x714260ad, 0x43ada245), ROW0, WORDS0);
    NextRounds(WORDS, 1, State(0x85a07b5f, 0xe5030380, 0x2b4209f5, 0x04409a6a, 0x0c657a79, 0x9b27a401, 0x714260ad, 0x43ada245), State(0xb0fa238e, 0xc0645fde, 0xd932eb16, 0x87912990, 0x07590dcd, 0x0b92f20c, 0x745a48de, 0x1e578218), ROW1, WORDS1);
    NextRounds(WORDS, 2, State(0xb0fa238e, 0xc0645fde, 0xd932eb16, 0x87912990, 0x07590dcd, 0x0b92f20c, 0x745a48de, 0x1e578218), State(0xc5d53d8d, 0xa7a3623f, 0xc2606d6d, 0x9dc68b63, 0xaa47c347, 0x49f5114a, 0xe1257970, 0x8ada8930), ROW2, WORDS2);
    NextRounds(WORDS, 3, State(0xc5d53d8d, 0xa7a3623f, 0xc2606d6d, 0x9dc68b63, 0xaa47c347, 0x49f5114a, 0xe1257970, 0x8ada8930), State(0x73b33bf5, 0xea992a22, 0xa0060b30, 0x363482c9, 0xba591112, 0x0109ab3a, 0xade79437, 0x6112a3b7), ROW3, WORDS3);
  }

  /** All the rounds for that block. */
  lemma AllRounds(t: nat)
    requires t == 64
    ensures Rounds(INITIAL, WORDS0 + WORDS1, t) ==
            State(0x506e3058, 0xd39a2165, 0x04d24d6c, 0xb85e2ce9, 0x5ef50f24, 0xfb121210, 0x948d25b6, 0x961f4894)
  {
    hide EightRounds, Rounds, IsSchedule, Follows;
    WordsAreSchedule();
    FirstRounds(t - 32);
    Rounds4(); Rounds5(); Rounds6(); Rounds7();
    NextRounds(WORDS, 4, State(0x73b33bf5, 0xea992a22, 0xa0060b30, 0x363482c9, 0xba591112, 0x0109ab3a, 0xade79437, 0x6112a3b7), State(0x79ea687a, 0x6dc57a8a, 0x34df1604, 0x41a65cb1, 0x1efbc0a0, 0xf0781bc8, 0xa507a53d, 0x0772a26b), ROW4, WORDS4);
    NextRounds(WORDS, 5, State(0x79ea687a, 0x6dc57a8a, 0x34df1604, 0x41a65cb1, 0x1efbc0a0, 0xf0781bc8, 0xa507a53d, 0x0772a26b), State(0x4172328d, 0xa14c14b0, 0x72ab4b91, 0x26628815, 0xfecf0bc6, 0xd57b94a9, 0xb7755da1, 0xa80f11f0), ROW5, WORDS5);
    NextRounds(WORDS, 6, State(0x4172328d, 0xa14c14b0, 0x72ab4b91, 0x26628815, 0xfecf0bc6, 0xd57b94a9, 0xb7755da1, 0xa80f11f0), State(0x38cc9913, 0x3ec45cdb, 0xf5702fdb, 0x101fd28f, 0x54cb266b, 0xe50e1b4f, 0x9f4787c3, 0x529e7d00), ROW6, WORDS6);
    NextRounds(WORDS, 7, State(0x38cc9913, 0x3ec45cdb, 0xf5702fdb, 0x101fd28f, 0x54cb266b, 0xe50e1b4f, 0x9f4787c3, 0x529e7d00), State(0x506e3058, 0xd39a2165, 0x04d24d6c, 0xb85e2ce9, 0x5ef50f24, 0xfb121210, 0x948d25b6, 0x961f4894), ROW7, WORDS7);
  }

  lemma AtStart(block: seq<Word>)
    requires |block| == 16
    ensures Rounds(INITIAL, block, 0) == INITIAL
  {}

  lemma {:induction false} BigEndianZero(size: nat)
    ensures |BigEndian(0, size)| == size && forall k :: 0 <= k < size ==> BigEndian(0, size)[k] == 0
  {
    if size > 0 {
      BigEndianZero(size - 1);
      assert ByteOf(0) == 0;
    }
  }

  lemma LengthOfAbc()
    ensures LengthField(3) == [0, 0, 0, 0, 0, 0, 0, 0x18]
  {
    BigEndianZero(7);
    assert ByteOf(24) == 0x18;
    assert BigEndian(24, 8) == BigEndian(0, 7) + [ByteOf(24)];
  }

  lemma PaddedAbc()
    ensures Hashable(ABC) && Pad(ABC) == [0x61, 0x62, 0x63, 0x80] + Zeros(59) + [0x18]
  {
    LengthOfAbc();
    assert ZeroCount(3) == 52;
    assert Zeros(52) + [0, 0, 0, 0, 0, 0, 0, 0x18] == Zeros(59) + [0x18];
    assert ABC + [0x80] == [0x61, 0x62, 0x63, 0x80];
    hide LengthField, ZeroCount, Zeros;
    assert [0x61, 0x62, 0x63, 0x80] + Zeros(52) + LengthField(3) == [0x61, 0x62, 0x63, 0x80] + (Zeros(52) + LengthField(3));
  }

  lemma BlockOfAbc()
    ensures |Pad(ABC)| == 64 && BlockAt(Pad(ABC), 0) == WORDS0 + WORDS1
  {
    PaddedAbc();
    var p, b := Pad(ABC), BlockAt(Pad(ABC), 0);
    hide Pad;
    assert p[0] == 0x61 && p[1] == 0x62 && p[2] == 0x63 && p[3] == 0x80 && p[63] == 0x18;
    assert forall k :: 4 <= k < 63 ==> p[k] == 0;
    assert ToWord(0x61, 0x62, 0x63, 0x80) == 0x61626380 && ToWord(0, 0, 0, 0) == 0 && ToWord(0, 0, 0, 0x18) == 0x18;
    hide ToWord;
    forall i | 0 <= i < 16
      ensures b[i] == if i == 0 then 0x61626380 else if i == 15 then 0x18 else 0
    {
      assert b[i] == WordAt(p, 4 * i);
    }
  }

  /** The digest of "abc" is the one that the standard's example gives. */
  lemma DigestOfAbc()
    ensures Hashable(ABC)
    ensures Digest(ABC) ==
            [0xba, 0x78, 0x16, 0xbf, 0x8f, 0x01, 0xcf, 0xea, 0x41, 0x41, 0x40, 0xde, 0x5d, 0xae, 0x22, 0x23,
             0xb0, 0x03, 0x61, 0xa3, 0x96, 0x17, 0x7a, 0x9c, 0xb4, 0x10, 0xff, 0x61, 0xf2, 0x00, 0x15, 0xad]
  {
    PaddedAbc();
    BlockOfAbc();
    AllRounds(64);
    OneBlock(INITIAL, Pad(ABC));
    LastAddition();
    DigestBytes();
    hide Rounds, Pad, BlockAt, WordsBytes, Add, Words;
  }

  lemma OneBlock(s: State, p: seq<Byte>)
    requires |p| == 64
    ensures HashFrom(s, p, 0) == Add(s, Rounds(s, BlockAt(p, 0), 64))
  {
    hide Rounds, BlockAt, Add;
  }

  lemma HalfBytes()
    ensures ToBytes(0xba7816bf) + ToBytes(0x8f01cfea) + ToBytes(0x414140de) + ToBytes(0x5dae2223) == [0xba, 0x78, 0x16, 0xbf, 0x8f, 0x01, 0xcf, 0xea, 0x41, 0x41, 0x40, 0xde, 0x5d, 0xae, 0x22, 0x23]
    ensures ToBytes(0xb00361a3) + ToBytes(0x96177a9c) + ToBytes(0xb410ff61) + ToBytes(0xf20015ad) == [0xb0, 0x03, 0x61, 0xa3, 0x96, 0x17, 0x7a, 0x9c, 0xb4, 0x10, 0xff, 0x61, 0xf2, 0x00, 0x15, 0xad]
  {}

  lemma LastAddition()
    ensures Words(Add(INITIAL, State(0x506e3058, 0xd39a2165, 0x04d24d6c, 0xb85e2ce9, 0x5ef50f24, 0xfb121210, 0x948d25b6, 0x961f4894))) ==
            [0xba7816bf, 0x8f01cfea, 0x414140de, 0x5dae2223, 0xb00361a3, 0x96177a9c, 0xb410ff61, 0xf20015ad]
  {}

  lemma DigestBytes()
    ensures WordsBytes([0xba7816bf, 0x8f01cfea, 0x414140de, 0x5dae2223, 0xb00361a3, 0x96177a9c, 0xb410ff61, 0xf20015ad]) ==
            [0xba, 0x78, 0x16, 0xbf, 0x8f, 0x01, 0xcf, 0xea, 0x41, 0x41, 0x40, 0xde, 0x5d, 0xae, 0x22, 0x23,
             0xb0, 0x03, 0x61, 0xa3, 0x96, 0x17, 0x7a, 0x9c, 0xb4, 0x10, 0xff, 0x61, 0xf2, 0x00, 0x15, 0xad]
  {
    var a, b := [0xba7816bf, 0x8f01cfea, 0x414140de, 0x5dae2223], [0xb00361a3, 0x96177a9c, 0xb410ff61, 0xf20015ad];
    WordsConcat(a, b);
    FourWords(0xba7816bf, 0x8f01cfea, 0x414140de, 0x5dae2223);
    FourWords(0xb00361a3, 0x96177a9c, 0xb410ff61, 0xf20015ad);
    HalfBytes();
    assert a + b == [0xba7816bf, 0x8f01cfea, 0x414140de, 0x5dae2223, 0xb00361a3, 0x96177a9c, 0xb410ff61, 0xf20015ad];
    hide ToBytes, WordsBytes;
    assert [0xba, 0x78, 0x16, 0xbf, 0x8f, 0x01, 0xcf, 0xea, 0x41, 0x41, 0x40, 0xde, 0x5d, 0xae, 0x22, 0x23] + [0xb0, 0x03, 0x61, 0xa3, 0x96, 0x17, 0x7a, 0x9c, 0xb4, 0x10, 0xff, 0x61, 0xf2, 0x00, 0x15, 0xad] == [0xba, 0x78, 0x16, 0xbf, 0x8f, 0x01, 0xcf, 0xea, 0x41, 0x41, 0x40, 0xde, 0x5d, 0xae, 0x22, 0x23, 0xb0, 0x03, 0x61, 0xa3, 0x96, 0x17, 0x7a, 0x9c, 0xb4, 0x10, 0xff, 0x61, 0xf2, 0x00, 0x15, 0xad];
  }

  lemma WordsSnoc(ws: seq<Word>, x: Word)
    ensures WordsBytes(ws + [x]) == WordsBytes(ws) + ToBytes(x)
  {
    assert (ws + [x])[..|ws|] == ws;
    hide ToBytes;
  }

  lemma {:induction false} WordsConcat(a: seq<Word>, b: seq<Word>)
    ensures WordsBytes(a + b) == WordsBytes(a) + WordsBytes(b)
  {
    hide ToBytes;
    if b == [] {
      assert a + b == a;
    } else {
      var front, x := b[..|b| - 1], b[|b| - 1];
      WordsConcat(a, front);
      WordsSnoc(a + front, x);
      assert a + b == (a + front) + [x];
      hide WordsBytes;
      assert WordsBytes(a) + (WordsBytes(front) + ToBytes(x)) == (WordsBytes(a) + WordsBytes(front)) + ToBytes(x);
    }
  }

  lemma FourWords(a: Word, b: Word, c: Word, d: Word)
    ensures WordsBytes([a, b, c, d]) == ToBytes(a) + ToBytes(b) + ToBytes(c) + ToBytes(d)
  {
    assert WordsBytes([]) + ToBytes(a) == ToBytes(a);
    hide ToBytes, WordsBytes;
    WordsSnoc([], a);
    WordsSnoc([a], b);
    WordsSnoc([a, b], c);
    WordsSnoc([a, b, c], d);
    assert [] + [a] == [a] && [a] + [b] == [a, b] && [a, b] + [c] == [a, b, c] && [a, b, c] + [d] == [a, b, c, d];
  }
}
