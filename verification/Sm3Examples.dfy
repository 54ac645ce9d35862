/**
 The two worked examples of appendix A of GB/T 32905-2016. They are computed four words and eight rounds at a time;
 the registers of a round are four successive values of A and four of E.
 */
module Sm3Examples {
  import opened ByteValues
  import opened Words
  import opened Sm3

  function At(w: seq<Word>, i: nat): Word { if i < |w| then w[i] else 0 }

  // ---------- Four words of the expansion ----------

  // The first n words of w are those of the block's expansion.
  predicate Expanded(b: seq<Byte>, w: seq<Word>, n: nat)
    requires |b| == 64 && n <= 68
  {
    n == 0 || (Expanded(b, w, n - 1) && At(w, n - 1) == Expand(b, n - 1))
  }

  lemma {:induction false} ExpandedAt(b: seq<Byte>, w: seq<Word>, n: nat, j: nat)
    requires |b| == 64 && j < n <= 68 && Expanded(b, w, n)
    ensures At(w, j) == Expand(b, j)
  {
    if j < n - 1 {
      ExpandedAt(b, w, n - 1, j);
    }
  }

  lemma {:induction false} ScheduleExpands(b: seq<Byte>, n: nat)
    requires |b| == 64 && n <= 68
    ensures Expanded(b, Schedule(b), n)
  {
    if 0 < n {
      ScheduleExpands(b, n - 1);
    }
  }

  lemma NextWord(b: seq<Byte>, w: seq<Word>, j: nat, w0: Word, w3: Word, w7: Word, w10: Word, w13: Word, r: Word)
    requires |b| == 64 && Expanded(b, w, 68) && 16 <= j < 68 && Mix(w0, w3, w7, w10, w13) == r
    requires At(w, j - 16) == w0 && At(w, j - 13) == w3 && At(w, j - 9) == w7 && At(w, j - 6) == w10
    requires At(w, j - 3) == w13
    ensures At(w, j) == r
  {
    ExpandedAt(b, w, 68, j - 16);
    ExpandedAt(b, w, 68, j - 13);
    ExpandedAt(b, w, 68, j - 9);
    ExpandedAt(b, w, 68, j - 6);
    ExpandedAt(b, w, 68, j - 3);
    ExpandedAt(b, w, 68, j);
  }

  datatype Four = Four(
    x0: Word, x1: Word, x2: Word, x3: Word)

  // Words 16 to 19 follow from words 0 to 15.
  predicate Mixed(
      w0: Word, w1: Word, w2: Word, w3: Word, w4: Word, w5: Word, w6: Word, w7: Word, w8: Word, w9: Word, w10: Word,
      w11: Word, w12: Word, w13: Word, w14: Word, w15: Word, w16: Word, w17: Word, w18: Word, w19: Word)
  {
    Four(Mix(w0, w3, w7, w10, w13), Mix(w1, w4, w8, w11, w14), Mix(w2, w5, w9, w12, w15), Mix(w3, w6, w10, w13, w16))
    == Four(w16, w17, w18, w19)
  }

  lemma FourWords(b: seq<Byte>, w: seq<Word>, j: nat,
      w0: Word, w1: Word, w2: Word, w3: Word, w4: Word, w5: Word, w6: Word, w7: Word, w8: Word, w9: Word, w10: Word,
      w11: Word, w12: Word, w13: Word, w14: Word, w15: Word, w16: Word, w17: Word, w18: Word, w19: Word)
    requires |b| == 64 && Expanded(b, w, 68) && j + 20 <= 68
    requires Mixed(
      w0, w1, w2, w3, w4, w5, w6, w7, w8, w9, w10, w11, w12, w13, w14, w15, w16, w17, w18, w19)
    requires At(w, j + 0) == w0 && At(w, j + 1) == w1 && At(w, j + 2) == w2 && At(w, j + 3) == w3 && At(w, j + 4) == w4
      && At(w, j + 5) == w5 && At(w, j + 6) == w6 && At(w, j + 7) == w7 && At(w, j + 8) == w8 && At(w, j + 9) == w9
      && At(w, j + 10) == w10 && At(w, j + 11) == w11 && At(w, j + 12) == w12 && At(w, j + 13) == w13
      && At(w, j + 14) == w14 && At(w, j + 15) == w15
    ensures At(w, j + 16) == w16 && At(w, j + 17) == w17 && At(w, j + 18) == w18 && At(w, j + 19) == w19
  {
    NextWord(b, w, j + 16, w0, w3, w7, w10, w13, w16);
    NextWord(b, w, j + 17, w1, w4, w8, w11, w14, w17);
    NextWord(b, w, j + 18, w2, w5, w9, w12, w15, w18);
    NextWord(b, w, j + 19, w3, w6, w10, w13, w16, w19);
  }

  // ---------- Eight rounds ----------

  function Window(a0: Word, a1: Word, a2: Word, a3: Word, e0: Word, e1: Word, e2: Word, e3: Word): Regs {
    Regs(a3, a2, Rotl(a1, 9), Rotl(a0, 9), e3, e2, Rotl(e1, 19), Rotl(e0, 19))
  }

  datatype Eight = Eight(r0: Regs, r1: Regs, r2: Regs, r3: Regs, r4: Regs, r5: Regs, r6: Regs, r7: Regs)

  // The values 4 to 11 of A and of E follow from the values 0 to 3 in rounds n to n + 7, whose constant t is rotated by
  // m places in the first of them.
  predicate Stepped(n: nat, t: Word, m: bv8,
      a0: Word, a1: Word, a2: Word, a3: Word, a4: Word, a5: Word, a6: Word, a7: Word, a8: Word, a9: Word, a10: Word,
      a11: Word, e0: Word, e1: Word, e2: Word, e3: Word, e4: Word, e5: Word, e6: Word, e7: Word, e8: Word, e9: Word,
      e10: Word, e11: Word, w0: Word, w1: Word, w2: Word, w3: Word, w4: Word, w5: Word, w6: Word, w7: Word, w8: Word,
      w9: Word, w10: Word, w11: Word)
    requires m <= 24
  {
    Eight(
      StepWith(Window(a0, a1, a2, a3, e0, e1, e2, e3), n + 0, Rotl(t, m + 0), w0, Xor(w0, w4)),
      StepWith(Window(a1, a2, a3, a4, e1, e2, e3, e4), n + 1, Rotl(t, m + 1), w1, Xor(w1, w5)),
      StepWith(Window(a2, a3, a4, a5, e2, e3, e4, e5), n + 2, Rotl(t, m + 2), w2, Xor(w2, w6)),
      StepWith(Window(a3, a4, a5, a6, e3, e4, e5, e6), n + 3, Rotl(t, m + 3), w3, Xor(w3, w7)),
      StepWith(Window(a4, a5, a6, a7, e4, e5, e6, e7), n + 4, Rotl(t, m + 4), w4, Xor(w4, w8)),
      StepWith(Window(a5, a6, a7, a8, e5, e6, e7, e8), n + 5, Rotl(t, m + 5), w5, Xor(w5, w9)),
      StepWith(Window(a6, a7, a8, a9, e6, e7, e8, e9), n + 6, Rotl(t, m + 6), w6, Xor(w6, w10)),
      StepWith(Window(a7, a8, a9, a10, e7, e8, e9, e10), n + 7, Rotl(t, m + 7), w7, Xor(w7, w11)))
    == Eight(
      Window(a1, a2, a3, a4, e1, e2, e3, e4),
      Window(a2, a3, a4, a5, e2, e3, e4, e5),
      Window(a3, a4, a5, a6, e3, e4, e5, e6),
      Window(a4, a5, a6, a7, e4, e5, e6, e7),
      Window(a5, a6, a7, a8, e5, e6, e7, e8),
      Window(a6, a7, a8, a9, e6, e7, e8, e9),
      Window(a7, a8, a9, a10, e7, e8, e9, e10),
      Window(a8, a9, a10, a11, e8, e9, e10, e11))
  }

  // Rounds n to n + 7 have the constant t, rotated by m places and one more for each round.
  predicate Constants(n: nat, t: Word, m: bv8)
    requires n + 8 <= 64 && m <= 24
  {
    T(n + 0) == t && T(n + 1) == t && T(n + 2) == t && T(n + 3) == t && T(n + 4) == t && T(n + 5) == t && T(n + 6) == t
    && T(n + 7) == t
    && Places(n + 0) == m + 0 && Places(n + 1) == m + 1 && Places(n + 2) == m + 2 && Places(n + 3) == m + 3
    && Places(n + 4) == m + 4 && Places(n + 5) == m + 5 && Places(n + 6) == m + 6 && Places(n + 7) == m + 7
  }

  // y holds the sums of the words four apart.
  predicate Folded(w: seq<Word>, y: seq<Word>) {
    |w| == 68 && |y| == 64 && forall i {:trigger At(y, i)} :: 0 <= i < 64 ==> At(y, i) == Xor(At(w, i), At(w, i + 4))
  }

  lemma FoldedAt(w: seq<Word>, y: seq<Word>, n: nat, w0: Word, w4: Word)
    requires n < 64 && Folded(w, y) && At(w, n) == w0 && At(w, n + 4) == w4
    ensures At(y, n) == Xor(w0, w4)
  {
  }

  lemma OneRound(v: Regs, w: seq<Word>, y: seq<Word>, n: nat, t: Word, m: bv8, w0: Word, x: Word, r: Regs, r': Regs)
    requires n < 64 && |w| == 68 && |y| == 64 && Rounds(v, w, y, n) == r && T(n) == t && Places(n) == m
    requires At(w, n) == w0 && At(y, n) == x && StepWith(r, n, Rotl(t, m), w0, x) == r'
    ensures Rounds(v, w, y, n + 1) == r'
  {
  }

  lemma NextRound(v: Regs, w: seq<Word>, y: seq<Word>, n: nat, t: Word, m: bv8, w0: Word, w4: Word,
      r: Regs, r': Regs)
    requires n < 64 && Folded(w, y) && Rounds(v, w, y, n) == r && T(n) == t && Places(n) == m
    requires At(w, n) == w0 && At(w, n + 4) == w4 && StepWith(r, n, Rotl(t, m), w0, Xor(w0, w4)) == r'
    ensures Rounds(v, w, y, n + 1) == r'
  {
    FoldedAt(w, y, n, w0, w4);
    OneRound(v, w, y, n, t, m, w0, Xor(w0, w4), r, r');
  }

  lemma EightRounds(v: Regs, w: seq<Word>, y: seq<Word>, n: nat, t: Word, m: bv8,
      a0: Word, a1: Word, a2: Word, a3: Word, a4: Word, a5: Word, a6: Word, a7: Word, a8: Word, a9: Word, a10: Word,
      a11: Word, e0: Word, e1: Word, e2: Word, e3: Word, e4: Word, e5: Word, e6: Word, e7: Word, e8: Word, e9: Word,
      e10: Word, e11: Word, w0: Word, w1: Word, w2: Word, w3: Word, w4: Word, w5: Word, w6: Word, w7: Word, w8: Word,
      w9: Word, w10: Word, w11: Word)
    requires n + 8 <= 64 && m <= 24 && Constants(n, t, m) && Folded(w, y)
    requires Rounds(v, w, y, n) == Window(a0, a1, a2, a3, e0, e1, e2, e3)
    requires At(w, n + 0) == w0 && At(w, n + 1) == w1 && At(w, n + 2) == w2 && At(w, n + 3) == w3 && At(w, n + 4) == w4
      && At(w, n + 5) == w5 && At(w, n + 6) == w6 && At(w, n + 7) == w7 && At(w, n + 8) == w8 && At(w, n + 9) == w9
      && At(w, n + 10) == w10 && At(w, n + 11) == w11
    requires Stepped(n, t, m,
      a0, a1, a2, a3, a4, a5, a6, a7, a8, a9, a10, a11, e0, e1, e2, e3, e4, e5, e6, e7, e8, e9, e10, e11, w0, w1, w2,
      w3, w4, w5, w6, w7, w8, w9, w10, w11)
    ensures Rounds(v, w, y, n + 8) == Window(a8, a9, a10, a11, e8, e9, e10, e11)
  {
    NextRound(v, w, y, n + 0, t, m + 0, w0, w4, Window(a0, a1, a2, a3, e0, e1, e2, e3),
              Window(a1, a2, a3, a4, e1, e2, e3, e4));
    NextRound(v, w, y, n + 1, t, m + 1, w1, w5, Window(a1, a2, a3, a4, e1, e2, e3, e4),
              Window(a2, a3, a4, a5, e2, e3, e4, e5));
    NextRound(v, w, y, n + 2, t, m + 2, w2, w6, Window(a2, a3, a4, a5, e2, e3, e4, e5),
              Window(a3, a4, a5, a6, e3, e4, e5, e6));
    NextRound(v, w, y, n + 3, t, m + 3, w3, w7, Window(a3, a4, a5, a6, e3, e4, e5, e6),
              Window(a4, a5, a6, a7, e4, e5, e6, e7));
    NextRound(v, w, y, n + 4, t, m + 4, w4, w8, Window(a4, a5, a6, a7, e4, e5, e6, e7),
              Window(a5, a6, a7, a8, e5, e6, e7, e8));
    NextRound(v, w, y, n + 5, t, m + 5, w5, w9, Window(a5, a6, a7, a8, e5, e6, e7, e8),
              Window(a6, a7, a8, a9, e6, e7, e8, e9));
    NextRound(v, w, y, n + 6, t, m + 6, w6, w10, Window(a6, a7, a8, a9, e6, e7, e8, e9),
              Window(a7, a8, a9, a10, e7, e8, e9, e10));
    NextRound(v, w, y, n + 7, t, m + 7, w7, w11, Window(a7, a8, a9, a10, e7, e8, e9, e10),
              Window(a8, a9, a10, a11, e8, e9, e10, e11));
  }

  lemma ScheduleFolds(w: seq<Word>, y: seq<Word>)
    requires Folded(w, y)
    ensures y == Schedule'(w)
  {
    assert forall i :: 0 <= i < 64 ==> At(y, i) == y[i];
  }

  lemma ScheduleIs(b: seq<Byte>, w: seq<Word>)
    requires |b| == 64 && |w| == 68 && Expanded(b, w, 68)
    ensures w == Schedule(b)
  {
    forall i | 0 <= i < 68
      ensures w[i] == Schedule(b)[i]
    {
      ExpandedAt(b, w, 68, i);
    }
  }

  lemma CompressBy(v: Regs, b: seq<Byte>, w: seq<Word>, y: seq<Word>)
    requires |b| == 64 && Expanded(b, w, 68) && Folded(w, y)
    ensures Compress(v, b) == XorRegs(v, Rounds(v, w, y, 64))
  {
    ScheduleIs(b, w);
    ScheduleFolds(w, y);
  }

  // ---------- From bytes to words ----------

  function Join(b0: Byte, b1: Byte, b2: Byte, b3: Byte): Word {
    (b0 as Word << 24) | (b1 as Word << 16) | (b2 as Word << 8) | b3 as Word
  }

  lemma FirstWord(b: seq<Byte>, w: seq<Word>, i: nat, b0: Byte, b1: Byte, b2: Byte, b3: Byte, r: Word)
    requires |b| == 64 && i < 16 && Expanded(b, w, 68) && Join(b0, b1, b2, b3) == r
    requires b[4 * i] == b0 && b[4 * i + 1] == b1 && b[4 * i + 2] == b2 && b[4 * i + 3] == b3
    ensures At(w, i) == r
  {
    ExpandedAt(b, w, 68, i);
  }

  lemma WordsOf(b: seq<Byte>) returns (w: seq<Word>, y: seq<Word>)
    requires |b| == 64
    ensures |w| == 68 && Expanded(b, w, 68) && Folded(w, y)
  {
    w := Schedule(b);
    y := Schedule'(w);
    ScheduleExpands(b, 68);
  }

  // The bytes of b from i up to j are zero.
  predicate ZerosIn(b: seq<Byte>, i: nat, j: nat) {
    j <= |b| && forall k :: i <= k < j ==> b[k] == 0
  }

  lemma ZeroWord(b: seq<Byte>, w: seq<Word>, i: nat)
    requires |b| == 64 && i < 16 && Expanded(b, w, 68) && ZerosIn(b, 4 * i, 4 * i + 4)
    ensures At(w, i) == 0
  {
    FirstWord(b, w, i, 0, 0, 0, 0, 0);
  }

  lemma {:induction false} BigEndianZero(k: nat)
    ensures BigEndian(0, k) == Zeros(k)
  {
    if 0 < k {
      BigEndianZero(k - 1);
    }
  }

  lemma ShortLength()
    ensures BigEndian(24, 8) == Zeros(7) + [0x18]
  {
    BigEndianZero(7);
    assert BigEndian(24, 8) == BigEndian(0, 7) + [ByteOf(24)];
  }

  lemma LongLength()
    ensures BigEndian(512, 8) == Zeros(6) + [0x02, 0x00]
  {
    BigEndianZero(6);
    assert BigEndian(2, 7) == BigEndian(0, 6) + [ByteOf(2)];
    assert BigEndian(512, 8) == BigEndian(2, 7) + [ByteOf(0)];
  }

  lemma PadIs(m: seq<Byte>, z: nat, x: nat, t: seq<Byte>)
    requires ZeroCount(|m|) == z && LengthField(|m|) == x && BigEndian(x, 8) == t
    ensures Pad(m) == m + [0x80] + Zeros(z) + t
  {
  }

  lemma JoinBytes(b0: Byte, b1: Byte, b2: Byte, b3: Byte)
    ensures WordBytes(Join(b0, b1, b2, b3)) == [b0, b1, b2, b3]
  {
  }

  lemma WordIs(x: Word, b0: Byte, b1: Byte, b2: Byte, b3: Byte)
    requires Join(b0, b1, b2, b3) == x
    ensures WordBytes(x) == [b0, b1, b2, b3]
  {
    JoinBytes(b0, b1, b2, b3);
  }

  // ---------- The message abc ----------

  predicate AbcWords0(w: seq<Word>) {
    At(w, 0) == 0x61626380 && At(w, 1) == 0x00000000 && At(w, 2) == 0x00000000 && At(w, 3) == 0x00000000
    && At(w, 4) == 0x00000000 && At(w, 5) == 0x00000000 && At(w, 6) == 0x00000000 && At(w, 7) == 0x00000000
    && At(w, 8) == 0x00000000 && At(w, 9) == 0x00000000 && At(w, 10) == 0x00000000 && At(w, 11) == 0x00000000
    && At(w, 12) == 0x00000000 && At(w, 13) == 0x00000000 && At(w, 14) == 0x00000000 && At(w, 15) == 0x00000018
  }

  predicate AbcWords1(w: seq<Word>) {
    At(w, 16) == 0x9092E200 && At(w, 17) == 0x00000000 && At(w, 18) == 0x000C0606 && At(w, 19) == 0x719C70ED
  }

  predicate AbcWords2(w: seq<Word>) {
    At(w, 20) == 0x00000000 && At(w, 21) == 0x8001801F && At(w, 22) == 0x939F7DA9 && At(w, 23) == 0x00000000
  }

  predicate AbcWords3(w: seq<Word>) {
    At(w, 24) == 0x2C6FA1F9 && At(w, 25) == 0xADAAEF14 && At(w, 26) == 0x00000000 && At(w, 27) == 0x0001801E
  }

  predicate AbcWords4(w: seq<Word>) {
    At(w, 28) == 0x9A965F89 && At(w, 29) == 0x49710048 && At(w, 30) == 0x23CE86A1 && At(w, 31) == 0xB2D12F1B
    && At(w, 32) == 0xE1DAE338 && At(w, 33) == 0xF8061807 && At(w, 34) == 0x055D68BE && At(w, 35) == 0x86CFD481
    && At(w, 36) == 0x1F447D83 && At(w, 37) == 0xD9023DBF && At(w, 38) == 0x185898E0 && At(w, 39) == 0xE0061807
  }

  predicate AbcWords5(w: seq<Word>) {
    At(w, 40) == 0x050DF55C && At(w, 41) == 0xCDE0104C && At(w, 42) == 0xA5B9C955 && At(w, 43) == 0xA7DF0184
    && At(w, 44) == 0x6E46CD08 && At(w, 45) == 0xE3BABDF8 && At(w, 46) == 0x70CAA422 && At(w, 47) == 0x0353AF50
    && At(w, 48) == 0xA92DBCA1 && At(w, 49) == 0x5F33CFD2 && At(w, 50) == 0xE16F6E89 && At(w, 51) == 0xF70FE941
  }

  predicate AbcWords6(w: seq<Word>) {
    At(w, 52) == 0xCA5462DC && At(w, 53) == 0x85A90152 && At(w, 54) == 0x76AF6296 && At(w, 55) == 0xC922BDB2
    && At(w, 56) == 0x68378CF5 && At(w, 57) == 0x97585344 && At(w, 58) == 0x09008723 && At(w, 59) == 0x86FAEE74
    && At(w, 60) == 0x2AB908B0 && At(w, 61) == 0x4A64BC50 && At(w, 62) == 0x864E6E08 && At(w, 63) == 0xF07E6590
  }

  predicate AbcWords7(w: seq<Word>) {
    At(w, 64) == 0x325C8F78 && At(w, 65) == 0xACCB8011 && At(w, 66) == 0xE11DB9DD && At(w, 67) == 0xB99C0545
  }

  predicate AbcWords(w: seq<Word>) {
    AbcWords0(w) && AbcWords1(w) && AbcWords2(w) && AbcWords3(w) && AbcWords4(w) && AbcWords5(w) && AbcWords6(w)
    && AbcWords7(w)
  }

  lemma AbcExpands0(b: seq<Byte>, w: seq<Word>)
    requires |b| == 64 && Expanded(b, w, 68) && AbcWords0(w)
    ensures AbcWords1(w)
  {
    FourWords(b, w, 0,
      0x61626380, 0x00000000, 0x00000000, 0x00000000, 0x00000000, 0x00000000, 0x00000000, 0x00000000, 0x00000000,
      0x00000000, 0x00000000, 0x00000000, 0x00000000, 0x00000000, 0x00000000, 0x00000018, 0x9092E200, 0x00000000,
      0x000C0606, 0x719C70ED);
  }

  lemma AbcExpands1(b: seq<Byte>, w: seq<Word>)
    requires |b| == 64 && Expanded(b, w, 68) && AbcWords0(w) && AbcWords1(w)
    ensures AbcWords2(w)
  {
    FourWords(b, w, 4,
      0x00000000, 0x00000000, 0x00000000, 0x00000000, 0x00000000, 0x00000000, 0x00000000, 0x00000000, 0x00000000,
      0x00000000, 0x00000000, 0x00000018, 0x9092E200, 0x00000000, 0x000C0606, 0x719C70ED, 0x00000000, 0x8001801F,
      0x939F7DA9, 0x00000000);
  }

  lemma AbcExpands2(b: seq<Byte>, w: seq<Word>)
    requires |b| == 64 && Expanded(b, w, 68) && AbcWords0(w) && AbcWords1(w) && AbcWords2(w)
    ensures AbcWords3(w)
  {
    FourWords(b, w, 8,
      0x00000000, 0x00000000, 0x00000000, 0x00000000, 0x00000000, 0x00000000, 0x00000000, 0x00000018, 0x9092E200,
      0x00000000, 0x000C0606, 0x719C70ED, 0x00000000, 0x8001801F, 0x939F7DA9, 0x00000000, 0x2C6FA1F9, 0xADAAEF14,
      0x00000000, 0x0001801E);
  }

  lemma AbcExpands3(b: seq<Byte>, w: seq<Word>)
    requires |b| == 64 && Expanded(b, w, 68) && AbcWords0(w) && AbcWords1(w) && AbcWords2(w) && AbcWords3(w)
    ensures AbcWords4(w)
  {
    FourWords(b, w, 12,
      0x00000000, 0x00000000, 0x00000000, 0x00000018, 0x9092E200, 0x00000000, 0x000C0606, 0x719C70ED, 0x00000000,
      0x8001801F, 0x939F7DA9, 0x00000000, 0x2C6FA1F9, 0xADAAEF14, 0x00000000, 0x0001801E, 0x9A965F89, 0x49710048,
      0x23CE86A1, 0xB2D12F1B);
    FourWords(b, w, 16,
      0x9092E200, 0x00000000, 0x000C0606, 0x719C70ED, 0x00000000, 0x8001801F, 0x939F7DA9, 0x00000000, 0x2C6FA1F9,
      0xADAAEF14, 0x00000000, 0x0001801E, 0x9A965F89, 0x49710048, 0x23CE86A1, 0xB2D12F1B, 0xE1DAE338, 0xF8061807,
      0x055D68BE, 0x86CFD481);
    FourWords(b, w, 20,
      0x00000000, 0x8001801F, 0x939F7DA9, 0x00000000, 0x2C6FA1F9, 0xADAAEF14, 0x00000000, 0x0001801E, 0x9A965F89,
      0x49710048, 0x23CE86A1, 0xB2D12F1B, 0xE1DAE338, 0xF8061807, 0x055D68BE, 0x86CFD481, 0x1F447D83, 0xD9023DBF,
      0x185898E0, 0xE0061807);
  }

  lemma AbcExpands4(b: seq<Byte>, w: seq<Word>)
    requires |b| == 64 && Expanded(b, w, 68) && AbcWords3(w) && AbcWords4(w)
    ensures AbcWords5(w)
  {
    FourWords(b, w, 24,
      0x2C6FA1F9, 0xADAAEF14, 0x00000000, 0x0001801E, 0x9A965F89, 0x49710048, 0x23CE86A1, 0xB2D12F1B, 0xE1DAE338,
      0xF8061807, 0x055D68BE, 0x86CFD481, 0x1F447D83, 0xD9023DBF, 0x185898E0, 0xE0061807, 0x050DF55C, 0xCDE0104C,
      0xA5B9C955, 0xA7DF0184);
    FourWords(b, w, 28,
      0x9A965F89, 0x49710048, 0x23CE86A1, 0xB2D12F1B, 0xE1DAE338, 0xF8061807, 0x055D68BE, 0x86CFD481, 0x1F447D83,
      0xD9023DBF, 0x185898E0, 0xE0061807, 0x050DF55C, 0xCDE0104C, 0xA5B9C955, 0xA7DF0184, 0x6E46CD08, 0xE3BABDF8,
      0x70CAA422, 0x0353AF50);
    FourWords(b, w, 32,
      0xE1DAE338, 0xF8061807, 0x055D68BE, 0x86CFD481, 0x1F447D83, 0xD9023DBF, 0x185898E0, 0xE0061807, 0x050DF55C,
      0xCDE0104C, 0xA5B9C955, 0xA7DF0184, 0x6E46CD08, 0xE3BABDF8, 0x70CAA422, 0x0353AF50, 0xA92DBCA1, 0x5F33CFD2,
      0xE16F6E89, 0xF70FE941);
  }

  lemma AbcExpands5(b: seq<Byte>, w: seq<Word>)
    requires |b| == 64 && Expanded(b, w, 68) && AbcWords4(w) && AbcWords5(w)
    ensures AbcWords6(w)
  {
    FourWords(b, w, 36,
      0x1F447D83, 0xD9023DBF, 0x185898E0, 0xE0061807, 0x050DF55C, 0xCDE0104C, 0xA5B9C955, 0xA7DF0184, 0x6E46CD08,
      0xE3BABDF8, 0x70CAA422, 0x0353AF50, 0xA92DBCA1, 0x5F33CFD2, 0xE16F6E89, 0xF70FE941, 0xCA5462DC, 0x85A90152,
      0x76AF6296, 0xC922BDB2);
    FourWords(b, w, 40,
      0x050DF55C, 0xCDE0104C, 0xA5B9C955, 0xA7DF0184, 0x6E46CD08, 0xE3BABDF8, 0x70CAA422, 0x0353AF50, 0xA92DBCA1,
      0x5F33CFD2, 0xE16F6E89, 0xF70FE941, 0xCA5462DC, 0x85A90152, 0x76AF6296, 0xC922BDB2, 0x68378CF5, 0x97585344,
      0x09008723, 0x86FAEE74);
    FourWords(b, w, 44,
      0x6E46CD08, 0xE3BABDF8, 0x70CAA422, 0x0353AF50, 0xA92DBCA1, 0x5F33CFD2, 0xE16F6E89, 0xF70FE941, 0xCA5462DC,
      0x85A90152, 0x76AF6296, 0xC922BDB2, 0x68378CF5, 0x97585344, 0x09008723, 0x86FAEE74, 0x2AB908B0, 0x4A64BC50,
      0x864E6E08, 0xF07E6590);
  }

  lemma AbcExpands6(b: seq<Byte>, w: seq<Word>)
    requires |b| == 64 && Expanded(b, w, 68) && AbcWords5(w) && AbcWords6(w)
    ensures AbcWords7(w)
  {
    FourWords(b, w, 48,
      0xA92DBCA1, 0x5F33CFD2, 0xE16F6E89, 0xF70FE941, 0xCA5462DC, 0x85A90152, 0x76AF6296, 0xC922BDB2, 0x68378CF5,
      0x97585344, 0x09008723, 0x86FAEE74, 0x2AB908B0, 0x4A64BC50, 0x864E6E08, 0xF07E6590, 0x325C8F78, 0xACCB8011,
      0xE11DB9DD, 0xB99C0545);
  }

  lemma AbcRounds0(v: Regs, w: seq<Word>, y: seq<Word>)
    requires Folded(w, y) && AbcWords(w)
    requires Rounds(v, w, y, 0) == Window(
      0x006D4503, 0x6B8B9221, 0x4914B2B9, 0x7380166F, 0x61C9D61F, 0xBDC9BC71, 0x163138AA, 0xA96F30BC)
    ensures Rounds(v, w, y, 8) == Window(
      0x1F995766, 0x374A0CA7, 0x33130100, 0x1022AC97, 0x8AD212EA, 0xACF0F639, 0x3391EC8A, 0x367250A1)
  {
    EightRounds(v, w, y, 0, 0x79CC4519, 0,
      0x006D4503, 0x6B8B9221, 0x4914B2B9, 0x7380166F, 0xB9EDC12B, 0xEA52428C, 0x609F2850, 0x35037E59, 0x1F995766,
      0x374A0CA7, 0x33130100, 0x1022AC97, 0x61C9D61F, 0xBDC9BC71, 0x163138AA, 0xA96F30BC, 0xB2AD29F4, 0xAC353A23,
      0xD33AD5FB, 0xB8204B5F, 0x8AD212EA, 0xACF0F639, 0x3391EC8A, 0x367250A1, 0x61626380, 0x00000000, 0x00000000,
      0x00000000, 0x00000000, 0x00000000, 0x00000000, 0x00000000, 0x00000000, 0x00000000, 0x00000000, 0x00000000);
  }

  lemma AbcRounds1(v: Regs, w: seq<Word>, y: seq<Word>)
    requires Folded(w, y) && AbcWords(w)
    requires Rounds(v, w, y, 8) == Window(
      0x1F995766, 0x374A0CA7, 0x33130100, 0x1022AC97, 0x8AD212EA, 0xACF0F639, 0x3391EC8A, 0x367250A1)
    ensures Rounds(v, w, y, 16) == Window(
      0x89CBCD58, 0x24C95ABC, 0x7C529778, 0x34D1691E, 0x6370DB62, 0x1A4A2554, 0x3EE95933, 0x61F99646)
  {
    EightRounds(v, w, y, 8, 0x79CC4519, 8,
      0x1F995766, 0x374A0CA7, 0x33130100, 0x1022AC97, 0xD47CAF4C, 0x59C2744B, 0x481BA2A0, 0x694A3D09, 0x89CBCD58,
      0x24C95ABC, 0x7C529778, 0x34D1691E, 0x8AD212EA, 0xACF0F639, 0x3391EC8A, 0x367250A1, 0x6AD473A4, 0xC6A3CEAE,
      0x02AFB727, 0x9DD1B58C, 0x6370DB62, 0x1A4A2554, 0x3EE95933, 0x61F99646, 0x00000000, 0x00000000, 0x00000000,
      0x00000000, 0x00000000, 0x00000000, 0x00000000, 0x00000018, 0x9092E200, 0x00000000, 0x000C0606, 0x719C70ED);
  }

  lemma AbcRounds2(v: Regs, w: seq<Word>, y: seq<Word>)
    requires Folded(w, y) && AbcWords(w)
    requires Rounds(v, w, y, 16) == Window(
      0x89CBCD58, 0x24C95ABC, 0x7C529778, 0x34D1691E, 0x6370DB62, 0x1A4A2554, 0x3EE95933, 0x61F99646)
    ensures Rounds(v, w, y, 24) == Window(
      0x02C57896, 0x4D0C2FCD, 0xEEEEC41A, 0xF368DA78, 0x74576681, 0x576F1D09, 0xB5523911, 0x6A879032)
  {
    EightRounds(v, w, y, 16, 0x7A879D8A, 16,
      0x89CBCD58, 0x24C95ABC, 0x7C529778, 0x34D1691E, 0x796AFAB1, 0x7D27CC0E, 0xD7820AD1, 0xF84FD372, 0x02C57896,
      0x4D0C2FCD, 0xEEEEC41A, 0xF368DA78, 0x6370DB62, 0x1A4A2554, 0x3EE95933, 0x61F99646, 0x067550F5, 0xB3C8669B,
      0x575C37D8, 0xA5DCEAF1, 0x74576681, 0x576F1D09, 0xB5523911, 0x6A879032, 0x9092E200, 0x00000000, 0x000C0606,
      0x719C70ED, 0x00000000, 0x8001801F, 0x939F7DA9, 0x00000000, 0x2C6FA1F9, 0xADAAEF14, 0x00000000, 0x0001801E);
  }

  lemma AbcRounds3(v: Regs, w: seq<Word>, y: seq<Word>)
    requires Folded(w, y) && AbcWords(w)
    requires Rounds(v, w, y, 24) == Window(
      0x02C57896, 0x4D0C2FCD, 0xEEEEC41A, 0xF368DA78, 0x74576681, 0x576F1D09, 0xB5523911, 0x6A879032)
    ensures Rounds(v, w, y, 32) == Window(
      0xE11EB847, 0xFF9BAC9D, 0xA5A4A2B3, 0x89A13E59, 0xE5B64E96, 0x9811B46D, 0xE92DF4EA, 0x0A1FF572)
  {
    EightRounds(v, w, y, 24, 0x7A879D8A, 24,
      0x02C57896, 0x4D0C2FCD, 0xEEEEC41A, 0xF368DA78, 0x15CE1286, 0xC3FD31C2, 0x6243BE5E, 0xA549BEAA, 0xE11EB847,
      0xFF9BAC9D, 0xA5A4A2B3, 0x89A13E59, 0x74576681, 0x576F1D09, 0xB5523911, 0x6A879032, 0x62063354, 0x4DB58F43,
      0x131152FE, 0xCF65E309, 0xE5B64E96, 0x9811B46D, 0xE92DF4EA, 0x0A1FF572, 0x2C6FA1F9, 0xADAAEF14, 0x00000000,
      0x0001801E, 0x9A965F89, 0x49710048, 0x23CE86A1, 0xB2D12F1B, 0xE1DAE338, 0xF8061807, 0x055D68BE, 0x86CFD481);
  }

  lemma AbcRounds4(v: Regs, w: seq<Word>, y: seq<Word>)
    requires Folded(w, y) && AbcWords(w)
    requires Rounds(v, w, y, 32) == Window(
      0xE11EB847, 0xFF9BAC9D, 0xA5A4A2B3, 0x89A13E59, 0xE5B64E96, 0x9811B46D, 0xE92DF4EA, 0x0A1FF572)
    ensures Rounds(v, w, y, 40) == Window(
      0xE142D72B, 0xE7250598, 0x2F13C4AD, 0x19F363F9, 0xD4509586, 0xC7F93FD3, 0x1A6CABC9, 0xC302BADB)
  {
    EightRounds(v, w, y, 32, 0x7A879D8A, 0,
      0xE11EB847, 0xFF9BAC9D, 0xA5A4A2B3, 0x89A13E59, 0x3720BD4E, 0x9CCD089C, 0xC7A0744D, 0xD955C3ED, 0xE142D72B,
      0xE7250598, 0x2F13C4AD, 0x19F363F9, 0xE5B64E96, 0x9811B46D, 0xE92DF4EA, 0x0A1FF572, 0xCF7D1683, 0xDA8C835F,
      0x0958FF1B, 0xC533F0FF, 0xD4509586, 0xC7F93FD3, 0x1A6CABC9, 0xC302BADB, 0xE1DAE338, 0xF8061807, 0x055D68BE,
      0x86CFD481, 0x1F447D83, 0xD9023DBF, 0x185898E0, 0xE0061807, 0x050DF55C, 0xCDE0104C, 0xA5B9C955, 0xA7DF0184);
  }

  lemma AbcRounds5(v: Regs, w: seq<Word>, y: seq<Word>)
    requires Folded(w, y) && AbcWords(w)
    requires Rounds(v, w, y, 40) == Window(
      0xE142D72B, 0xE7250598, 0x2F13C4AD, 0x19F363F9, 0xD4509586, 0xC7F93FD3, 0x1A6CABC9, 0xC302BADB)
    ensures Rounds(v, w, y, 48) == Window(
      0xD8685939, 0xD2090A86, 0xE51076B3, 0x47C5BE50, 0x8EE87DF5, 0x2E533625, 0xD9F89E61, 0x3567734E)
  {
    EightRounds(v, w, y, 40, 0x7A879D8A, 8,
      0xE142D72B, 0xE7250598, 0x2F13C4AD, 0x19F363F9, 0x55E1DDE2, 0xD4F4EFE3, 0x48DCBC62, 0x8237B8A0, 0xD8685939,
      0xD2090A86, 0xE51076B3, 0x47C5BE50, 0xD4509586, 0xC7F93FD3, 0x1A6CABC9, 0xC302BADB, 0x459DACCF, 0x5CFBA85A,
      0x6F49C7BB, 0xD89D2711, 0x8EE87DF5, 0x2E533625, 0xD9F89E61, 0x3567734E, 0x050DF55C, 0xCDE0104C, 0xA5B9C955,
      0xA7DF0184, 0x6E46CD08, 0xE3BABDF8, 0x70CAA422, 0x0353AF50, 0xA92DBCA1, 0x5F33CFD2, 0xE16F6E89, 0xF70FE941);
  }

  lemma AbcRounds6(v: Regs, w: seq<Word>, y: seq<Word>)
    requires Folded(w, y) && AbcWords(w)
    requires Rounds(v, w, y, 48) == Window(
      0xD8685939, 0xD2090A86, 0xE51076B3, 0x47C5BE50, 0x8EE87DF5, 0x2E533625, 0xD9F89E61, 0x3567734E)
    ensures Rounds(v, w, y, 56) == Window(
      0x4A00ED2F, 0xF4412E82, 0x549DB4B7, 0x22A79585, 0x0741F675, 0x7429807C, 0xF6BC15ED, 0x9D4DB19A)
  {
    EightRounds(v, w, y, 48, 0x7A879D8A, 16,
      0xD8685939, 0xD2090A86, 0xE51076B3, 0x47C5BE50, 0xABDDBDC8, 0xBD708003, 0x15E2F5D3, 0x13826486, 0x4A00ED2F,
      0xF4412E82, 0x549DB4B7, 0x22A79585, 0x8EE87DF5, 0x2E533625, 0xD9F89E61, 0x3567734E, 0x3DFCDD11, 0x93494BC0,
      0xC3956C3F, 0xCD09A51C, 0x0741F675, 0x7429807C, 0xF6BC15ED, 0x9D4DB19A, 0xA92DBCA1, 0x5F33CFD2, 0xE16F6E89,
      0xF70FE941, 0xCA5462DC, 0x85A90152, 0x76AF6296, 0xC922BDB2, 0x68378CF5, 0x97585344, 0x09008723, 0x86FAEE74);
  }

  lemma AbcRounds7(v: Regs, w: seq<Word>, y: seq<Word>)
    requires Folded(w, y) && AbcWords(w)
    requires Rounds(v, w, y, 56) == Window(
      0x4A00ED2F, 0xF4412E82, 0x549DB4B7, 0x22A79585, 0x0741F675, 0x7429807C, 0xF6BC15ED, 0x9D4DB19A)
    ensures Rounds(v, w, y, 64) == Window(
      0x71034D71, 0x5E636B4B, 0x2BFA5F60, 0x1547E69B, 0x14D5C7F6, 0x09CCD95E, 0x4AC3CF08, 0xE808F43B)
  {
    EightRounds(v, w, y, 56, 0x7A879D8A, 24,
      0x4A00ED2F, 0xF4412E82, 0x549DB4B7, 0x22A79585, 0x30245B78, 0x6598314F, 0xC3D629A9, 0xDDB0A26A, 0x71034D71,
      0x5E636B4B, 0x2BFA5F60, 0x1547E69B, 0x0741F675, 0x7429807C, 0xF6BC15ED, 0x9D4DB19A, 0xF6804C82, 0xF522ADB2,
      0x14FB0764, 0x589F7D5C, 0x14D5C7F6, 0x09CCD95E, 0x4AC3CF08, 0xE808F43B, 0x68378CF5, 0x97585344, 0x09008723,
      0x86FAEE74, 0x2AB908B0, 0x4A64BC50, 0x864E6E08, 0xF07E6590, 0x325C8F78, 0xACCB8011, 0xE11DB9DD, 0xB99C0545);
  }

  lemma AbcSchedule(b: seq<Byte>, w: seq<Word>)
    requires |b| == 64 && Expanded(b, w, 68) && AbcWords0(w)
    ensures AbcWords(w)
  {
    AbcExpands0(b, w);
    AbcExpands1(b, w);
    AbcExpands2(b, w);
    AbcExpands3(b, w);
    AbcExpands4(b, w);
    AbcExpands5(b, w);
    AbcExpands6(b, w);
  }

  lemma AbcRun(v: Regs, w: seq<Word>, y: seq<Word>)
    requires Folded(w, y) && AbcWords(w)
    requires v == Window(
      0x006D4503, 0x6B8B9221, 0x4914B2B9, 0x7380166F, 0x61C9D61F, 0xBDC9BC71, 0x163138AA, 0xA96F30BC)
    ensures Rounds(v, w, y, 64) == Window(
      0x71034D71, 0x5E636B4B, 0x2BFA5F60, 0x1547E69B, 0x14D5C7F6, 0x09CCD95E, 0x4AC3CF08, 0xE808F43B)
  {
    AbcRounds0(v, w, y);
    AbcRounds1(v, w, y);
    AbcRounds2(v, w, y);
    AbcRounds3(v, w, y);
    AbcRounds4(v, w, y);
    AbcRounds5(v, w, y);
    AbcRounds6(v, w, y);
    AbcRounds7(v, w, y);
  }

  lemma AbcOutcome(v: Regs, b: seq<Byte>, w: seq<Word>, y: seq<Word>)
    requires |b| == 64 && Expanded(b, w, 68) && Folded(w, y) && AbcWords0(w)
    requires v == Regs(
      0x7380166F, 0x4914B2B9, 0x172442D7, 0xDA8A0600, 0xA96F30BC, 0x163138AA, 0xE38DEE4D, 0xB0FB0E4E)
    ensures XorRegs(v, Rounds(v, w, y, 64)) == Regs(
      0x66C7F0F4, 0x62EEEDD9, 0xD1F2D46B, 0xDC10E4E2, 0x4167C487, 0x5CF2F7A2, 0x297DA02B, 0x8F4BA8E0)
  {
    AbcSchedule(b, w);
    AbcSum();
    AbcRun(v, w, y);
  }

  lemma AbcCompress(v: Regs, b: seq<Byte>, w: seq<Word>, y: seq<Word>)
    requires |b| == 64 && Expanded(b, w, 68) && Folded(w, y) && AbcWords0(w)
    requires v == Regs(
      0x7380166F, 0x4914B2B9, 0x172442D7, 0xDA8A0600, 0xA96F30BC, 0x163138AA, 0xE38DEE4D, 0xB0FB0E4E)
    ensures Compress(v, b) == Regs(
      0x66C7F0F4, 0x62EEEDD9, 0xD1F2D46B, 0xDC10E4E2, 0x4167C487, 0x5CF2F7A2, 0x297DA02B, 0x8F4BA8E0)
  {
    CompressBy(v, b, w, y);
    AbcOutcome(v, b, w, y);
  }

  lemma AbcSum()
    ensures Window(
      0x006D4503, 0x6B8B9221, 0x4914B2B9, 0x7380166F, 0x61C9D61F, 0xBDC9BC71, 0x163138AA, 0xA96F30BC)
      == Regs(
      0x7380166F, 0x4914B2B9, 0x172442D7, 0xDA8A0600, 0xA96F30BC, 0x163138AA, 0xE38DEE4D, 0xB0FB0E4E)
    ensures XorRegs(Regs(
      0x7380166F, 0x4914B2B9, 0x172442D7, 0xDA8A0600, 0xA96F30BC, 0x163138AA, 0xE38DEE4D, 0xB0FB0E4E), Window(
      0x71034D71, 0x5E636B4B, 0x2BFA5F60, 0x1547E69B, 0x14D5C7F6, 0x09CCD95E, 0x4AC3CF08, 0xE808F43B))
      == Regs(
      0x66C7F0F4, 0x62EEEDD9, 0xD1F2D46B, 0xDC10E4E2, 0x4167C487, 0x5CF2F7A2, 0x297DA02B, 0x8F4BA8E0)
  {
  }

  lemma AbcFirst(b: seq<Byte>, w: seq<Word>)
    requires |b| == 64 && Expanded(b, w, 68) && b[..4] == [0x61, 0x62, 0x63, 0x80] && ZerosIn(b, 4, 63) && b[63] == 0x18
    ensures AbcWords0(w)
  {
    assert b[0] == b[..4][0] && b[1] == b[..4][1] && b[2] == b[..4][2] && b[3] == b[..4][3];
    FirstWord(b, w, 0, 0x61, 0x62, 0x63, 0x80, 0x61626380);
    ZeroWord(b, w, 1);
    ZeroWord(b, w, 2);
    ZeroWord(b, w, 3);
    ZeroWord(b, w, 4);
    ZeroWord(b, w, 5);
    ZeroWord(b, w, 6);
    ZeroWord(b, w, 7);
    ZeroWord(b, w, 8);
    ZeroWord(b, w, 9);
    ZeroWord(b, w, 10);
    ZeroWord(b, w, 11);
    ZeroWord(b, w, 12);
    ZeroWord(b, w, 13);
    ZeroWord(b, w, 14);
    FirstWord(b, w, 15, 0x00, 0x00, 0x00, 0x18, 0x00000018);
  }

  // The padded message: m, 0x80, 52 + 7 zeros and the length of 24 bits.
  lemma AbcBytes(m: seq<Byte>, p: seq<Byte>)
    requires m == [0x61, 0x62, 0x63] && p == m + [0x80] + Zeros(52) + (Zeros(7) + [0x18])
    ensures |p| == 64 && p[..4] == [0x61, 0x62, 0x63, 0x80] && ZerosIn(p, 4, 63) && p[63] == 0x18
  {
  }

  lemma AbcCounts(n: nat)
    requires n == 3
    ensures ZeroCount(n) == 52 && LengthField(n) == 24
  {
  }

  lemma AbcPad(m: seq<Byte>)
    requires ZeroCount(|m|) == 52 && LengthField(|m|) == 24
    ensures Pad(m) == m + [0x80] + Zeros(52) + (Zeros(7) + [0x18])
  {
    ShortLength();
    PadIs(m, 52, 24, Zeros(7) + [0x18]);
  }

  lemma OneBlock(m: seq<Byte>)
    requires |Pad(m)| == 64
    ensures Digest(m) == RegsBytes(Compress(IV, Pad(m)))
  {
    assert Block(Pad(m), 0) == Pad(m);
    assert Iterate(IV, Pad(m), 0) == IV;
    IterateStep(IV, Pad(m), 0, IV, Pad(m));
  }

  lemma AbcRegs(v: Regs, b: seq<Byte>)
    requires |b| == 64 && b[..4] == [0x61, 0x62, 0x63, 0x80] && ZerosIn(b, 4, 63) && b[63] == 0x18
    requires v == Regs(
      0x7380166F, 0x4914B2B9, 0x172442D7, 0xDA8A0600, 0xA96F30BC, 0x163138AA, 0xE38DEE4D, 0xB0FB0E4E)
    ensures Compress(v, b) == Regs(
      0x66C7F0F4, 0x62EEEDD9, 0xD1F2D46B, 0xDC10E4E2, 0x4167C487, 0x5CF2F7A2, 0x297DA02B, 0x8F4BA8E0)
  {
    var w, y := WordsOf(b);
    AbcFirst(b, w);
    AbcCompress(v, b, w, y);
  }

  lemma AbcDigestBytes(r: Regs)
    requires r == Regs(
      0x66C7F0F4, 0x62EEEDD9, 0xD1F2D46B, 0xDC10E4E2, 0x4167C487, 0x5CF2F7A2, 0x297DA02B, 0x8F4BA8E0)
    ensures RegsBytes(r) ==
      [0x66, 0xC7, 0xF0, 0xF4] + [0x62, 0xEE, 0xED, 0xD9] + [0xD1, 0xF2, 0xD4, 0x6B] + [0xDC, 0x10, 0xE4, 0xE2]
      + [0x41, 0x67, 0xC4, 0x87] + [0x5C, 0xF2, 0xF7, 0xA2] + [0x29, 0x7D, 0xA0, 0x2B] + [0x8F, 0x4B, 0xA8, 0xE0]
  {
    WordIs(0x66C7F0F4, 0x66, 0xC7, 0xF0, 0xF4);
    WordIs(0x62EEEDD9, 0x62, 0xEE, 0xED, 0xD9);
    WordIs(0xD1F2D46B, 0xD1, 0xF2, 0xD4, 0x6B);
    WordIs(0xDC10E4E2, 0xDC, 0x10, 0xE4, 0xE2);
    WordIs(0x4167C487, 0x41, 0x67, 0xC4, 0x87);
    WordIs(0x5CF2F7A2, 0x5C, 0xF2, 0xF7, 0xA2);
    WordIs(0x297DA02B, 0x29, 0x7D, 0xA0, 0x2B);
    WordIs(0x8F4BA8E0, 0x8F, 0x4B, 0xA8, 0xE0);
  }

  /** Example 1: the message abc. */
  lemma DigestOfAbc(m: seq<Byte>)
    requires m == [0x61, 0x62, 0x63]
    ensures Digest(m) ==
      [0x66, 0xC7, 0xF0, 0xF4] + [0x62, 0xEE, 0xED, 0xD9] + [0xD1, 0xF2, 0xD4, 0x6B] + [0xDC, 0x10, 0xE4, 0xE2]
      + [0x41, 0x67, 0xC4, 0x87] + [0x5C, 0xF2, 0xF7, 0xA2] + [0x29, 0x7D, 0xA0, 0x2B] + [0x8F, 0x4B, 0xA8, 0xE0]
  {
    AbcCounts(|m|);
    AbcPad(m);
    AbcBytes(m, Pad(m));
    OneBlock(m);
    AbcRegs(IV, Pad(m));
    AbcDigestBytes(Compress(IV, Pad(m)));
  }

  // ---------- The message of sixteen times abcd ----------

  // n times abcd.
  function Repeated(n: nat): (b: seq<Byte>)
    ensures |b| == 4 * n
  {
    if n == 0 then [] else Repeated(n - 1) + [0x61, 0x62, 0x63, 0x64]
  }

  lemma {:induction false} RepeatedAt(n: nat, i: nat)
    requires i < n
    ensures Repeated(n)[4 * i] == 0x61 && Repeated(n)[4 * i + 1] == 0x62
    ensures Repeated(n)[4 * i + 2] == 0x63 && Repeated(n)[4 * i + 3] == 0x64
  {
    if i < n - 1 {
      RepeatedAt(n - 1, i);
    }
  }

  lemma HeadWord(b: seq<Byte>, w: seq<Word>, i: nat)
    requires b == Repeated(16) && i < 16 && |b| == 64 && Expanded(b, w, 68)
    ensures At(w, i) == 0x61626364
  {
    RepeatedAt(16, i);
    FirstWord(b, w, i, 0x61, 0x62, 0x63, 0x64, 0x61626364);
  }

  // ---------- Its first block ----------

  predicate HeadWords0(w: seq<Word>) {
    At(w, 0) == 0x61626364 && At(w, 1) == 0x61626364 && At(w, 2) == 0x61626364 && At(w, 3) == 0x61626364
    && At(w, 4) == 0x61626364 && At(w, 5) == 0x61626364 && At(w, 6) == 0x61626364 && At(w, 7) == 0x61626364
    && At(w, 8) == 0x61626364 && At(w, 9) == 0x61626364 && At(w, 10) == 0x61626364 && At(w, 11) == 0x61626364
    && At(w, 12) == 0x61626364 && At(w, 13) == 0x61626364 && At(w, 14) == 0x61626364 && At(w, 15) == 0x61626364
  }

  predicate HeadWords1(w: seq<Word>) {
    At(w, 16) == 0xA121A024 && At(w, 17) == 0xA121A024 && At(w, 18) == 0xA121A024 && At(w, 19) == 0x6061E0E5
    && At(w, 20) == 0x6061E0E5 && At(w, 21) == 0x6061E0E5 && At(w, 22) == 0xA002E345 && At(w, 23) == 0xA002E345
    && At(w, 24) == 0xA002E345 && At(w, 25) == 0x49C969ED && At(w, 26) == 0x49C969ED && At(w, 27) == 0x49C969ED
  }

  predicate HeadWords2(w: seq<Word>) {
    At(w, 28) == 0x85AE5679 && At(w, 29) == 0xA44FF619 && At(w, 30) == 0xA44FF619 && At(w, 31) == 0x694B6244
    && At(w, 32) == 0xE8C8E0C4 && At(w, 33) == 0xE8C8E0C4 && At(w, 34) == 0x240E103E && At(w, 35) == 0x346E603E
    && At(w, 36) == 0x346E603E && At(w, 37) == 0x9A517AB5 && At(w, 38) == 0x8A01AA25 && At(w, 39) == 0x8A01AA25
  }

  predicate HeadWords3(w: seq<Word>) {
    At(w, 40) == 0x0607191C && At(w, 41) == 0x25F8A37A && At(w, 42) == 0xD528936A && At(w, 43) == 0x89FBD8AE
    && At(w, 44) == 0x00606206 && At(w, 45) == 0x10501256 && At(w, 46) == 0x7CFF7EF9 && At(w, 47) == 0x3C78B9F9
    && At(w, 48) == 0xCC2B8A69 && At(w, 49) == 0x9F03F169 && At(w, 50) == 0xDF45BE20 && At(w, 51) == 0x9EC5BEE1
  }

  predicate HeadWords4(w: seq<Word>) {
    At(w, 52) == 0x0A212906 && At(w, 53) == 0x49FF72C0 && At(w, 54) == 0x46717241 && At(w, 55) == 0x67E09A19
    && At(w, 56) == 0x6EFAA333 && At(w, 57) == 0x2EBAE676 && At(w, 58) == 0x3475C386 && At(w, 59) == 0x201DCFF6
    && At(w, 60) == 0x2F18FCCF && At(w, 61) == 0x2C5F2B5C && At(w, 62) == 0xA80B9F38 && At(w, 63) == 0xBC139F34
  }

  predicate HeadWords5(w: seq<Word>) {
    At(w, 64) == 0xC47F18A7 && At(w, 65) == 0xA25CE71D && At(w, 66) == 0x42743705 && At(w, 67) == 0x51BAF619
  }

  predicate HeadWords(w: seq<Word>) {
    HeadWords0(w) && HeadWords1(w) && HeadWords2(w) && HeadWords3(w) && HeadWords4(w) && HeadWords5(w)
  }

  lemma HeadExpands0(b: seq<Byte>, w: seq<Word>)
    requires |b| == 64 && Expanded(b, w, 68) && HeadWords0(w)
    ensures HeadWords1(w)
  {
    FourWords(b, w, 0,
      0x61626364, 0x61626364, 0x61626364, 0x61626364, 0x61626364, 0x61626364, 0x61626364, 0x61626364, 0x61626364,
      0x61626364, 0x61626364, 0x61626364, 0x61626364, 0x61626364, 0x61626364, 0x61626364, 0xA121A024, 0xA121A024,
      0xA121A024, 0x6061E0E5);
    FourWords(b, w, 4,
      0x61626364, 0x61626364, 0x61626364, 0x61626364, 0x61626364, 0x61626364, 0x61626364, 0x61626364, 0x61626364,
      0x61626364, 0x61626364, 0x61626364, 0xA121A024, 0xA121A024, 0xA121A024, 0x6061E0E5, 0x6061E0E5, 0x6061E0E5,
      0xA002E345, 0xA002E345);
    FourWords(b, w, 8,
      0x61626364, 0x61626364, 0x61626364, 0x61626364, 0x61626364, 0x61626364, 0x61626364, 0x61626364, 0xA121A024,
      0xA121A024, 0xA121A024, 0x6061E0E5, 0x6061E0E5, 0x6061E0E5, 0xA002E345, 0xA002E345, 0xA002E345, 0x49C969ED,
      0x49C969ED, 0x49C969ED);
  }

  lemma HeadExpands1(b: seq<Byte>, w: seq<Word>)
    requires |b| == 64 && Expanded(b, w, 68) && HeadWords0(w) && HeadWords1(w)
    ensures HeadWords2(w)
  {
    FourWords(b, w, 12,
      0x61626364, 0x61626364, 0x61626364, 0x61626364, 0xA121A024, 0xA121A024, 0xA121A024, 0x6061E0E5, 0x6061E0E5,
      0x6061E0E5, 0xA002E345, 0xA002E345, 0xA002E345, 0x49C969ED, 0x49C969ED, 0x49C969ED, 0x85AE5679, 0xA44FF619,
      0xA44FF619, 0x694B6244);
    FourWords(b, w, 16,
      0xA121A024, 0xA121A024, 0xA121A024, 0x6061E0E5, 0x6061E0E5, 0x6061E0E5, 0xA002E345, 0xA002E345, 0xA002E345,
      0x49C969ED, 0x49C969ED, 0x49C969ED, 0x85AE5679, 0xA44FF619, 0xA44FF619, 0x694B6244, 0xE8C8E0C4, 0xE8C8E0C4,
      0x240E103E, 0x346E603E);
    FourWords(b, w, 20,
      0x6061E0E5, 0x6061E0E5, 0xA002E345, 0xA002E345, 0xA002E345, 0x49C969ED, 0x49C969ED, 0x49C969ED, 0x85AE5679,
      0xA44FF619, 0xA44FF619, 0x694B6244, 0xE8C8E0C4, 0xE8C8E0C4, 0x240E103E, 0x346E603E, 0x346E603E, 0x9A517AB5,
      0x8A01AA25, 0x8A01AA25);
  }

  lemma HeadExpands2(b: seq<Byte>, w: seq<Word>)
    requires |b| == 64 && Expanded(b, w, 68) && HeadWords1(w) && HeadWords2(w)
    ensures HeadWords3(w)
  {
    FourWords(b, w, 24,
      0xA002E345, 0x49C969ED, 0x49C969ED, 0x49C969ED, 0x85AE5679, 0xA44FF619, 0xA44FF619, 0x694B6244, 0xE8C8E0C4,
      0xE8C8E0C4, 0x240E103E, 0x346E603E, 0x346E603E, 0x9A517AB5, 0x8A01AA25, 0x8A01AA25, 0x0607191C, 0x25F8A37A,
      0xD528936A, 0x89FBD8AE);
    FourWords(b, w, 28,
      0x85AE5679, 0xA44FF619, 0xA44FF619, 0x694B6244, 0xE8C8E0C4, 0xE8C8E0C4, 0x240E103E, 0x346E603E, 0x346E603E,
      0x9A517AB5, 0x8A01AA25, 0x8A01AA25, 0x0607191C, 0x25F8A37A, 0xD528936A, 0x89FBD8AE, 0x00606206, 0x10501256,
      0x7CFF7EF9, 0x3C78B9F9);
    FourWords(b, w, 32,
      0xE8C8E0C4, 0xE8C8E0C4, 0x240E103E, 0x346E603E, 0x346E603E, 0x9A517AB5, 0x8A01AA25, 0x8A01AA25, 0x0607191C,
      0x25F8A37A, 0xD528936A, 0x89FBD8AE, 0x00606206, 0x10501256, 0x7CFF7EF9, 0x3C78B9F9, 0xCC2B8A69, 0x9F03F169,
      0xDF45BE20, 0x9EC5BEE1);
  }

  lemma HeadExpands3(b: seq<Byte>, w: seq<Word>)
    requires |b| == 64 && Expanded(b, w, 68) && HeadWords2(w) && HeadWords3(w)
    ensures HeadWords4(w)
  {
    FourWords(b, w, 36,
      0x346E603E, 0x9A517AB5, 0x8A01AA25, 0x8A01AA25, 0x0607191C, 0x25F8A37A, 0xD528936A, 0x89FBD8AE, 0x00606206,
      0x10501256, 0x7CFF7EF9, 0x3C78B9F9, 0xCC2B8A69, 0x9F03F169, 0xDF45BE20, 0x9EC5BEE1, 0x0A212906, 0x49FF72C0,
      0x46717241, 0x67E09A19);
    FourWords(b, w, 40,
      0x0607191C, 0x25F8A37A, 0xD528936A, 0x89FBD8AE, 0x00606206, 0x10501256, 0x7CFF7EF9, 0x3C78B9F9, 0xCC2B8A69,
      0x9F03F169, 0xDF45BE20, 0x9EC5BEE1, 0x0A212906, 0x49FF72C0, 0x46717241, 0x67E09A19, 0x6EFAA333, 0x2EBAE676,
      0x3475C386, 0x201DCFF6);
    FourWords(b, w, 44,
      0x00606206, 0x10501256, 0x7CFF7EF9, 0x3C78B9F9, 0xCC2B8A69, 0x9F03F169, 0xDF45BE20, 0x9EC5BEE1, 0x0A212906,
      0x49FF72C0, 0x46717241, 0x67E09A19, 0x6EFAA333, 0x2EBAE676, 0x3475C386, 0x201DCFF6, 0x2F18FCCF, 0x2C5F2B5C,
      0xA80B9F38, 0xBC139F34);
  }

  lemma HeadExpands4(b: seq<Byte>, w: seq<Word>)
    requires |b| == 64 && Expanded(b, w, 68) && HeadWords3(w) && HeadWords4(w)
    ensures HeadWords5(w)
  {
    FourWords(b, w, 48,
      0xCC2B8A69, 0x9F03F169, 0xDF45BE20, 0x9EC5BEE1, 0x0A212906, 0x49FF72C0, 0x46717241, 0x67E09A19, 0x6EFAA333,
      0x2EBAE676, 0x3475C386, 0x201DCFF6, 0x2F18FCCF, 0x2C5F2B5C, 0xA80B9F38, 0xBC139F34, 0xC47F18A7, 0xA25CE71D,
      0x42743705, 0x51BAF619);
  }

  lemma HeadRounds0(v: Regs, w: seq<Word>, y: seq<Word>)
    requires Folded(w, y) && HeadWords(w)
    requires Rounds(v, w, y, 0) == Window(
      0x006D4503, 0x6B8B9221, 0x4914B2B9, 0x7380166F, 0x61C9D61F, 0xBDC9BC71, 0x163138AA, 0xA96F30BC)
    ensures Rounds(v, w, y, 8) == Window(
      0xDCA06DE5, 0x8EB847A3, 0x0E0F1218, 0xADA83827, 0xF7BC113C, 0x9FE64FB1, 0x57E5FC4E, 0x55EB8591)
  {
    EightRounds(v, w, y, 0, 0x79CC4519, 0,
      0x006D4503, 0x6B8B9221, 0x4914B2B9, 0x7380166F, 0x588B5DAB, 0xB31CECD3, 0x087B31DF, 0x17448B12, 0xDCA06DE5,
      0x8EB847A3, 0x0E0F1218, 0xADA83827, 0x61C9D61F, 0xBDC9BC71, 0x163138AA, 0xA96F30BC, 0xB2E561D0, 0x887CDF53,
      0x5234344F, 0x16372CA6, 0xF7BC113C, 0x9FE64FB1, 0x57E5FC4E, 0x55EB8591, 0x61626364, 0x61626364, 0x61626364,
      0x61626364, 0x61626364, 0x61626364, 0x61626364, 0x61626364, 0x61626364, 0x61626364, 0x61626364, 0x61626364);
  }

  lemma HeadRounds1(v: Regs, w: seq<Word>, y: seq<Word>)
    requires Folded(w, y) && HeadWords(w)
    requires Rounds(v, w, y, 8) == Window(
      0xDCA06DE5, 0x8EB847A3, 0x0E0F1218, 0xADA83827, 0xF7BC113C, 0x9FE64FB1, 0x57E5FC4E, 0x55EB8591)
    ensures Rounds(v, w, y, 16) == Window(
      0x63723715, 0xE57BFBF8, 0x8BA504B1, 0xB6A4BE20, 0x38E2AA27, 0x542318E7, 0xA8C73777, 0x8AE4D7A0)
  {
    EightRounds(v, w, y, 8, 0x79CC4519, 8,
      0xDCA06DE5, 0x8EB847A3, 0x0E0F1218, 0xADA83827, 0x6E12C163, 0xF7578117, 0xBC497C66, 0xECC59168, 0x63723715,
      0xE57BFBF8, 0x8BA504B1, 0xB6A4BE20, 0xF7BC113C, 0x9FE64FB1, 0x57E5FC4E, 0x55EB8591, 0xC26A14B8, 0x3433DD28,
      0x4F85C749, 0x8CE5EE61, 0x38E2AA27, 0x542318E7, 0xA8C73777, 0x8AE4D7A0, 0x61626364, 0x61626364, 0x61626364,
      0x61626364, 0x61626364, 0x61626364, 0x61626364, 0x61626364, 0xA121A024, 0xA121A024, 0xA121A024, 0x6061E0E5);
  }

  lemma HeadRounds2(v: Regs, w: seq<Word>, y: seq<Word>)
    requires Folded(w, y) && HeadWords(w)
    requires Rounds(v, w, y, 16) == Window(
      0x63723715, 0xE57BFBF8, 0x8BA504B1, 0xB6A4BE20, 0x38E2AA27, 0x542318E7, 0xA8C73777, 0x8AE4D7A0)
    ensures Rounds(v, w, y, 24) == Window(
      0x231D84BD, 0x6A203212, 0x175C3B57, 0xCDCBABD5, 0x108149DE, 0x90C31AF9, 0x508F82D2, 0xB5A2F2FB)
  {
    EightRounds(v, w, y, 16, 0x7A879D8A, 16,
      0x63723715, 0xE57BFBF8, 0x8BA504B1, 0xB6A4BE20, 0xC0A0E3F7, 0x68EF7357, 0x4C6499D3, 0x9F532735, 0x231D84BD,
      0x6A203212, 0x175C3B57, 0xCDCBABD5, 0x38E2AA27, 0x542318E7, 0xA8C73777, 0x8AE4D7A0, 0xF671E12A, 0x673F9D46,
      0xF01924A3, 0x71C6EF02, 0x108149DE, 0x90C31AF9, 0x508F82D2, 0xB5A2F2FB, 0xA121A024, 0xA121A024, 0xA121A024,
      0x6061E0E5, 0x6061E0E5, 0x6061E0E5, 0xA002E345, 0xA002E345, 0xA002E345, 0x49C969ED, 0x49C969ED, 0x49C969ED);
  }

  lemma HeadRounds3(v: Regs, w: seq<Word>, y: seq<Word>)
    requires Folded(w, y) && HeadWords(w)
    requires Rounds(v, w, y, 24) == Window(
      0x231D84BD, 0x6A203212, 0x175C3B57, 0xCDCBABD5, 0x108149DE, 0x90C31AF9, 0x508F82D2, 0xB5A2F2FB)
    ensures Rounds(v, w, y, 32) == Window(
      0x270DCE67, 0xAC12A6C0, 0x1BD9E6E3, 0x32418D74, 0x7564B6C0, 0x964015E3, 0x0FAC4CAD, 0x3F717698)
  {
    EightRounds(v, w, y, 24, 0x7A879D8A, 24,
      0x231D84BD, 0x6A203212, 0x175C3B57, 0xCDCBABD5, 0x7DD941F8, 0xEAF54F3E, 0xF7310A83, 0xF8441D7E, 0x270DCE67,
      0xAC12A6C0, 0x1BD9E6E3, 0x32418D74, 0x108149DE, 0x90C31AF9, 0x508F82D2, 0xB5A2F2FB, 0xA541CB9B, 0x912D4E17,
      0xB43DA5E9, 0xCF194872, 0x7564B6C0, 0x964015E3, 0x0FAC4CAD, 0x3F717698, 0xA002E345, 0x49C969ED, 0x49C969ED,
      0x49C969ED, 0x85AE5679, 0xA44FF619, 0xA44FF619, 0x694B6244, 0xE8C8E0C4, 0xE8C8E0C4, 0x240E103E, 0x346E603E);
  }

  lemma HeadRounds4(v: Regs, w: seq<Word>, y: seq<Word>)
    requires Folded(w, y) && HeadWords(w)
    requires Rounds(v, w, y, 32) == Window(
      0x270DCE67, 0xAC12A6C0, 0x1BD9E6E3, 0x32418D74, 0x7564B6C0, 0x964015E3, 0x0FAC4CAD, 0x3F717698)
    ensures Rounds(v, w, y, 40) == Window(
      0xB7E58F33, 0x79BAF4CA, 0xAD5B0BCF, 0xA167BD76, 0x3A3537A9, 0x9455B731, 0x289D35E0, 0xDA27276B)
  {
    EightRounds(v, w, y, 32, 0x7A879D8A, 0,
      0x270DCE67, 0xAC12A6C0, 0x1BD9E6E3, 0x32418D74, 0x9C89B505, 0x3C60352A, 0x2A116C70, 0xA0C7C66F, 0xB7E58F33,
      0x79BAF4CA, 0xAD5B0BCF, 0xA167BD76, 0x7564B6C0, 0x964015E3, 0x0FAC4CAD, 0x3F717698, 0x38766ABF, 0x8AEDD93B,
      0x476048D4, 0xB47A7DC5, 0x3A3537A9, 0x9455B731, 0x289D35E0, 0xDA27276B, 0xE8C8E0C4, 0xE8C8E0C4, 0x240E103E,
      0x346E603E, 0x346E603E, 0x9A517AB5, 0x8A01AA25, 0x8A01AA25, 0x0607191C, 0x25F8A37A, 0xD528936A, 0x89FBD8AE);
  }

  lemma HeadRounds5(v: Regs, w: seq<Word>, y: seq<Word>)
    requires Folded(w, y) && HeadWords(w)
    requires Rounds(v, w, y, 40) == Window(
      0xB7E58F33, 0x79BAF4CA, 0xAD5B0BCF, 0xA167BD76, 0x3A3537A9, 0x9455B731, 0x289D35E0, 0xDA27276B)
    ensures Rounds(v, w, y, 48) == Window(
      0x53F9FFC5, 0x4F60BBD5, 0x6E89A7FB, 0xFEF3CB16, 0xC3D3327B, 0xF3CAE7E6, 0x17394CA0, 0x4A9E594F)
  {
    EightRounds(v, w, y, 40, 0x7A879D8A, 8,
      0xB7E58F33, 0x79BAF4CA, 0xAD5B0BCF, 0xA167BD76, 0x2CCC1878, 0x610C6084, 0xA40209FE, 0x6FA376A2, 0x53F9FFC5,
      0x4F60BBD5, 0x6E89A7FB, 0xFEF3CB16, 0x3A3537A9, 0x9455B731, 0x289D35E0, 0xDA27276B, 0x7EDED43B, 0x9DA32CAB,
      0x7D483846, 0x12A851CF, 0xC3D3327B, 0xF3CAE7E6, 0x17394CA0, 0x4A9E594F, 0x0607191C, 0x25F8A37A, 0xD528936A,
      0x89FBD8AE, 0x00606206, 0x10501256, 0x7CFF7EF9, 0x3C78B9F9, 0xCC2B8A69, 0x9F03F169, 0xDF45BE20, 0x9EC5BEE1);
  }

  lemma HeadRounds6(v: Regs, w: seq<Word>, y: seq<Word>)
    requires Folded(w, y) && HeadWords(w)
    requires Rounds(v, w, y, 48) == Window(
      0x53F9FFC5, 0x4F60BBD5, 0x6E89A7FB, 0xFEF3CB16, 0xC3D3327B, 0xF3CAE7E6, 0x17394CA0, 0x4A9E594F)
    ensures Rounds(v, w, y, 56) == Window(
      0xEF958266, 0x04B44FD2, 0x008D6012, 0x57859FEC, 0x6EF4554D, 0x290032B5, 0x50AA1FAA, 0xC00CD655)
  {
    EightRounds(v, w, y, 48, 0x7A879D8A, 16,
      0x53F9FFC5, 0x4F60BBD5, 0x6E89A7FB, 0xFEF3CB16, 0xFA8E6731, 0x08A826C3, 0x614C7627, 0xD776618D, 0xEF958266,
      0x04B44FD2, 0x008D6012, 0x57859FEC, 0xC3D3327B, 0xF3CAE7E6, 0x17394CA0, 0x4A9E594F, 0x7D9E1966, 0xEBFA90CC,
      0x969ECF53, 0x423489F6, 0x6EF4554D, 0x290032B5, 0x50AA1FAA, 0xC00CD655, 0xCC2B8A69, 0x9F03F169, 0xDF45BE20,
      0x9EC5BEE1, 0x0A212906, 0x49FF72C0, 0x46717241, 0x67E09A19, 0x6EFAA333, 0x2EBAE676, 0x3475C386, 0x201DCFF6);
  }

  lemma HeadRounds7(v: Regs, w: seq<Word>, y: seq<Word>)
    requires Folded(w, y) && HeadWords(w)
    requires Rounds(v, w, y, 56) == Window(
      0xEF958266, 0x04B44FD2, 0x008D6012, 0x57859FEC, 0x6EF4554D, 0x290032B5, 0x50AA1FAA, 0xC00CD655)
    ensures Rounds(v, w, y, 64) == Window(
      0x05627B53, 0x28AAEC87, 0x0F92D652, 0x2AD0C8EE, 0xF58D98D8, 0xCC6B5F2A, 0xB8AB6D40, 0x69CAA1B7)
  {
    EightRounds(v, w, y, 56, 0x7A879D8A, 24,
      0xEF958266, 0x04B44FD2, 0x008D6012, 0x57859FEC, 0xC864420D, 0xE7423482, 0x5C5BE9DD, 0xEBD4948C, 0x05627B53,
      0x28AAEC87, 0x0F92D652, 0x2AD0C8EE, 0x6EF4554D, 0x290032B5, 0x50AA1FAA, 0xC00CD655, 0x2FB3C502, 0xAAC3B183,
      0x8B1BA117, 0x74A75FE1, 0xF58D98D8, 0xCC6B5F2A, 0xB8AB6D40, 0x69CAA1B7, 0x6EFAA333, 0x2EBAE676, 0x3475C386,
      0x201DCFF6, 0x2F18FCCF, 0x2C5F2B5C, 0xA80B9F38, 0xBC139F34, 0xC47F18A7, 0xA25CE71D, 0x42743705, 0x51BAF619);
  }

  lemma HeadSchedule(b: seq<Byte>, w: seq<Word>)
    requires |b| == 64 && Expanded(b, w, 68) && HeadWords0(w)
    ensures HeadWords(w)
  {
    HeadExpands0(b, w);
    HeadExpands1(b, w);
    HeadExpands2(b, w);
    HeadExpands3(b, w);
    HeadExpands4(b, w);
  }

  lemma HeadRun(v: Regs, w: seq<Word>, y: seq<Word>)
    requires Folded(w, y) && HeadWords(w)
    requires v == Window(
      0x006D4503, 0x6B8B9221, 0x4914B2B9, 0x7380166F, 0x61C9D61F, 0xBDC9BC71, 0x163138AA, 0xA96F30BC)
    ensures Rounds(v, w, y, 64) == Window(
      0x05627B53, 0x28AAEC87, 0x0F92D652, 0x2AD0C8EE, 0xF58D98D8, 0xCC6B5F2A, 0xB8AB6D40, 0x69CAA1B7)
  {
    HeadRounds0(v, w, y);
    HeadRounds1(v, w, y);
    HeadRounds2(v, w, y);
    HeadRounds3(v, w, y);
    HeadRounds4(v, w, y);
    HeadRounds5(v, w, y);
    HeadRounds6(v, w, y);
    HeadRounds7(v, w, y);
  }

  lemma HeadOutcome(v: Regs, b: seq<Byte>, w: seq<Word>, y: seq<Word>)
    requires |b| == 64 && Expanded(b, w, 68) && Folded(w, y) && HeadWords0(w)
    requires v == Regs(
      0x7380166F, 0x4914B2B9, 0x172442D7, 0xDA8A0600, 0xA96F30BC, 0x163138AA, 0xE38DEE4D, 0xB0FB0E4E)
    ensures XorRegs(v, Rounds(v, w, y, 64)) == Regs(
      0x5950DE81, 0x468664EB, 0x42FD4C86, 0x1E7CA00A, 0xC0A5910B, 0xAE9A55EA, 0x1ADB8D17, 0x763CA222)
  {
    HeadSchedule(b, w);
    HeadSum();
    HeadRun(v, w, y);
  }

  lemma HeadCompress(v: Regs, b: seq<Byte>, w: seq<Word>, y: seq<Word>)
    requires |b| == 64 && Expanded(b, w, 68) && Folded(w, y) && HeadWords0(w)
    requires v == Regs(
      0x7380166F, 0x4914B2B9, 0x172442D7, 0xDA8A0600, 0xA96F30BC, 0x163138AA, 0xE38DEE4D, 0xB0FB0E4E)
    ensures Compress(v, b) == Regs(
      0x5950DE81, 0x468664EB, 0x42FD4C86, 0x1E7CA00A, 0xC0A5910B, 0xAE9A55EA, 0x1ADB8D17, 0x763CA222)
  {
    CompressBy(v, b, w, y);
    HeadOutcome(v, b, w, y);
  }

  lemma HeadSum()
    ensures Window(
      0x006D4503, 0x6B8B9221, 0x4914B2B9, 0x7380166F, 0x61C9D61F, 0xBDC9BC71, 0x163138AA, 0xA96F30BC)
      == Regs(
      0x7380166F, 0x4914B2B9, 0x172442D7, 0xDA8A0600, 0xA96F30BC, 0x163138AA, 0xE38DEE4D, 0xB0FB0E4E)
    ensures XorRegs(Regs(
      0x7380166F, 0x4914B2B9, 0x172442D7, 0xDA8A0600, 0xA96F30BC, 0x163138AA, 0xE38DEE4D, 0xB0FB0E4E), Window(
      0x05627B53, 0x28AAEC87, 0x0F92D652, 0x2AD0C8EE, 0xF58D98D8, 0xCC6B5F2A, 0xB8AB6D40, 0x69CAA1B7))
      == Regs(
      0x5950DE81, 0x468664EB, 0x42FD4C86, 0x1E7CA00A, 0xC0A5910B, 0xAE9A55EA, 0x1ADB8D17, 0x763CA222)
  {
  }

  // ---------- Its second block ----------

  predicate TailWords0(w: seq<Word>) {
    At(w, 0) == 0x80000000 && At(w, 1) == 0x00000000 && At(w, 2) == 0x00000000 && At(w, 3) == 0x00000000
    && At(w, 4) == 0x00000000 && At(w, 5) == 0x00000000 && At(w, 6) == 0x00000000 && At(w, 7) == 0x00000000
    && At(w, 8) == 0x00000000 && At(w, 9) == 0x00000000 && At(w, 10) == 0x00000000 && At(w, 11) == 0x00000000
    && At(w, 12) == 0x00000000 && At(w, 13) == 0x00000000 && At(w, 14) == 0x00000000 && At(w, 15) == 0x00000200
  }

  predicate TailWords1(w: seq<Word>) {
    At(w, 16) == 0x80404000 && At(w, 17) == 0x00000000 && At(w, 18) == 0x01008080 && At(w, 19) == 0x10005000
  }

  predicate TailWords2(w: seq<Word>) {
    At(w, 20) == 0x00000000 && At(w, 21) == 0x002002A0 && At(w, 22) == 0xAC545C04 && At(w, 23) == 0x00000000
  }

  predicate TailWords3(w: seq<Word>) {
    At(w, 24) == 0x09582A39 && At(w, 25) == 0xA0003000 && At(w, 26) == 0x00000000 && At(w, 27) == 0x00200280
  }

  predicate TailWords4(w: seq<Word>) {
    At(w, 28) == 0xA4515804 && At(w, 29) == 0x20200040 && At(w, 30) == 0x51609838 && At(w, 31) == 0x30005701
    && At(w, 32) == 0xA0002000 && At(w, 33) == 0x008200AA && At(w, 34) == 0x6AD525D0 && At(w, 35) == 0x0A0E0216
    && At(w, 36) == 0xB0F52042 && At(w, 37) == 0xFA7073B0 && At(w, 38) == 0x20000000 && At(w, 39) == 0x008200A8
  }

  predicate TailWords5(w: seq<Word>) {
    At(w, 40) == 0x7A542590 && At(w, 41) == 0x22A20044 && At(w, 42) == 0xD5D6EBD2 && At(w, 43) == 0x82005771
    && At(w, 44) == 0x8A202240 && At(w, 45) == 0xB42826AA && At(w, 46) == 0xEAF84E59 && At(w, 47) == 0x4898EAF9
    && At(w, 48) == 0x8207283D && At(w, 49) == 0xEE6775FA && At(w, 50) == 0xA3E0E0A0 && At(w, 51) == 0x8828488A
  }

  predicate TailWords6(w: seq<Word>) {
    At(w, 52) == 0x23B45A5D && At(w, 53) == 0x628A22C4 && At(w, 54) == 0x8D6D0615 && At(w, 55) == 0x38300A7E
    && At(w, 56) == 0xE96260E5 && At(w, 57) == 0x2B60C020 && At(w, 58) == 0x502ED531 && At(w, 59) == 0x9E878CB9
    && At(w, 60) == 0x218C38F8 && At(w, 61) == 0xDCAE3CB7 && At(w, 62) == 0x2A3E0E0A && At(w, 63) == 0xE9E0C461
  }

  predicate TailWords7(w: seq<Word>) {
    At(w, 64) == 0x8C3E3831 && At(w, 65) == 0x44AAA228 && At(w, 66) == 0xDC60A38B && At(w, 67) == 0x518300F7
  }

  predicate TailWords(w: seq<Word>) {
    TailWords0(w) && TailWords1(w) && TailWords2(w) && TailWords3(w) && TailWords4(w) && TailWords5(w) && TailWords6(w)
    && TailWords7(w)
  }

  lemma TailExpands0(b: seq<Byte>, w: seq<Word>)
    requires |b| == 64 && Expanded(b, w, 68) && TailWords0(w)
    ensures TailWords1(w)
  {
    FourWords(b, w, 0,
      0x80000000, 0x00000000, 0x00000000, 0x00000000, 0x00000000, 0x00000000, 0x00000000, 0x00000000, 0x00000000,
      0x00000000, 0x00000000, 0x00000000, 0x00000000, 0x00000000, 0x00000000, 0x00000200, 0x80404000, 0x00000000,
      0x01008080, 0x10005000);
  }

  lemma TailExpands1(b: seq<Byte>, w: seq<Word>)
    requires |b| == 64 && Expanded(b, w, 68) && TailWords0(w) && TailWords1(w)
    ensures TailWords2(w)
  {
    FourWords(b, w, 4,
      0x00000000, 0x00000000, 0x00000000, 0x00000000, 0x00000000, 0x00000000, 0x00000000, 0x00000000, 0x00000000,
      0x00000000, 0x00000000, 0x00000200, 0x80404000, 0x00000000, 0x01008080, 0x10005000, 0x00000000, 0x002002A0,
      0xAC545C04, 0x00000000);
  }

  lemma TailExpands2(b: seq<Byte>, w: seq<Word>)
    requires |b| == 64 && Expanded(b, w, 68) && TailWords0(w) && TailWords1(w) && TailWords2(w)
    ensures TailWords3(w)
  {
    FourWords(b, w, 8,
      0x00000000, 0x00000000, 0x00000000, 0x00000000, 0x00000000, 0x00000000, 0x00000000, 0x00000200, 0x80404000,
      0x00000000, 0x01008080, 0x10005000, 0x00000000, 0x002002A0, 0xAC545C04, 0x00000000, 0x09582A39, 0xA0003000,
      0x00000000, 0x00200280);
  }

  lemma TailExpands3(b: seq<Byte>, w: seq<Word>)
    requires |b| == 64 && Expanded(b, w, 68) && TailWords0(w) && TailWords1(w) && TailWords2(w) && TailWords3(w)
    ensures TailWords4(w)
  {
    FourWords(b, w, 12,
      0x00000000, 0x00000000, 0x00000000, 0x00000200, 0x80404000, 0x00000000, 0x01008080, 0x10005000, 0x00000000,
      0x002002A0, 0xAC545C04, 0x00000000, 0x09582A39, 0xA0003000, 0x00000000, 0x00200280, 0xA4515804, 0x20200040,
      0x51609838, 0x30005701);
    FourWords(b, w, 16,
      0x80404000, 0x00000000, 0x01008080, 0x10005000, 0x00000000, 0x002002A0, 0xAC545C04, 0x00000000, 0x09582A39,
      0xA0003000, 0x00000000, 0x00200280, 0xA4515804, 0x20200040, 0x51609838, 0x30005701, 0xA0002000, 0x008200AA,
      0x6AD525D0, 0x0A0E0216);
    FourWords(b, w, 20,
      0x00000000, 0x002002A0, 0xAC545C04, 0x00000000, 0x09582A39, 0xA0003000, 0x00000000, 0x00200280, 0xA4515804,
      0x20200040, 0x51609838, 0x30005701, 0xA0002000, 0x008200AA, 0x6AD525D0, 0x0A0E0216, 0xB0F52042, 0xFA7073B0,
      0x20000000, 0x008200A8);
  }

  lemma TailExpands4(b: seq<Byte>, w: seq<Word>)
    requires |b| == 64 && Expanded(b, w, 68) && TailWords3(w) && TailWords4(w)
    ensures TailWords5(w)
  {
    FourWords(b, w, 24,
      0x09582A39, 0xA0003000, 0x00000000, 0x00200280, 0xA4515804, 0x20200040, 0x51609838, 0x30005701, 0xA0002000,
      0x008200AA, 0x6AD525D0, 0x0A0E0216, 0xB0F52042, 0xFA7073B0, 0x20000000, 0x008200A8, 0x7A542590, 0x22A20044,
      0xD5D6EBD2, 0x82005771);
    FourWords(b, w, 28,
      0xA4515804, 0x20200040, 0x51609838, 0x30005701, 0xA0002000, 0x008200AA, 0x6AD525D0, 0x0A0E0216, 0xB0F52042,
      0xFA7073B0, 0x20000000, 0x008200A8, 0x7A542590, 0x22A20044, 0xD5D6EBD2, 0x82005771, 0x8A202240, 0xB42826AA,
      0xEAF84E59, 0x4898EAF9);
    FourWords(b, w, 32,
      0xA0002000, 0x008200AA, 0x6AD525D0, 0x0A0E0216, 0xB0F52042, 0xFA7073B0, 0x20000000, 0x008200A8, 0x7A542590,
      0x22A20044, 0xD5D6EBD2, 0x82005771, 0x8A202240, 0xB42826AA, 0xEAF84E59, 0x4898EAF9, 0x8207283D, 0xEE6775FA,
      0xA3E0E0A0, 0x8828488A);
  }

  lemma TailExpands5(b: seq<Byte>, w: seq<Word>)
    requires |b| == 64 && Expanded(b, w, 68) && TailWords4(w) && TailWords5(w)
    ensures TailWords6(w)
  {
    FourWords(b, w, 36,
      0xB0F52042, 0xFA7073B0, 0x20000000, 0x008200A8, 0x7A542590, 0x22A20044, 0xD5D6EBD2, 0x82005771, 0x8A202240,
      0xB42826AA, 0xEAF84E59, 0x4898EAF9, 0x8207283D, 0xEE6775FA, 0xA3E0E0A0, 0x8828488A, 0x23B45A5D, 0x628A22C4,
      0x8D6D0615, 0x38300A7E);
    FourWords(b, w, 40,
      0x7A542590, 0x22A20044, 0xD5D6EBD2, 0x82005771, 0x8A202240, 0xB42826AA, 0xEAF84E59, 0x4898EAF9, 0x8207283D,
      0xEE6775FA, 0xA3E0E0A0, 0x8828488A, 0x23B45A5D, 0x628A22C4, 0x8D6D0615, 0x38300A7E, 0xE96260E5, 0x2B60C020,
      0x502ED531, 0x9E878CB9);
    FourWords(b, w, 44,
      0x8A202240, 0xB42826AA, 0xEAF84E59, 0x4898EAF9, 0x8207283D, 0xEE6775FA, 0xA3E0E0A0, 0x8828488A, 0x23B45A5D,
      0x628A22C4, 0x8D6D0615, 0x38300A7E, 0xE96260E5, 0x2B60C020, 0x502ED531, 0x9E878CB9, 0x218C38F8, 0xDCAE3CB7,
      0x2A3E0E0A, 0xE9E0C461);
  }

  lemma TailExpands6(b: seq<Byte>, w: seq<Word>)
    requires |b| == 64 && Expanded(b, w, 68) && TailWords5(w) && TailWords6(w)
    ensures TailWords7(w)
  {
    FourWords(b, w, 48,
      0x8207283D, 0xEE6775FA, 0xA3E0E0A0, 0x8828488A, 0x23B45A5D, 0x628A22C4, 0x8D6D0615, 0x38300A7E, 0xE96260E5,
      0x2B60C020, 0x502ED531, 0x9E878CB9, 0x218C38F8, 0xDCAE3CB7, 0x2A3E0E0A, 0xE9E0C461, 0x8C3E3831, 0x44AAA228,
      0xDC60A38B, 0x518300F7);
  }

  lemma TailRounds0(v: Regs, w: seq<Word>, y: seq<Word>)
    requires Folded(w, y) && TailWords(w)
    requires Rounds(v, w, y, 0) == Window(
      0x050F3E50, 0x43217EA6, 0x468664EB, 0x5950DE81, 0x94444EC7, 0x71A2E35B, 0xAE9A55EA, 0xC0A5910B)
    ensures Rounds(v, w, y, 8) == Window(
      0x03162191, 0xCBFDDBB7, 0x67F45147, 0xDFC06393, 0xDBCB73DD, 0x6A6EAAFB, 0xE0CC5B97, 0x9D84A8D5)
  {
    EightRounds(v, w, y, 0, 0x79CC4519, 0,
      0x050F3E50, 0x43217EA6, 0x468664EB, 0x5950DE81, 0x1CC66027, 0xB7197324, 0xB1AACB3F, 0x920D5D4D, 0x03162191,
      0xCBFDDBB7, 0x67F45147, 0xDFC06393, 0x94444EC7, 0x71A2E35B, 0xAE9A55EA, 0xC0A5910B, 0x24FE81A1, 0x61B7397A,
      0x4C7CBB59, 0xC6C863A3, 0xDBCB73DD, 0x6A6EAAFB, 0xE0CC5B97, 0x9D84A8D5, 0x80000000, 0x00000000, 0x00000000,
      0x00000000, 0x00000000, 0x00000000, 0x00000000, 0x00000000, 0x00000000, 0x00000000, 0x00000000, 0x00000000);
  }

  lemma TailRounds1(v: Regs, w: seq<Word>, y: seq<Word>)
    requires Folded(w, y) && TailWords(w)
    requires Rounds(v, w, y, 8) == Window(
      0x03162191, 0xCBFDDBB7, 0x67F45147, 0xDFC06393, 0xDBCB73DD, 0x6A6EAAFB, 0xE0CC5B97, 0x9D84A8D5)
    ensures Rounds(v, w, y, 16) == Window(
      0x5B3BAAA5, 0x0F7185E4, 0x141CB1E7, 0xF185448A, 0xEEBF718F, 0xF3FBF969, 0x5CC495DB, 0x32028D02)
  {
    EightRounds(v, w, y, 8, 0x79CC4519, 8,
      0x03162191, 0xCBFDDBB7, 0x67F45147, 0xDFC06393, 0x777F980D, 0x502A9BE2, 0xDF0F77ED, 0xB8BC2801, 0x5B3BAAA5,
      0x0F7185E4, 0x141CB1E7, 0xF185448A, 0xDBCB73DD, 0x6A6EAAFB, 0xE0CC5B97, 0x9D84A8D5, 0x89D0A059, 0xBEFC3EDA,
      0xC8B999F7, 0x3A05DA38, 0xEEBF718F, 0xF3FBF969, 0x5CC495DB, 0x32028D02, 0x00000000, 0x00000000, 0x00000000,
      0x00000000, 0x00000000, 0x00000000, 0x00000000, 0x00000200, 0x80404000, 0x00000000, 0x01008080, 0x10005000);
  }

  lemma TailRounds2(v: Regs, w: seq<Word>, y: seq<Word>)
    requires Folded(w, y) && TailWords(w)
    requires Rounds(v, w, y, 16) == Window(
      0x5B3BAAA5, 0x0F7185E4, 0x141CB1E7, 0xF185448A, 0xEEBF718F, 0xF3FBF969, 0x5CC495DB, 0x32028D02)
    ensures Rounds(v, w, y, 24) == Window(
      0xF477625B, 0xECBFBA29, 0xB9F6943D, 0xC537AC67, 0xD2B3C82B, 0x604BDA38, 0xE996D68B, 0x7F6C2BC6)
  {
    EightRounds(v, w, y, 16, 0x7A879D8A, 16,
      0x5B3BAAA5, 0x0F7185E4, 0x141CB1E7, 0xF185448A, 0xA7374ACD, 0xAACA2DCB, 0x3D2DFD31, 0x15BAB3E6, 0xF477625B,
      0xECBFBA29, 0xB9F6943D, 0xC537AC67, 0xEEBF718F, 0xF3FBF969, 0x5CC495DB, 0x32028D02, 0x3D03E81B, 0x130BC932,
      0x07FFF8F8, 0x85B2DD34, 0xD2B3C82B, 0x604BDA38, 0xE996D68B, 0x7F6C2BC6, 0x80404000, 0x00000000, 0x01008080,
      0x10005000, 0x00000000, 0x002002A0, 0xAC545C04, 0x00000000, 0x09582A39, 0xA0003000, 0x00000000, 0x00200280);
  }

  lemma TailRounds3(v: Regs, w: seq<Word>, y: seq<Word>)
    requires Folded(w, y) && TailWords(w)
    requires Rounds(v, w, y, 24) == Window(
      0xF477625B, 0xECBFBA29, 0xB9F6943D, 0xC537AC67, 0xD2B3C82B, 0x604BDA38, 0xE996D68B, 0x7F6C2BC6)
    ensures Rounds(v, w, y, 32) == Window(
      0xCA176DCA, 0x541E456E, 0xB6FEEEF7, 0x026E42F7, 0xB418AC1B, 0x35CF8215, 0xD41F5FDA, 0xC9436B11)
  {
    EightRounds(v, w, y, 24, 0x7A879D8A, 24,
      0xF477625B, 0xECBFBA29, 0xB9F6943D, 0xC537AC67, 0xC59665B3, 0x50115E1F, 0x44196085, 0xBDE4E355, 0xCA176DCA,
      0x541E456E, 0xB6FEEEF7, 0x026E42F7, 0xD2B3C82B, 0x604BDA38, 0xE996D68B, 0x7F6C2BC6, 0x1A89EF0D, 0x3DDF2899,
      0x0ABC22DA, 0xDA96412A, 0xB418AC1B, 0x35CF8215, 0xD41F5FDA, 0xC9436B11, 0x09582A39, 0xA0003000, 0x00000000,
      0x00200280, 0xA4515804, 0x20200040, 0x51609838, 0x30005701, 0xA0002000, 0x008200AA, 0x6AD525D0, 0x0A0E0216);
  }

  lemma TailRounds4(v: Regs, w: seq<Word>, y: seq<Word>)
    requires Folded(w, y) && TailWords(w)
    requires Rounds(v, w, y, 32) == Window(
      0xCA176DCA, 0x541E456E, 0xB6FEEEF7, 0x026E42F7, 0xB418AC1B, 0x35CF8215, 0xD41F5FDA, 0xC9436B11)
    ensures Rounds(v, w, y, 40) == Window(
      0x12CB048F, 0xC6716749, 0x66BF4600, 0x046516A9, 0x107CB2FB, 0x7903974D, 0xE5575380, 0xE23D4F18)
  {
    EightRounds(v, w, y, 32, 0x7A879D8A, 0,
      0xCA176DCA, 0x541E456E, 0xB6FEEEF7, 0x026E42F7, 0x8FD27582, 0x2527F8C6, 0x3218579F, 0x35421CF3, 0x12CB048F,
      0xC6716749, 0x66BF4600, 0x046516A9, 0xB418AC1B, 0x35CF8215, 0xD41F5FDA, 0xC9436B11, 0xA48DC4C2, 0xB29DC9D4,
      0x0DA81AD7, 0x644B37E4, 0x107CB2FB, 0x7903974D, 0xE5575380, 0xE23D4F18, 0xA0002000, 0x008200AA, 0x6AD525D0,
      0x0A0E0216, 0xB0F52042, 0xFA7073B0, 0x20000000, 0x008200A8, 0x7A542590, 0x22A20044, 0xD5D6EBD2, 0x82005771);
  }

  lemma TailRounds5(v: Regs, w: seq<Word>, y: seq<Word>)
    requires Folded(w, y) && TailWords(w)
    requires Rounds(v, w, y, 40) == Window(
      0x12CB048F, 0xC6716749, 0x66BF4600, 0x046516A9, 0x107CB2FB, 0x7903974D, 0xE5575380, 0xE23D4F18)
    ensures Rounds(v, w, y, 48) == Window(
      0x3BA43E10, 0x445E8D34, 0x34D09EE0, 0x18C77C40, 0x953C1E65, 0x94BCDD11, 0x1D0EA72C, 0xA8CA98C6)
  {
    EightRounds(v, w, y, 40, 0x7A879D8A, 8,
      0x12CB048F, 0xC6716749, 0x66BF4600, 0x046516A9, 0xE14AB898, 0xBC44D883, 0xE017C779, 0x11154E38, 0x3BA43E10,
      0x445E8D34, 0x34D09EE0, 0x18C77C40, 0x107CB2FB, 0x7903974D, 0xE5575380, 0xE23D4F18, 0x6E25AFFE, 0x4EF0CB38,
      0x10132C10, 0xC1D401BD, 0x953C1E65, 0x94BCDD11, 0x1D0EA72C, 0xA8CA98C6, 0x7A542590, 0x22A20044, 0xD5D6EBD2,
      0x82005771, 0x8A202240, 0xB42826AA, 0xEAF84E59, 0x4898EAF9, 0x8207283D, 0xEE6775FA, 0xA3E0E0A0, 0x8828488A);
  }

  lemma TailRounds6(v: Regs, w: seq<Word>, y: seq<Word>)
    requires Folded(w, y) && TailWords(w)
    requires Rounds(v, w, y, 48) == Window(
      0x3BA43E10, 0x445E8D34, 0x34D09EE0, 0x18C77C40, 0x953C1E65, 0x94BCDD11, 0x1D0EA72C, 0xA8CA98C6)
    ensures Rounds(v, w, y, 56) == Window(
      0x31E9309D, 0xC6329C3C, 0x75CC3800, 0x925156AD, 0xEECF99BE, 0xC672AD96, 0x8515C87F, 0x150CBD57)
  {
    EightRounds(v, w, y, 48, 0x7A879D8A, 16,
      0x3BA43E10, 0x445E8D34, 0x34D09EE0, 0x18C77C40, 0xA2507CEA, 0x7E014176, 0xEB39074B, 0xF67597E1, 0x31E9309D,
      0xC6329C3C, 0x75CC3800, 0x925156AD, 0x953C1E65, 0x94BCDD11, 0x1D0EA72C, 0xA8CA98C6, 0x9845362A, 0x2CB0C2F2,
      0x0DF22B74, 0x8D4F6B2F, 0xEECF99BE, 0xC672AD96, 0x8515C87F, 0x150CBD57, 0x8207283D, 0xEE6775FA, 0xA3E0E0A0,
      0x8828488A, 0x23B45A5D, 0x628A22C4, 0x8D6D0615, 0x38300A7E, 0xE96260E5, 0x2B60C020, 0x502ED531, 0x9E878CB9);
  }

  lemma TailRounds7(v: Regs, w: seq<Word>, y: seq<Word>)
    requires Folded(w, y) && TailWords(w)
    requires Rounds(v, w, y, 56) == Window(
      0x31E9309D, 0xC6329C3C, 0x75CC3800, 0x925156AD, 0xEECF99BE, 0xC672AD96, 0x8515C87F, 0x150CBD57)
    ensures Rounds(v, w, y, 64) == Window(
      0x23EFF97D, 0x07BD4E82, 0x64F3DC4A, 0x87EE4178, 0x1EA21D46, 0xC8D6867C, 0x96E4028F, 0xAF7EE1EE)
  {
    EightRounds(v, w, y, 56, 0x7A879D8A, 24,
      0x31E9309D, 0xC6329C3C, 0x75CC3800, 0x925156AD, 0x7D0DE10B, 0x2066F136, 0x85B31359, 0x6CDDCB93, 0x23EFF97D,
      0x07BD4E82, 0x64F3DC4A, 0x87EE4178, 0xEECF99BE, 0xC672AD96, 0x8515C87F, 0x150CBD57, 0x7EE47610, 0x7D7AADCC,
      0x07B9CFD1, 0xC43EB29C, 0x1EA21D46, 0xC8D6867C, 0x96E4028F, 0xAF7EE1EE, 0xE96260E5, 0x2B60C020, 0x502ED531,
      0x9E878CB9, 0x218C38F8, 0xDCAE3CB7, 0x2A3E0E0A, 0xE9E0C461, 0x8C3E3831, 0x44AAA228, 0xDC60A38B, 0x518300F7);
  }

  lemma TailSchedule(b: seq<Byte>, w: seq<Word>)
    requires |b| == 64 && Expanded(b, w, 68) && TailWords0(w)
    ensures TailWords(w)
  {
    TailExpands0(b, w);
    TailExpands1(b, w);
    TailExpands2(b, w);
    TailExpands3(b, w);
    TailExpands4(b, w);
    TailExpands5(b, w);
    TailExpands6(b, w);
  }

  lemma TailRun(v: Regs, w: seq<Word>, y: seq<Word>)
    requires Folded(w, y) && TailWords(w)
    requires v == Window(
      0x050F3E50, 0x43217EA6, 0x468664EB, 0x5950DE81, 0x94444EC7, 0x71A2E35B, 0xAE9A55EA, 0xC0A5910B)
    ensures Rounds(v, w, y, 64) == Window(
      0x23EFF97D, 0x07BD4E82, 0x64F3DC4A, 0x87EE4178, 0x1EA21D46, 0xC8D6867C, 0x96E4028F, 0xAF7EE1EE)
  {
    TailRounds0(v, w, y);
    TailRounds1(v, w, y);
    TailRounds2(v, w, y);
    TailRounds3(v, w, y);
    TailRounds4(v, w, y);
    TailRounds5(v, w, y);
    TailRounds6(v, w, y);
    TailRounds7(v, w, y);
  }

  lemma TailOutcome(v: Regs, b: seq<Byte>, w: seq<Word>, y: seq<Word>)
    requires |b| == 64 && Expanded(b, w, 68) && Folded(w, y) && TailWords0(w)
    requires v == Regs(
      0x5950DE81, 0x468664EB, 0x42FD4C86, 0x1E7CA00A, 0xC0A5910B, 0xAE9A55EA, 0x1ADB8D17, 0x763CA222)
    ensures XorRegs(v, Rounds(v, w, y, 64)) == Regs(
      0xDEBE9FF9, 0x2275B8A1, 0x38604889, 0xC18E5A4D, 0x6FDB70E5, 0x387E5765, 0x293DCBA3, 0x9C0C5732)
  {
    TailSchedule(b, w);
    TailSum();
    TailRun(v, w, y);
  }

  lemma TailCompress(v: Regs, b: seq<Byte>, w: seq<Word>, y: seq<Word>)
    requires |b| == 64 && Expanded(b, w, 68) && Folded(w, y) && TailWords0(w)
    requires v == Regs(
      0x5950DE81, 0x468664EB, 0x42FD4C86, 0x1E7CA00A, 0xC0A5910B, 0xAE9A55EA, 0x1ADB8D17, 0x763CA222)
    ensures Compress(v, b) == Regs(
      0xDEBE9FF9, 0x2275B8A1, 0x38604889, 0xC18E5A4D, 0x6FDB70E5, 0x387E5765, 0x293DCBA3, 0x9C0C5732)
  {
    CompressBy(v, b, w, y);
    TailOutcome(v, b, w, y);
  }

  lemma TailSum()
    ensures Window(
      0x050F3E50, 0x43217EA6, 0x468664EB, 0x5950DE81, 0x94444EC7, 0x71A2E35B, 0xAE9A55EA, 0xC0A5910B)
      == Regs(
      0x5950DE81, 0x468664EB, 0x42FD4C86, 0x1E7CA00A, 0xC0A5910B, 0xAE9A55EA, 0x1ADB8D17, 0x763CA222)
    ensures XorRegs(Regs(
      0x5950DE81, 0x468664EB, 0x42FD4C86, 0x1E7CA00A, 0xC0A5910B, 0xAE9A55EA, 0x1ADB8D17, 0x763CA222), Window(
      0x23EFF97D, 0x07BD4E82, 0x64F3DC4A, 0x87EE4178, 0x1EA21D46, 0xC8D6867C, 0x96E4028F, 0xAF7EE1EE))
      == Regs(
      0xDEBE9FF9, 0x2275B8A1, 0x38604889, 0xC18E5A4D, 0x6FDB70E5, 0x387E5765, 0x293DCBA3, 0x9C0C5732)
  {
  }

  lemma HeadFirst(b: seq<Byte>, w: seq<Word>)
    requires b == Repeated(16) && |b| == 64 && Expanded(b, w, 68)
    ensures HeadWords0(w)
  {
    HeadWord(b, w, 0);
    HeadWord(b, w, 1);
    HeadWord(b, w, 2);
    HeadWord(b, w, 3);
    HeadWord(b, w, 4);
    HeadWord(b, w, 5);
    HeadWord(b, w, 6);
    HeadWord(b, w, 7);
    HeadWord(b, w, 8);
    HeadWord(b, w, 9);
    HeadWord(b, w, 10);
    HeadWord(b, w, 11);
    HeadWord(b, w, 12);
    HeadWord(b, w, 13);
    HeadWord(b, w, 14);
    HeadWord(b, w, 15);
  }

  lemma TailFirst(b: seq<Byte>, w: seq<Word>)
    requires |b| == 64 && Expanded(b, w, 68)
    requires b[0] == 0x80 && ZerosIn(b, 1, 62) && b[62] == 0x02 && b[63] == 0x00
    ensures TailWords0(w)
  {
    FirstWord(b, w, 0, 0x80, 0x00, 0x00, 0x00, 0x80000000);
    ZeroWord(b, w, 1);
    ZeroWord(b, w, 2);
    ZeroWord(b, w, 3);
    ZeroWord(b, w, 4);
    ZeroWord(b, w, 5);
    ZeroWord(b, w, 6);
    ZeroWord(b, w, 7);
    ZeroWord(b, w, 8);
    ZeroWord(b, w, 9);
    ZeroWord(b, w, 10);
    ZeroWord(b, w, 11);
    ZeroWord(b, w, 12);
    ZeroWord(b, w, 13);
    ZeroWord(b, w, 14);
    FirstWord(b, w, 15, 0x00, 0x00, 0x02, 0x00, 0x00000200);
  }

  // The padded message: m, 0x80, 55 + 6 zeros and the length of 512 bits.
  lemma TwoBlocksBytes(m: seq<Byte>, p: seq<Byte>)
    requires |m| == 64 && p == m + [0x80] + Zeros(55) + (Zeros(6) + [0x02, 0x00])
    ensures |p| == 128 && Block(p, 0) == m
    ensures Block(p, 1)[0] == 0x80 && ZerosIn(Block(p, 1), 1, 62) && Block(p, 1)[62] == 0x02 && Block(p, 1)[63] == 0x00
  {
  }

  lemma TwoBlocksCounts(n: nat)
    requires n == 64
    ensures ZeroCount(n) == 55 && LengthField(n) == 512
  {
  }

  lemma TwoBlocksPad(m: seq<Byte>)
    requires ZeroCount(|m|) == 55 && LengthField(|m|) == 512
    ensures Pad(m) == m + [0x80] + Zeros(55) + (Zeros(6) + [0x02, 0x00])
  {
    LongLength();
    PadIs(m, 55, 512, Zeros(6) + [0x02, 0x00]);
  }

  lemma TwoBlocks(m: seq<Byte>, v: Regs, b: seq<Byte>)
    requires |Pad(m)| == 128 && v == Compress(IV, Block(Pad(m), 0)) && b == Block(Pad(m), 1)
    ensures Digest(m) == RegsBytes(Compress(v, b))
  {
    assert Iterate(IV, Pad(m), 0) == IV;
    IterateStep(IV, Pad(m), 0, IV, Block(Pad(m), 0));
    IterateStep(IV, Pad(m), 1, v, b);
  }

  lemma HeadRegs(v: Regs, b: seq<Byte>)
    requires b == Repeated(16) && |b| == 64
    requires v == Regs(
      0x7380166F, 0x4914B2B9, 0x172442D7, 0xDA8A0600, 0xA96F30BC, 0x163138AA, 0xE38DEE4D, 0xB0FB0E4E)
    ensures Compress(v, b) == Regs(
      0x5950DE81, 0x468664EB, 0x42FD4C86, 0x1E7CA00A, 0xC0A5910B, 0xAE9A55EA, 0x1ADB8D17, 0x763CA222)
  {
    var w, y := WordsOf(b);
    HeadFirst(b, w);
    HeadCompress(v, b, w, y);
  }

  lemma TailRegs(v: Regs, b: seq<Byte>)
    requires |b| == 64 && b[0] == 0x80 && ZerosIn(b, 1, 62) && b[62] == 0x02 && b[63] == 0x00
    requires v == Regs(
      0x5950DE81, 0x468664EB, 0x42FD4C86, 0x1E7CA00A, 0xC0A5910B, 0xAE9A55EA, 0x1ADB8D17, 0x763CA222)
    ensures Compress(v, b) == Regs(
      0xDEBE9FF9, 0x2275B8A1, 0x38604889, 0xC18E5A4D, 0x6FDB70E5, 0x387E5765, 0x293DCBA3, 0x9C0C5732)
  {
    var w, y := WordsOf(b);
    TailFirst(b, w);
    TailCompress(v, b, w, y);
  }

  lemma TailDigestBytes(r: Regs)
    requires r == Regs(
      0xDEBE9FF9, 0x2275B8A1, 0x38604889, 0xC18E5A4D, 0x6FDB70E5, 0x387E5765, 0x293DCBA3, 0x9C0C5732)
    ensures RegsBytes(r) ==
      [0xDE, 0xBE, 0x9F, 0xF9] + [0x22, 0x75, 0xB8, 0xA1] + [0x38, 0x60, 0x48, 0x89] + [0xC1, 0x8E, 0x5A, 0x4D]
      + [0x6F, 0xDB, 0x70, 0xE5] + [0x38, 0x7E, 0x57, 0x65] + [0x29, 0x3D, 0xCB, 0xA3] + [0x9C, 0x0C, 0x57, 0x32]
  {
    WordIs(0xDEBE9FF9, 0xDE, 0xBE, 0x9F, 0xF9);
    WordIs(0x2275B8A1, 0x22, 0x75, 0xB8, 0xA1);
    WordIs(0x38604889, 0x38, 0x60, 0x48, 0x89);
    WordIs(0xC18E5A4D, 0xC1, 0x8E, 0x5A, 0x4D);
    WordIs(0x6FDB70E5, 0x6F, 0xDB, 0x70, 0xE5);
    WordIs(0x387E5765, 0x38, 0x7E, 0x57, 0x65);
    WordIs(0x293DCBA3, 0x29, 0x3D, 0xCB, 0xA3);
    WordIs(0x9C0C5732, 0x9C, 0x0C, 0x57, 0x32);
  }

  lemma AbcdBlocks(m: seq<Byte>)
    requires |m| == 64
    ensures |Pad(m)| == 128 && Block(Pad(m), 0) == m
    ensures Block(Pad(m), 1)[0] == 0x80 && ZerosIn(Block(Pad(m), 1), 1, 62)
    ensures Block(Pad(m), 1)[62] == 0x02 && Block(Pad(m), 1)[63] == 0x00
  {
    TwoBlocksCounts(|m|);
    TwoBlocksPad(m);
    TwoBlocksBytes(m, Pad(m));
  }

  /** Example 2: the 64 bytes of sixteen times abcd, which take two blocks. */
  lemma DigestOfAbcds(m: seq<Byte>)
    requires m == Repeated(16)
    ensures Digest(m) ==
      [0xDE, 0xBE, 0x9F, 0xF9] + [0x22, 0x75, 0xB8, 0xA1] + [0x38, 0x60, 0x48, 0x89] + [0xC1, 0x8E, 0x5A, 0x4D]
      + [0x6F, 0xDB, 0x70, 0xE5] + [0x38, 0x7E, 0x57, 0x65] + [0x29, 0x3D, 0xCB, 0xA3] + [0x9C, 0x0C, 0x57, 0x32]
  {
    AbcdBlocks(m);
    var v := Compress(IV, Block(Pad(m), 0));
    HeadRegs(IV, m);
    TwoBlocks(m, v, Block(Pad(m), 1));
    TailRegs(v, Block(Pad(m), 1));
    TailDigestBytes(Compress(v, Block(Pad(m), 1)));
  }
}
