/** Numbers below 256 as bytes, by their two hexadecimal digits. */
module ByteValues {
  function Digit(v: nat): bv8
    requires v < 16
  {
    match v
    case 0 => 0 case 1 => 1 case 2 => 2 case 3 => 3 case 4 => 4 case 5 => 5 case 6 => 6 case 7 => 7
    case 8 => 8 case 9 => 9 case 10 => 10 case 11 => 11 case 12 => 12 case 13 => 13 case 14 => 14 case 15 => 15
  }

  function ByteOf(x: nat): bv8
    requires x < 256
  {
    (Digit(x / 16) << 4) | Digit(x % 16)
  }

  lemma DigitInjective(v: nat, w: nat)
    requires v < 16 && w < 16
    ensures Digit(v) < 16 && (Digit(v) == Digit(w) ==> v == w)
  {
  }

  lemma JoinInjective(a: bv8, b: bv8, c: bv8, d: bv8)
    requires a < 16 && b < 16 && c < 16 && d < 16 && ((a << 4) | b) == ((c << 4) | d)
    ensures a == c && b == d
  {
  }

  lemma ByteInjective(x: nat, y: nat)
    requires x < 256 && y < 256 && ByteOf(x) == ByteOf(y)
    ensures x == y
  {
    DigitInjective(x / 16, y / 16);
    DigitInjective(x % 16, y % 16);
    DigitInjective(y / 16, x / 16);
    DigitInjective(y % 16, x % 16);
    JoinInjective(Digit(x / 16), Digit(x % 16), Digit(y / 16), Digit(y % 16));
  }
}

/** Rotation of a word. */
module Words {
  type Word = bv32

  function Rotl(x: Word, n: bv8): Word
    requires n <= 32
  {
    (x << n) | (x >> (32 - n))
  }

  /** The pair of shifts is the cyclic shift that the standard asks for, by any number of places. */
  lemma RotlRotates(x: Word)
    ensures Rotl(x, 0) == x.RotateLeft(0) && Rotl(x, 1) == x.RotateLeft(1) && Rotl(x, 2) == x.RotateLeft(2)
    ensures Rotl(x, 3) == x.RotateLeft(3) && Rotl(x, 4) == x.RotateLeft(4) && Rotl(x, 5) == x.RotateLeft(5)
    ensures Rotl(x, 6) == x.RotateLeft(6) && Rotl(x, 7) == x.RotateLeft(7) && Rotl(x, 8) == x.RotateLeft(8)
    ensures Rotl(x, 9) == x.RotateLeft(9) && Rotl(x, 10) == x.RotateLeft(10) && Rotl(x, 11) == x.RotateLeft(11)
    ensures Rotl(x, 12) == x.RotateLeft(12) && Rotl(x, 13) == x.RotateLeft(13) && Rotl(x, 14) == x.RotateLeft(14)
    ensures Rotl(x, 15) == x.RotateLeft(15) && Rotl(x, 16) == x.RotateLeft(16) && Rotl(x, 17) == x.RotateLeft(17)
    ensures Rotl(x, 18) == x.RotateLeft(18) && Rotl(x, 19) == x.RotateLeft(19) && Rotl(x, 20) == x.RotateLeft(20)
    ensures Rotl(x, 21) == x.RotateLeft(21) && Rotl(x, 22) == x.RotateLeft(22) && Rotl(x, 23) == x.RotateLeft(23)
    ensures Rotl(x, 24) == x.RotateLeft(24) && Rotl(x, 25) == x.RotateLeft(25) && Rotl(x, 26) == x.RotateLeft(26)
    ensures Rotl(x, 27) == x.RotateLeft(27) && Rotl(x, 28) == x.RotateLeft(28) && Rotl(x, 29) == x.RotateLeft(29)
    ensures Rotl(x, 30) == x.RotateLeft(30) && Rotl(x, 31) == x.RotateLeft(31)
  {
  }
}

/**
 The SM3 digest. The functions are GB/T 32905-2016: padding of section 5.2, message expansion of 5.3.2 and the
 compression function of 5.3.3. The method is the loop program, and computes the same digest.
 */
module Sm3 {
  import opened ByteValues
  import opened Words

  type Byte = bv8

  function FF(j: nat, x: Word, y: Word, z: Word): Word {
    if j < 16 then x ^ y ^ z else (x & y) | (x & z) | (y & z)
  }

  function GG(j: nat, x: Word, y: Word, z: Word): Word {
    if j < 16 then x ^ y ^ z else (x & y) | (!x & z)
  }

  /** In the late rounds GG takes the bits of y where x has ones, and those of z where x has zeros. */
  lemma GGChooses(j: nat, x: Word, y: Word, z: Word)
    requires 16 <= j
    ensures GG(j, x, y, z) & x == y & x && GG(j, x, y, z) & !x == z & !x
  {
  }

  /** In the late rounds FF takes the majority: the bits of x where x and y agree, and those of z where they differ. */
  lemma FFIsTheMajority(j: nat, x: Word, y: Word, z: Word)
    requires 16 <= j
    ensures FF(j, x, y, z) & !(x ^ y) == x & !(x ^ y) && FF(j, x, y, z) & (x ^ y) == z & (x ^ y)
  {
  }

  function P0(x: Word): Word { x ^ Rotl(x, 9) ^ Rotl(x, 17) }

  function P1(x: Word): Word { x ^ Rotl(x, 15) ^ Rotl(x, 23) }

  function T(j: nat): Word { if j < 16 then 0x79CC4519 else 0x7A879D8A }

  // ---------- Padding ----------

  function Zeros(n: nat): seq<Byte> { seq(n, i => 0) }

  // The least number of zero bytes that brings a message of n bytes and its 0x80 to 56 modulo 64.
  function ZeroCount(n: nat): nat { (119 - n % 64) % 64 }

  // x in k bytes, most significant first.
  function BigEndian(x: nat, k: nat): (r: seq<Byte>)
    ensures |r| == k
  {
    if k == 0 then [] else BigEndian(x / 256, k - 1) + [ByteOf(x % 256)]
  }

  function Power256(k: nat): nat { if k == 0 then 1 else 256 * Power256(k - 1) }

  lemma {:induction false} BigEndianInjective(x: nat, y: nat, k: nat)
    requires x < Power256(k) && y < Power256(k) && BigEndian(x, k) == BigEndian(y, k)
    ensures x == y
  {
    if 0 < k {
      var a, b := BigEndian(x / 256, k - 1), BigEndian(y / 256, k - 1);
      var u, v := ByteOf(x % 256), ByteOf(y % 256);
      assert (a + [u])[..k - 1] == a && (b + [v])[..k - 1] == b && (a + [u])[k - 1] == u && (b + [v])[k - 1] == v;
      BigEndianInjective(x / 256, y / 256, k - 1);
      ByteInjective(x % 256, y % 256);
    }
  }

  const TWO64: nat := 0x1_0000_0000_0000_0000

  const LENGTH_BYTES: nat := 8

  // The length in bits; the field wraps at 64 bits.
  function LengthField(n: nat): (r: nat)
    ensures r < TWO64
    ensures n < 0x2000_0000_0000_0000 ==> r == 8 * n
  {
    8 * n % TWO64
  }

  function Pad(m: seq<Byte>): seq<Byte> {
    m + [0x80] + Zeros(ZeroCount(|m|)) + BigEndian(LengthField(|m|), LENGTH_BYTES)
  }

  // The loop that writes zeros stops exactly after ZeroCount of them.
  lemma ZerosNeeded(n: nat, k: nat)
    requires k <= ZeroCount(n)
    ensures (n + 1 + k) % 64 == 56 <==> k == ZeroCount(n)
  {
    var q, r := n / 64, n % 64;
    assert n == 64 * q + r;
    if r <= 55 {
      assert ZeroCount(n) == 55 - r;
    } else {
      assert ZeroCount(n) == 119 - r;
    }
  }

  lemma WholeBlocks(n: nat)
    ensures (n + 9 + ZeroCount(n)) % 64 == 0
  {
    ZerosNeeded(n, ZeroCount(n));
  }

  /** A padded message is a whole number of 64-byte blocks and no longer than it has to be. */
  lemma PadLength(m: seq<Byte>)
    ensures |Pad(m)| % 64 == 0 && |m| + 9 <= |Pad(m)| <= |m| + 72
  {
    WholeBlocks(|m|);
    assert |Pad(m)| == |m| + 9 + ZeroCount(|m|);
  }

  lemma FieldFits()
    ensures Power256(LENGTH_BYTES) == TWO64
  {
    assert Power256(4) == 0x1_0000_0000;
    assert Power256(8) == 256 * (256 * (256 * (256 * Power256(4))));
  }

  lemma PadSuffix(m: seq<Byte>)
    ensures |Pad(m)| >= LENGTH_BYTES && Pad(m)[..|m|] == m
    ensures Pad(m)[|Pad(m)| - LENGTH_BYTES..] == BigEndian(LengthField(|m|), LENGTH_BYTES)
  {
  }

  lemma LengthFromPad(m1: seq<Byte>, m2: seq<Byte>)
    requires Pad(m1) == Pad(m2)
    ensures LengthField(|m1|) == LengthField(|m2|)
  {
    PadSuffix(m1);
    PadSuffix(m2);
    FieldFits();
    BigEndianInjective(LengthField(|m1|), LengthField(|m2|), LENGTH_BYTES);
  }

  /** No two messages below 2^61 bytes have the same padding. */
  lemma PadInjective(m1: seq<Byte>, m2: seq<Byte>)
    requires |m1| < 0x2000_0000_0000_0000 && |m2| < 0x2000_0000_0000_0000 && Pad(m1) == Pad(m2)
    ensures m1 == m2
  {
    LengthFromPad(m1, m2);
    assert |m1| == |m2|;
    PadSuffix(m1);
    PadSuffix(m2);
  }

  method PadMessage(data: seq<Byte>) returns (padded: seq<Byte>)
    ensures padded == Pad(data)
  {
    var bitLen := LengthField(|data|);
    padded := data;
    padded := padded + [0x80];
    ghost var n := 0;
    ZerosNeeded(|data|, n);
    while |padded| % 64 != 56
      invariant 0 <= n <= ZeroCount(|data|) && padded == data + [0x80] + Zeros(n)
      invariant |padded| % 64 == 56 <==> n == ZeroCount(|data|)
      decreases ZeroCount(|data|) - n
    {
      padded := padded + [0];
      n := n + 1;
      ZerosNeeded(|data|, n);
    }
    padded := padded + BigEndian(bitLen, LENGTH_BYTES);
  }

  // ---------- Message expansion ----------

  function WordAt(b: seq<Byte>, i: nat): Word
    requires 4 * i + 4 <= |b|
  {
    (b[4 * i] as Word << 24) | (b[4 * i + 1] as Word << 16) | (b[4 * i + 2] as Word << 8) | b[4 * i + 3] as Word
  }

  function Mix(w16: Word, w13: Word, w9: Word, w6: Word, w3: Word): Word {
    P1(w16 ^ w9 ^ Rotl(w3, 15)) ^ Rotl(w13, 7) ^ w6
  }

  // W_j of a block.
  function Expand(b: seq<Byte>, j: nat): Word
    requires |b| == 64 && j < 68
  {
    if j < 16 then WordAt(b, j)
    else Mix(Expand(b, j - 16), Expand(b, j - 13), Expand(b, j - 9), Expand(b, j - 6), Expand(b, j - 3))
  }

  function Schedule(b: seq<Byte>): (w: seq<Word>)
    requires |b| == 64
    ensures |w| == 68
  {
    seq(68, j requires 0 <= j < 68 => Expand(b, j))
  }

  function Xor(x: Word, y: Word): Word { x ^ y }

  // W'_j = W_j xor W_{j+4}
  function Schedule'(w: seq<Word>): (w1: seq<Word>)
    requires |w| == 68
    ensures |w1| == 64
  {
    seq(64, j requires 0 <= j < 64 => Xor(w[j], w[j + 4]))
  }

  // ---------- Compression ----------

  datatype Regs = Regs(a: Word, b: Word, c: Word, d: Word, e: Word, f: Word, g: Word, h: Word)

  const IV := Regs(0x7380166F, 0x4914B2B9, 0x172442D7, 0xDA8A0600, 0xA96F30BC, 0x163138AA, 0xE38DEE4D, 0xB0FB0E4E)

  // j modulo 32, as a number of places.
  function Places(j: nat): (n: bv8)
    requires j < 64
    ensures n < 32
  {
    match if j < 32 then j else j - 32
    case 0 => 0 case 1 => 1 case 2 => 2 case 3 => 3 case 4 => 4 case 5 => 5 case 6 => 6 case 7 => 7
    case 8 => 8 case 9 => 9 case 10 => 10 case 11 => 11 case 12 => 12 case 13 => 13 case 14 => 14 case 15 => 15
    case 16 => 16 case 17 => 17 case 18 => 18 case 19 => 19 case 20 => 20 case 21 => 21 case 22 => 22 case 23 => 23
    case 24 => 24 case 25 => 25 case 26 => 26 case 27 => 27 case 28 => 28 case 29 => 29 case 30 => 30 case 31 => 31
  }

  // The constant of round j, rotated by j modulo 32 places.
  function Turned(j: nat): Word
    requires j < 64
  {
    Rotl(T(j), Places(j))
  }

  function SS1(a: Word, e: Word, k: Word): Word { Rotl(Rotl(a, 12) + e + k, 7) }

  function SS2(ss1: Word, a: Word): Word { ss1 ^ Rotl(a, 12) }

  function TT(f: Word, d: Word, ss: Word, w: Word): Word { f + d + ss + w }

  // Round j, with the constant k already turned.
  function StepWith(r: Regs, j: nat, k: Word, w: Word, w1: Word): Regs {
    var ss1 := SS1(r.a, r.e, k);
    Regs(TT(FF(j, r.a, r.b, r.c), r.d, SS2(ss1, r.a), w1), r.a, Rotl(r.b, 9), r.c,
         P0(TT(GG(j, r.e, r.f, r.g), r.h, ss1, w)), r.e, Rotl(r.f, 19), r.g)
  }

  function Step(r: Regs, j: nat, w: Word, w1: Word): Regs
    requires j < 64
  {
    StepWith(r, j, Turned(j), w, w1)
  }

  function Rounds(r: Regs, w: seq<Word>, w1: seq<Word>, n: nat): Regs
    requires n <= |w| && n <= |w1| && n <= 64
  {
    if n == 0 then r else Step(Rounds(r, w, w1, n - 1), n - 1, w[n - 1], w1[n - 1])
  }

  function XorRegs(x: Regs, y: Regs): Regs {
    Regs(x.a ^ y.a, x.b ^ y.b, x.c ^ y.c, x.d ^ y.d, x.e ^ y.e, x.f ^ y.f, x.g ^ y.g, x.h ^ y.h)
  }

  function Compress(v: Regs, b: seq<Byte>): Regs
    requires |b| == 64
  {
    XorRegs(v, Rounds(v, Schedule(b), Schedule'(Schedule(b)), |Schedule'(Schedule(b))|))
  }

  function Block(p: seq<Byte>, i: nat): (b: seq<Byte>)
    requires 64 * i + 64 <= |p|
    ensures |b| == 64
  {
    p[64 * i..64 * i + 64]
  }

  // The first n blocks of p folded into v.
  function Iterate(v: Regs, p: seq<Byte>, n: nat): Regs
    requires 64 * n <= |p|
  {
    if n == 0 then v else Compress(Iterate(v, p, n - 1), Block(p, n - 1))
  }

  function WordBytes(x: Word): seq<Byte> {
    [((x >> 24) & 255) as bv8, ((x >> 16) & 255) as bv8, ((x >> 8) & 255) as bv8, (x & 255) as bv8]
  }

  function RegsBytes(r: Regs): (b: seq<Byte>)
    ensures |b| == 32
  {
    WordBytes(r.a) + WordBytes(r.b) + WordBytes(r.c) + WordBytes(r.d)
    + WordBytes(r.e) + WordBytes(r.f) + WordBytes(r.g) + WordBytes(r.h)
  }

  function Digest(m: seq<Byte>): (d: seq<Byte>)
    ensures |d| == 32
  {
    PadLength(m);
    RegsBytes(Iterate(IV, Pad(m), |Pad(m)| / 64))
  }

  lemma WordRoundTrip(x: Word)
    ensures WordAt(WordBytes(x), 0) == x
  {
  }

  lemma PeelWord(p: seq<Byte>, x: Word, q: seq<Byte>, y: Word)
    requires p + WordBytes(x) == q + WordBytes(y)
    ensures p == q && x == y
  {
    assert (p + WordBytes(x))[|p|..] == WordBytes(x) && (q + WordBytes(y))[|q|..] == WordBytes(y);
    assert (p + WordBytes(x))[..|p|] == p && (q + WordBytes(y))[..|q|] == q;
    WordRoundTrip(x);
    WordRoundTrip(y);
  }

  // The bytes of the first four words.
  function LeftBytes(r: Regs): seq<Byte> { WordBytes(r.a) + WordBytes(r.b) + WordBytes(r.c) + WordBytes(r.d) }

  lemma LeftInjective(x: Regs, y: Regs)
    requires LeftBytes(x) == LeftBytes(y)
    ensures x.a == y.a && x.b == y.b && x.c == y.c && x.d == y.d
  {
    PeelWord(WordBytes(x.a) + WordBytes(x.b) + WordBytes(x.c), x.d, WordBytes(y.a) + WordBytes(y.b) + WordBytes(y.c), y.d);
    PeelWord(WordBytes(x.a) + WordBytes(x.b), x.c, WordBytes(y.a) + WordBytes(y.b), y.c);
    PeelWord(WordBytes(x.a), x.b, WordBytes(y.a), y.b);
    PeelWord([], x.a, [], y.a);
  }

  /** The digest bytes determine the eight words they were written from. */
  lemma RegsInjective(x: Regs, y: Regs)
    requires RegsBytes(x) == RegsBytes(y)
    ensures x == y
  {
    var p, q := LeftBytes(x), LeftBytes(y);
    PeelWord(p + WordBytes(x.e) + WordBytes(x.f) + WordBytes(x.g), x.h, q + WordBytes(y.e) + WordBytes(y.f) + WordBytes(y.g), y.h);
    PeelWord(p + WordBytes(x.e) + WordBytes(x.f), x.g, q + WordBytes(y.e) + WordBytes(y.f), y.g);
    PeelWord(p + WordBytes(x.e), x.f, q + WordBytes(y.e), y.f);
    PeelWord(p, x.e, q, y.e);
    LeftInjective(x, y);
  }

  // ---------- The program ----------

  method ExpandBlock(b: seq<Byte>) returns (w: array<Word>)
    requires |b| == 64
    ensures w[..] == Schedule(b)
  {
    w := new Word[68];
    for i := 0 to 16
      invariant forall k :: 0 <= k < i ==> w[k] == Expand(b, k)
    {
      w[i] := WordAt(b, i);
    }
    for j := 16 to 68
      invariant forall k :: 0 <= k < j ==> w[k] == Expand(b, k)
    {
      w[j] := Mix(w[j - 16], w[j - 13], w[j - 9], w[j - 6], w[j - 3]);
    }
  }

  method Fold(w: array<Word>) returns (w1: array<Word>)
    requires w.Length == 68
    ensures w1[..] == Schedule'(w[..])
  {
    w1 := new Word[64];
    for j := 0 to 64
      invariant forall k :: 0 <= k < j ==> w1[k] == Xor(w[k], w[k + 4])
    {
      w1[j] := Xor(w[j], w[j + 4]);
    }
  }

  // The body of the round loop.
  method Round(r: Regs, j: nat, w: Word, w1: Word) returns (r': Regs)
    requires j < 64
    ensures r' == Step(r, j, w, w1)
  {
    var a, b, c, d := r.a, r.b, r.c, r.d;
    var e, f, g, h := r.e, r.f, r.g, r.h;
    var t: Word := if j < 16 then 0x79CC4519 else 0x7A879D8A;
    var ss1 := SS1(a, e, Rotl(t, Places(j)));
    var ss2 := SS2(ss1, a);
    var tt1 := TT(FF(j, a, b, c), d, ss2, w1);
    var tt2 := TT(GG(j, e, f, g), h, ss1, w);
    d := c;
    c := Rotl(b, 9);
    b := a;
    a := tt1;
    h := g;
    g := Rotl(f, 19);
    f := e;
    e := P0(tt2);
    r' := Regs(a, b, c, d, e, f, g, h);
  }

  method CompressBlock(v: Regs, block: seq<Byte>) returns (r: Regs)
    requires |block| == 64
    ensures r == Compress(v, block)
  {
    var w := ExpandBlock(block);
    var w1 := Fold(w);
    var x := RoundLoop(v, w, w1);
    r := XorRegs(v, x);
  }

  method RoundLoop(v: Regs, w: array<Word>, w1: array<Word>) returns (x: Regs)
    requires w.Length == 68 && w1.Length == 64
    ensures x == Rounds(v, w[..], w1[..], w1.Length)
  {
    x := v;
    for j := 0 to 64
      invariant x == Rounds(v, w[..], w1[..], j)
    {
      x := Round(x, j, w[j], w1[j]);
    }
  }

  /** The loop program computes the digest of the standard, for every message. */
  method Sum(data: seq<Byte>) returns (out: seq<Byte>)
    ensures out == Digest(data)
  {
    var padded := PadMessage(data);
    PadLength(data);
    var v := SumBlocks(padded, IV, |padded| / 64);
    out := RegsBytes(v);
  }

  lemma IterateStep(v: Regs, p: seq<Byte>, n: nat, x: Regs, b: seq<Byte>)
    requires 64 * n + 64 <= |p| && x == Iterate(v, p, n) && b == Block(p, n)
    ensures Iterate(v, p, n + 1) == Compress(x, b)
  {
  }

  lemma BlockAt(p: seq<Byte>, n: nat, i: nat)
    requires i == 64 * n && i + 64 <= |p|
    ensures Block(p, n) == p[i..i + 64]
  {
  }

  // One block folded in.
  method SumBlock(v: Regs, padded: seq<Byte>, i: nat, ghost n: nat, ghost v0: Regs) returns (v': Regs)
    requires i == 64 * n && i + 64 <= |padded| && v == Iterate(v0, padded, n)
    ensures v' == Iterate(v0, padded, n + 1)
  {
    BlockAt(padded, n, i);
    var block := padded[i..i + 64];
    v' := CompressBlock(v, block);
    IterateStep(v0, padded, n, v, block);
  }

  method SumBlocks(padded: seq<Byte>, v0: Regs, ghost blocks: nat) returns (v: Regs)
    requires |padded| == 64 * blocks
    ensures v == Iterate(v0, padded, blocks)
  {
    v := v0;
    var i := 0;
    ghost var n: nat := 0;
    while i < |padded|
      invariant n <= blocks && i == 64 * n && v == Iterate(v0, padded, n)
    {
      v := SumBlock(v, padded, i, n, v0);
      i := i + 64;
      n := n + 1;
    }
    assert n == blocks;
  }
}
