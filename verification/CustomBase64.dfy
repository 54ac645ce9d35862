/** The base64 variant of the a_bogus signature: its own alphabet, '=' padding, and the decoder that undoes it. */
module CustomBase64 {
  import opened Wrappers

  type Byte = bv8

  // The alphabet in rows of eight.
  const ALPHABET: seq<string> :=
    ["Dkdpgh2Z", "msQB80/M", "fvV36XI1", "R45-WUAl", "EixNLwoq", "YTOPuzKF", "jJnry79H", "bGcaStCe"]

  function Symbol(v: bv6): char {
    var i := v as int;
    assert |ALPHABET| == 8 && forall r :: 0 <= r < 8 ==> |ALPHABET[r]| == 8;
    ALPHABET[i / 8][i % 8]
  }

  // The position of each ASCII code in the alphabet, in rows of eight; 64 for a code that is not in it.
  const POSITIONS: seq<seq<int>> := [
    [64, 64, 64, 64, 64, 64, 64, 64], [64, 64, 64, 64, 64, 64, 64, 64],
    [64, 64, 64, 64, 64, 64, 64, 64], [64, 64, 64, 64, 64, 64, 64, 64],
    [64, 64, 64, 64, 64, 64, 64, 64], [64, 64, 64, 64, 64, 27, 64, 14],
    [13, 23, 6, 19, 25, 26, 20, 53], [12, 54, 64, 64, 64, 64, 64, 64],
    [64, 30, 11, 62, 0, 32, 47, 57], [55, 22, 49, 46, 36, 15, 35, 42],
    [43, 10, 24, 60, 41, 29, 18, 28], [21, 40, 7, 64, 64, 64, 64, 64],
    [64, 59, 56, 58, 2, 63, 16, 4], [5, 33, 48, 1, 31, 8, 50, 38],
    [3, 39, 51, 9, 61, 44, 17, 37], [34, 52, 45, 64, 64, 64, 64, 64]]

  function Position(c: char): int {
    if c as int < 128 && |POSITIONS| == 16 && |POSITIONS[c as int / 8]| == 8
    then POSITIONS[c as int / 8][c as int % 8] else 64
  }

  lemma Row0(k: nat) requires k < 8 ensures Position(ALPHABET[0][k]) == k { assert ALPHABET[0] == "Dkdpgh2Z"; }
  lemma Row1(k: nat) requires k < 8 ensures Position(ALPHABET[1][k]) == 8 + k { assert ALPHABET[1] == "msQB80/M"; }
  lemma Row2(k: nat) requires k < 8 ensures Position(ALPHABET[2][k]) == 16 + k { assert ALPHABET[2] == "fvV36XI1"; }
  lemma Row3(k: nat) requires k < 8 ensures Position(ALPHABET[3][k]) == 24 + k { assert ALPHABET[3] == "R45-WUAl"; }
  lemma Row4(k: nat) requires k < 8 ensures Position(ALPHABET[4][k]) == 32 + k { assert ALPHABET[4] == "EixNLwoq"; }
  lemma Row5(k: nat) requires k < 8 ensures Position(ALPHABET[5][k]) == 40 + k { assert ALPHABET[5] == "YTOPuzKF"; }
  lemma Row6(k: nat) requires k < 8 ensures Position(ALPHABET[6][k]) == 48 + k { assert ALPHABET[6] == "jJnry79H"; }
  lemma Row7(k: nat) requires k < 8 ensures Position(ALPHABET[7][k]) == 56 + k { assert ALPHABET[7] == "bGcaStCe"; }

  /** The 64 symbols are distinct, and none of them is the padding. */
  lemma SymbolPosition(v: bv6)
    ensures Position(Symbol(v)) == v as int
    ensures Symbol(v) != '=' && Symbol(v) as int < 128
  {
    var i := v as int;
    match i / 8 {
      case 0 => Row0(i % 8);
      case 1 => Row1(i % 8);
      case 2 => Row2(i % 8);
      case 3 => Row3(i % 8);
      case 4 => Row4(i % 8);
      case 5 => Row5(i % 8);
      case 6 => Row6(i % 8);
      case 7 => Row7(i % 8);
    }
    assert Position('=') == 64;
  }

  // ---------- One group ----------

  function Join(a: Byte, b: Byte, c: Byte): bv32 { (a as bv32 << 16) | (b as bv32 << 8) | c as bv32 }

  // The i-th six bits of the low 24, from the top.
  function Sextet(n: bv32, i: nat): bv6
    requires i < 4
  {
    match i
    case 0 => ((n >> 18) & 63) as bv6
    case 1 => ((n >> 12) & 63) as bv6
    case 2 => ((n >> 6) & 63) as bv6
    case 3 => (n & 63) as bv6
  }

  function Symbols(n: bv32): (q: string)
    ensures |q| == 4
  {
    [Symbol(Sextet(n, 0)), Symbol(Sextet(n, 1)), Symbol(Sextet(n, 2)), Symbol(Sextet(n, 3))]
  }

  function Sextets(a: bv6, b: bv6, c: bv6, d: bv6): bv32 {
    (a as bv32 << 18) | (b as bv32 << 12) | (c as bv32 << 6) | d as bv32
  }

  function Split(n: bv32): seq<Byte> {
    [((n >> 16) & 255) as bv8, ((n >> 8) & 255) as bv8, (n & 255) as bv8]
  }

  lemma SplitJoin(a: Byte, b: Byte, c: Byte)
    ensures Split(Join(a, b, c)) == [a, b, c]
    ensures Join(a, b, c) < 0x100_0000
  {
  }

  lemma SextetsOf(n: bv32)
    requires n < 0x100_0000
    ensures Sextets(Sextet(n, 0), Sextet(n, 1), Sextet(n, 2), Sextet(n, 3)) == n
  {
  }

  // With fewer than three bytes the low sextets are zero, so they need not be written.
  lemma ShortGroups(a: Byte, b: Byte)
    ensures Sextet(Join(a, b, 0), 3) == 0
    ensures Sextet(Join(a, 0, 0), 2) == 0 && Sextet(Join(a, 0, 0), 3) == 0
  {
  }

  function SymbolValue(c: char): bv6 {
    if 0 <= Position(c) < 64 then Position(c) as bv6 else 0
  }

  predicate IsSymbol(c: char) { 0 <= Position(c) < 64 }

  function Unpack(q: string): seq<Byte>
    requires |q| == 4
  {
    Split(Sextets(SymbolValue(q[0]), SymbolValue(q[1]), SymbolValue(q[2]), SymbolValue(q[3])))
  }

  lemma SymbolsUnpack(n: bv32)
    requires n < 0x100_0000
    ensures |Symbols(n)| == 4 && forall k :: 0 <= k < 4 ==> IsSymbol(Symbols(n)[k]) && Symbols(n)[k] != '='
    ensures Unpack(Symbols(n)) == Split(n)
    ensures forall k :: 0 <= k < 4 ==> SymbolValue(Symbols(n)[k]) == Sextet(n, k)
  {
    SymbolPosition(Sextet(n, 0));
    SymbolPosition(Sextet(n, 1));
    SymbolPosition(Sextet(n, 2));
    SymbolPosition(Sextet(n, 3));
    SextetsOf(n);
  }

  // ---------- Whole inputs ----------

  function Raw(d: seq<Byte>): string {
    if |d| == 0 then ""
    else if |d| == 1 then Symbols(Join(d[0], 0, 0))[..2]
    else if |d| == 2 then Symbols(Join(d[0], d[1], 0))[..3]
    else Symbols(Join(d[0], d[1], d[2])) + Raw(d[3..])
  }

  function Padding(n: nat): string {
    if n % 4 == 0 then "" else if n % 4 == 1 then "===" else if n % 4 == 2 then "==" else "="
  }

  function Encode(d: seq<Byte>): string { Raw(d) + Padding(|Raw(d)|) }

  // Groups of four symbols; only the last group may end in one or two padding characters.
  function Decode(s: string): Option<seq<Byte>> {
    if s == "" then Some([])
    else if |s| < 4 || !IsSymbol(s[0]) || !IsSymbol(s[1]) then None
    else if |s| == 4 && s[2] == '=' && s[3] == '=' then Some(Unpack(s)[..1])
    else if !IsSymbol(s[2]) then None
    else if |s| == 4 && s[3] == '=' then Some(Unpack(s)[..2])
    else if !IsSymbol(s[3]) then None
    else
      match Decode(s[4..])
      case None => None
      case Some(rest) => Some(Unpack(s[..4]) + rest)
  }

  lemma RawStep(d: seq<Byte>)
    requires |d| >= 3
    ensures Encode(d) == Symbols(Join(d[0], d[1], d[2])) + Encode(d[3..])
  {
    var q, rest := Symbols(Join(d[0], d[1], d[2])), Raw(d[3..]);
    assert Raw(d) == q + rest && Padding(|q| + |rest|) == Padding(|rest|);
  }

  lemma DecodeStep(q: string, rest: string)
    requires |q| == 4 && forall k :: 0 <= k < 4 ==> IsSymbol(q[k]) && q[k] != '='
    ensures Decode(q + rest) ==
      match Decode(rest) { case None => None case Some(r) => Some(Unpack(q) + r) }
  {
    assert (q + rest)[..4] == q && (q + rest)[4..] == rest;
    assert (q + rest)[2] == q[2] && (q + rest)[3] == q[3];
  }

  lemma PaddingIsZero()
    ensures !IsSymbol('=') && SymbolValue('=') == 0
  {
    assert Position('=') == 64;
  }

  lemma TwoByteTail(a: Byte, b: Byte)
    ensures Encode([a, b]) == Symbols(Join(a, b, 0))[..3] + "="
    ensures Decode(Encode([a, b])) == Some([a, b])
  {
    var n := Join(a, b, 0);
    SplitJoin(a, b, 0);
    ShortGroups(a, b);
    SymbolsUnpack(n);
    PaddingIsZero();
    var q := Symbols(n);
    var s := q[..3] + "=";
    assert SymbolValue(s[3]) == SymbolValue(q[3]);
    assert Unpack(s) == [a, b, 0];
    assert Decode(s) == Some([a, b, 0][..2]);
    assert [a, b, 0][..2] == [a, b];
    assert Raw([a, b]) == q[..3] && Encode([a, b]) == s;
  }

  lemma OneByteTail(a: Byte)
    ensures Encode([a]) == Symbols(Join(a, 0, 0))[..2] + "=="
    ensures Decode(Encode([a])) == Some([a])
  {
    var n := Join(a, 0, 0);
    SplitJoin(a, 0, 0);
    ShortGroups(a, 0);
    SymbolsUnpack(n);
    PaddingIsZero();
    var q := Symbols(n);
    var s := q[..2] + "==";
    assert SymbolValue(s[2]) == SymbolValue(q[2]) && SymbolValue(s[3]) == SymbolValue(q[3]);
    assert Unpack(s) == [a, 0, 0];
    assert Decode(s) == Some([a, 0, 0][..1]);
    assert [a, 0, 0][..1] == [a];
    assert Raw([a]) == q[..2] && Encode([a]) == s;
  }

  lemma WholeGroup(a: Byte, b: Byte, c: Byte, rest: string)
    ensures Decode(Symbols(Join(a, b, c)) + rest) ==
      match Decode(rest) { case None => None case Some(r) => Some([a, b, c] + r) }
  {
    SplitJoin(a, b, c);
    SymbolsUnpack(Join(a, b, c));
    DecodeStep(Symbols(Join(a, b, c)), rest);
  }

  /** The text is a whole number of groups of four, one for each three bytes or part of them. */
  lemma {:induction false} EncodedLength(d: seq<Byte>)
    ensures |Encode(d)| == (|d| + 2) / 3 * 4
  {
    if |d| >= 3 {
      EncodedLength(d[3..]);
      RawStep(d);
    }
  }

  predicate Ascii(s: string) { forall k :: 0 <= k < |s| ==> s[k] as int < 128 }

  lemma {:induction false} RawAscii(d: seq<Byte>)
    ensures Ascii(Raw(d))
  {
    if |d| == 1 {
      SymbolsAscii(Join(d[0], 0, 0));
    } else if |d| == 2 {
      SymbolsAscii(Join(d[0], d[1], 0));
    } else if |d| >= 3 {
      SymbolsAscii(Join(d[0], d[1], d[2]));
      RawAscii(d[3..]);
    }
  }

  lemma EncodeAscii(d: seq<Byte>)
    ensures Ascii(Encode(d))
  {
    RawAscii(d);
  }

  lemma SymbolsAscii(n: bv32)
    ensures Ascii(Symbols(n))
  {
    SymbolPosition(Sextet(n, 0));
    SymbolPosition(Sextet(n, 1));
    SymbolPosition(Sextet(n, 2));
    SymbolPosition(Sextet(n, 3));
  }

  /** Decoding undoes encoding for every byte string. */
  lemma {:induction false} DecodeEncode(d: seq<Byte>)
    ensures Decode(Encode(d)) == Some(d)
  {
    if |d| == 0 {
      assert Encode(d) == "";
    } else if |d| == 1 {
      assert d == [d[0]];
      OneByteTail(d[0]);
    } else if |d| == 2 {
      assert d == [d[0], d[1]];
      TwoByteTail(d[0], d[1]);
    } else {
      DecodeEncode(d[3..]);
      DecodeLonger(d);
    }
  }

  // One group q in front of a text that decodes.
  lemma DecodeJoined(d: seq<Byte>, q: string, text: string)
    requires |d| >= 3 && Decode(text) == Some(d[3..])
    requires Decode(q + text) == match Decode(text) { case None => None case Some(r) => Some([d[0], d[1], d[2]] + r) }
    ensures Decode(q + text) == Some(d)
  {
    assert d == [d[0], d[1], d[2]] + d[3..];
  }

  lemma DecodeLonger(d: seq<Byte>)
    requires |d| >= 3 && Decode(Encode(d[3..])) == Some(d[3..])
    ensures Decode(Encode(d)) == Some(d)
  {
    RawStep(d);
    WholeGroup(d[0], d[1], d[2], Encode(d[3..]));
    DecodeJoined(d, Symbols(Join(d[0], d[1], d[2])), Encode(d[3..]));
  }

  // What is still to be written at position i.
  function Rest(data: seq<Byte>, i: nat): string { if i <= |data| then Raw(data[i..]) else "" }

  // What the group at position i is written as.
  function Written(data: seq<Byte>, i: nat): string
    requires i < |data|
  {
    if |data| - i >= 3 then Symbols(Join(data[i], data[i + 1], data[i + 2]))
    else if |data| - i == 2 then Symbols(Join(data[i], data[i + 1], 0))[..3]
    else Symbols(Join(data[i], 0, 0))[..2]
  }

  lemma RestStep(data: seq<Byte>, i: nat)
    requires i < |data|
    ensures Rest(data, i) == Written(data, i) + Rest(data, i + 3)
  {
    if |data| - i >= 3 {
      assert data[i..][3..] == data[i + 3..];
    }
  }

  lemma GroupKeeps(s: string, data: seq<Byte>, i: nat, r: string)
    requires i < |data| && r == s + Written(data, i)
    ensures r + Rest(data, i + 3) == s + Rest(data, i)
  {
    RestStep(data, i);
    Associate(s, Written(data, i), Rest(data, i + 3));
  }

  lemma Associate(a: string, b: string, c: string)
    ensures (a + b) + c == a + (b + c)
  {
  }

  // One more symbol of the group q.
  method WriteSymbol(s: string, ghost before: string, ghost q: string, ghost i: nat, c: char) returns (r: string)
    requires i < |q| && q[i] == c && s == before + q[..i]
    ensures r == before + q[..i + 1]
  {
    r := s + [c];
    assert q[..i + 1] == q[..i] + [c];
  }

  // The first k symbols of a group, written one at a time.
  method WriteSymbols(s: string, n: bv32, k: nat) returns (r: string)
    requires 2 <= k <= 4
    ensures r == s + if k == 4 then Symbols(n) else Symbols(n)[..k]
  {
    ghost var q := Symbols(n);
    r := WriteSymbol(s, s, q, 0, Symbol(Sextet(n, 0)));
    r := WriteSymbol(r, s, q, 1, Symbol(Sextet(n, 1)));
    if k >= 3 {
      r := WriteSymbol(r, s, q, 2, Symbol(Sextet(n, 2)));
    }
    if k == 4 {
      r := WriteSymbol(r, s, q, 3, Symbol(Sextet(n, 3)));
    }
  }

  // The body of the loop: a whole group, or the last one or two bytes.
  method WriteGroup(s: string, data: seq<Byte>, i: nat) returns (r: string)
    requires i < |data|
    ensures r == s + Written(data, i)
  {
    var remaining := |data| - i;
    if remaining >= 3 {
      r := WriteSymbols(s, Join(data[i], data[i + 1], data[i + 2]), 4);
    } else if remaining == 2 {
      r := WriteSymbols(s, Join(data[i], data[i + 1], 0), 3);
    } else {
      r := WriteSymbols(s, Join(data[i], 0, 0), 2);
    }
  }

  /** The loops of the source: whole and partial groups, then padding until the length is a multiple of four. */
  method EncodeBytes(data: seq<Byte>) returns (s: string)
    ensures s == Encode(data)
  {
    s := "";
    var i := 0;
    while i < |data|
      invariant 0 <= i && s + Rest(data, i) == Raw(data)
    {
      ghost var before := s;
      s := WriteGroup(s, data, i);
      GroupKeeps(before, data, i, s);
      i := i + 3;
    }
    assert Rest(data, i) == "";
    s := Pad(s);
  }

  method Pad(raw: string) returns (s: string)
    ensures s == raw + Padding(|raw|)
  {
    s := raw;
    while |s| % 4 != 0
      invariant |s| <= |raw| + 3 && s + Padding(|s|) == raw + Padding(|raw|)
      decreases |raw| + 3 - |s|
    {
      s := s + "=";
    }
  }

  // The sextets of 'M', 'a', 'n' are 19, 22, 5 and 46.
  lemma ManSextets()
    ensures Sextet(Join(77, 97, 110), 0) == 19 && Sextet(Join(77, 97, 110), 1) == 22
    ensures Sextet(Join(77, 97, 110), 2) == 5 && Sextet(Join(77, 97, 110), 3) == 46
    ensures Sextet(Join(77, 97, 0), 0) == 19 && Sextet(Join(77, 97, 0), 1) == 22 && Sextet(Join(77, 97, 0), 2) == 4
    ensures Sextet(Join(77, 0, 0), 0) == 19 && Sextet(Join(77, 0, 0), 1) == 16
  {
  }

  lemma ManSymbols()
    ensures Symbol(19) == '3' && Symbol(22) == 'I' && Symbol(5) == 'h' && Symbol(46) == 'K' && Symbol(4) == 'g'
    ensures Symbol(16) == 'f'
  {
    assert ALPHABET[0] == "Dkdpgh2Z" && ALPHABET[2] == "fvV36XI1" && ALPHABET[5] == "YTOPuzKF";
  }

  /** Known answers: "Man", which other alphabets write TWFu, and its first two bytes and first byte with padding. */
  lemma KnownAnswers(m: seq<Byte>)
    requires m == [77, 97, 110]
    ensures Encode(m) == "3IhK" && Encode(m[..2]) == "3Ig=" && Encode(m[..1]) == "3f=="
  {
    ManSextets();
    ManSymbols();
    RawStep(m);
    assert m[3..] == [] && Encode([]) == "";
    TwoByteTail(77, 97);
    OneByteTail(77);
    assert m[..2] == [77, 97] && m[..1] == [77];
  }
}
