/** A number below 256 as a byte and back. */
module Octets {
  lemma BackToNumber(x: int)
    requires 0 <= x < 256
    ensures (x as bv8) as int == x
  {
  }
}

/** RC4: key scheduling and the output generator, in place on a 256-byte state. */
module Rc4 {
  import opened Octets

  type Byte = bv8

  // A table entry, as a number.
  type Octet = x: int | 0 <= x < 256

  // The generator: the state table and its two indices.
  datatype Gen = Gen(s: seq<Octet>, i: Octet, j: Octet)

  function Identity(): seq<Octet> { seq(256, i requires 0 <= i < 256 => i) }

  // The table holds each of the 256 byte values exactly once.
  predicate Shuffled(s: seq<Octet>) { |s| == 256 && multiset(s) == multiset(Identity()) }

  function Swap(s: seq<Octet>, i: nat, j: nat): seq<Octet>
    requires i < |s| && j < |s|
  {
    s[i := s[j]][j := s[i]]
  }

  lemma SwapShuffles(s: seq<Octet>, i: nat, j: nat)
    requires Shuffled(s) && i < 256 && j < 256
    ensures Shuffled(Swap(s, i, j))
  {
    assert multiset(Swap(s, i, j)) == multiset(s);
  }

  // ---------- Key scheduling ----------

  datatype Scheduled = Scheduled(s: seq<Octet>, j: Octet)

  // The table and the index after n rounds.
  function Schedule(key: seq<Byte>, n: nat): (r: Scheduled)
    requires |key| > 0 && n <= 256
    ensures |r.s| == 256
  {
    if n == 0 then Scheduled(Identity(), 0)
    else
      var p := Schedule(key, n - 1);
      var j := (p.j + p.s[n - 1] + key[(n - 1) % |key|] as int) % 256;
      Scheduled(Swap(p.s, n - 1, j), j)
  }

  /** Every round of key scheduling leaves a permutation of 0..255. */
  lemma {:induction false} ScheduleShuffles(key: seq<Byte>, n: nat)
    requires |key| > 0 && n <= 256
    ensures Shuffled(Schedule(key, n).s)
  {
    if 0 < n {
      ScheduleShuffles(key, n - 1);
      SwapShuffles(Schedule(key, n - 1).s, n - 1, Schedule(key, n).j);
    }
  }

  // A key that makes the index of round n be n, but for the last round, whose index is last.
  function PlainKeyByte(last: Octet, n: nat): Octet {
    if n == 0 then 0 else if n < 255 then (257 - n) % 256 else (last + 3) % 256
  }

  function PlainKey(last: Octet): (key: seq<Byte>)
    ensures |key| == 256
  {
    seq(256, n requires 0 <= n < 256 => ByteOf(PlainKeyByte(last, n)))
  }

  function ByteOf(x: Octet): Byte { x as bv8 }

  lemma ByteValue(x: Octet)
    ensures ByteOf(x) as int == x
  {
    BackToNumber(x);
  }

  lemma PlainKeyAt(last: Octet, n: nat)
    requires n < 256
    ensures PlainKey(last)[n] as int == PlainKeyByte(last, n)
  {
    ByteValue(PlainKeyByte(last, n));
    assert PlainKey(last)[n] == ByteOf(PlainKeyByte(last, n));
  }

  lemma PlainIndex(last: Octet, n: nat)
    requires 0 < n < 255
    ensures (n - 1 + n + PlainKeyByte(last, n)) % 256 == n
  {
  }

  lemma SwapSame(s: seq<Octet>, n: nat)
    requires n < |s|
    ensures Swap(s, n, n) == s
  {
  }

  lemma RoundIs(key: seq<Byte>, n: nat, s: seq<Octet>, j: Octet, x: Octet, j': Octet)
    requires |key| == 256 && n < 256 && |s| == 256 && Schedule(key, n) == Scheduled(s, j) && key[n] as int == x
    requires j' == (j + s[n] + x) % 256
    ensures Schedule(key, n + 1) == Scheduled(Swap(s, n, j'), j')
  {
    assert n % |key| == n;
  }

  lemma {:induction false} PlainRounds(last: Octet, n: nat)
    requires 0 < n < 256
    ensures Schedule(PlainKey(last), n) == Scheduled(Identity(), n - 1)
  {
    PlainKeyAt(last, n - 1);
    SwapSame(Identity(), n - 1);
    if n == 1 {
      RoundIs(PlainKey(last), 0, Identity(), 0, 0, 0);
    } else {
      PlainRounds(last, n - 1);
      PlainIndex(last, n - 1);
      RoundIs(PlainKey(last), n - 1, Identity(), n - 2, PlainKeyByte(last, n - 1), n - 1);
    }
  }

  /** With this key all rounds but the last leave the table alone, and the last one exchanges 255 and the given index. */
  lemma PlainSchedule(last: Octet)
    ensures Schedule(PlainKey(last), 256).s == Swap(Identity(), 255, last)
  {
    PlainKeyAt(last, 255);
    PlainRounds(last, 255);
    RoundIs(PlainKey(last), 255, Identity(), 254, PlainKeyByte(last, 255), last);
  }

  /** The first rounds for the key of three bytes 1, 2, 3: entries 0 and 1 change places, then 1 and 3, 2 and 8, and 3
      and 9, where the key begins again. */
  lemma ThreeByteKey(key: seq<Byte>)
    requires key == [1, 2, 3]
    ensures var s := Swap(Swap(Swap(Swap(Identity(), 0, 1), 1, 3), 2, 8), 3, 9);
      Schedule(key, 4) == Scheduled(s, 9)
  {
    assert Schedule(key, 1) == Scheduled(Swap(Identity(), 0, 1), 1);
    assert Schedule(key, 2) == Scheduled(Swap(Swap(Identity(), 0, 1), 1, 3), 3);
    assert Schedule(key, 3) == Scheduled(Swap(Swap(Swap(Identity(), 0, 1), 1, 3), 2, 8), 8);
  }

  // ---------- Output ----------

  predicate GenOk(g: Gen) { |g.s| == 256 }

  function Advance(g: Gen): (r: Gen)
    requires GenOk(g)
    ensures GenOk(r)
  {
    var i := (g.i + 1) % 256;
    var j := (g.j + g.s[i]) % 256;
    Gen(Swap(g.s, i, j), i, j)
  }

  function Output(g: Gen): Octet
    requires GenOk(g)
  {
    g.s[((g.s[g.i] as int) + g.s[g.j]) % 256]
  }

  function Start(key: seq<Byte>): (r: Gen)
    requires |key| > 0
    ensures GenOk(r)
  {
    Gen(Schedule(key, |Identity()|).s, 0, 0)
  }

  // The generator after k output bytes.
  function After(g: Gen, k: nat): (r: Gen)
    requires GenOk(g)
    ensures GenOk(r)
    decreases k
  {
    if k == 0 then g else After(Advance(g), k - 1)
  }

  lemma AdvanceShuffles(g: Gen)
    requires GenOk(g) && Shuffled(g.s)
    ensures Shuffled(Advance(g).s)
  {
    var r := Advance(g);
    SwapShuffles(g.s, r.i, r.j);
  }

  lemma {:induction false} AfterShuffles(g: Gen, k: nat)
    requires GenOk(g) && Shuffled(g.s)
    ensures Shuffled(After(g, k).s)
    decreases k
  {
    if 0 < k {
      AdvanceShuffles(g);
      AfterShuffles(Advance(g), k - 1);
    }
  }

  /** The table is a permutation of 0..255 after key scheduling and stays one through every output byte. */
  lemma TableIsAPermutation(key: seq<Byte>, k: nat)
    requires |key| > 0
    ensures Shuffled(After(Start(key), k).s)
  {
    ScheduleShuffles(key, |Identity()|);
    AfterShuffles(Start(key), k);
  }

  // The byte that the next step of the generator gives.
  function Mask(g: Gen): Byte
    requires GenOk(g)
  {
    ByteOf(Output(Advance(g)))
  }

  function Keystream(g: Gen, n: nat): (r: seq<Byte>)
    requires GenOk(g)
    ensures |r| == n
    decreases n
  {
    if n == 0 then [] else [Mask(g)] + Keystream(Advance(g), n - 1)
  }

  function Xor(data: seq<Byte>, stream: seq<Byte>): (c: seq<Byte>)
    requires |data| == |stream|
    ensures |c| == |data|
  {
    seq(|data|, i requires 0 <= i < |data| => data[i] ^ stream[i])
  }

  // Data enciphered by a generator.
  function Cipher(g: Gen, data: seq<Byte>): (c: seq<Byte>)
    requires GenOk(g)
    ensures |c| == |data|
  {
    Xor(data, Keystream(g, |data|))
  }

  function Encrypt(key: seq<Byte>, data: seq<Byte>): (c: seq<Byte>)
    requires |key| > 0
    ensures |c| == |data|
  {
    Cipher(Start(key), data)
  }

  lemma XorTwice(data: seq<Byte>, stream: seq<Byte>)
    requires |data| == |stream|
    ensures Xor(Xor(data, stream), stream) == data
  {
    forall i | 0 <= i < |data| ensures Xor(Xor(data, stream), stream)[i] == data[i] {
      Twice(data[i], stream[i]);
    }
  }

  lemma {:induction false} KeystreamPrefix(g: Gen, n: nat, m: nat)
    requires GenOk(g) && m <= n
    ensures Keystream(g, m) == Keystream(g, n)[..m]
    decreases m
  {
    if 0 < m {
      KeystreamPrefix(Advance(g), n - 1, m - 1);
    }
  }

  /** Encrypting twice with one key gives the data back, and the ciphertext of a prefix is the prefix. */
  lemma EncryptLaws(key: seq<Byte>, data: seq<Byte>, n: nat)
    requires |key| > 0 && n <= |data|
    ensures Encrypt(key, Encrypt(key, data)) == data
    ensures Encrypt(key, data[..n]) == Encrypt(key, data)[..n]
  {
    XorTwice(data, Keystream(Start(key), |data|));
    KeystreamPrefix(Start(key), |data|, n);
  }

  // ---------- Known answers ----------

  // One step of the generator from a table whose two entries are x and y; o is the output.
  predicate Gives(s: seq<Octet>, i: Octet, j: Octet, i': Octet, x: Octet, j': Octet, y: Octet, o: Octet) {
    |s| == 256 && i' == (i + 1) % 256 && s[i'] == x && j' == (j + x) % 256 && s[j'] == y
    && Swap(s, i', j')[(x + y) % 256] == o
  }

  lemma OneByte(s: seq<Octet>, i: Octet, j: Octet, i': Octet, x: Octet, j': Octet, y: Octet, o: Octet, s': seq<Octet>,
      n: nat)
    requires Gives(s, i, j, i', x, j', y, o) && s' == Swap(s, i', j')
    ensures Keystream(Gen(s, i, j), n + 1) == [ByteOf(o)] + Keystream(Gen(s', i', j'), n)
  {
    assert Advance(Gen(s, i, j)) == Gen(s', i', j');
    assert Output(Advance(Gen(s, i, j))) == o;
  }

  lemma EncryptsZeros(key: seq<Byte>, data: seq<Byte>)
    requires |key| > 0 && forall i :: 0 <= i < |data| ==> data[i] == 0
    ensures Encrypt(key, data) == Keystream(Start(key), |data|)
  {
  }

  lemma Byte1(s: seq<Octet>, n: nat)
    requires |s| == 256 && s[1] == 1 && s[2] == 2
    ensures Keystream(Gen(s, 0, 0), n + 1) == [ByteOf(2)] + Keystream(Gen(s, 1, 1), n)
  {
    SwapSame(s, 1);
    OneByte(s, 0, 0, 1, 1, 1, 1, 2, s, n);
  }

  lemma Byte2(s: seq<Octet>, s': seq<Octet>, n: nat)
    requires |s| == 256 && s[2] == 2 && s[3] == 3 && s[5] == 5 && s' == Swap(s, 2, 3)
    ensures Keystream(Gen(s, 1, 1), n + 1) == [ByteOf(5)] + Keystream(Gen(s', 2, 3), n)
  {
    OneByte(s, 1, 1, 2, 2, 3, 3, 5, s', n);
  }

  lemma SmallBytes()
    ensures ByteOf(0) == 0 && ByteOf(2) == 2 && ByteOf(3) == 3 && ByteOf(5) == 5
  {
  }

  /** The keystream of the untouched table begins 2, 5. */
  lemma PlainKeystream(s: seq<Octet>, n: nat)
    requires |s| == 256 && s[1] == 1 && s[2] == 2 && s[3] == 3 && s[5] == 5 && n == 2
    ensures Keystream(Gen(s, 0, 0), n) == [2, 5]
  {
    Byte1(s, n - 1);
    Byte2(s, Swap(s, 2, 3), n - 2);
    SmallBytes();
  }

  /** With 1 and 255 exchanged it begins 0, 3. */
  lemma ExchangedKeystream(s: seq<Octet>, n: nat)
    requires |s| == 256 && s[0] == 0 && s[1] == 255 && s[2] == 2 && s[3] == 3 && s[255] == 1 && n == 2
    ensures Keystream(Gen(s, 0, 0), n) == [0, 3]
  {
    var s' := Swap(s, 1, 255);
    OneByte(s, 0, 0, 1, 255, 255, 1, 0, s', n - 1);
    OneByte(s', 1, 255, 2, 2, 1, 1, 3, Swap(s', 2, 1), n - 2);
    SmallBytes();
  }

  lemma PlainStart(last: Octet, key: seq<Byte>, s: seq<Octet>)
    requires key == PlainKey(last) && s == Swap(Identity(), 255, last)
    ensures Start(key) == Gen(s, 0, 0)
  {
    PlainSchedule(last);
  }

  /** A key of 256 bytes that leaves the table alone makes 2, 5 of two zeros. */
  lemma FirstKnownAnswer(key: seq<Byte>, zeros: seq<Byte>)
    requires key == PlainKey(255) && zeros == [0, 0]
    ensures Encrypt(key, zeros) == [2, 5]
  {
    SwapSame(Identity(), 255);
    PlainStart(255, key, Identity());
    PlainKeystream(Identity(), |zeros|);
    EncryptsZeros(key, zeros);
  }

  /** A key of 256 bytes that exchanges 1 and 255 makes 0, 3 of two zeros. */
  lemma SecondKnownAnswer(key: seq<Byte>, zeros: seq<Byte>)
    requires key == PlainKey(1) && zeros == [0, 0]
    ensures Encrypt(key, zeros) == [0, 3]
  {
    var s := Swap(Identity(), 255, 1);
    PlainStart(1, key, s);
    ExchangedKeystream(s, |zeros|);
    EncryptsZeros(key, zeros);
  }

  lemma Twice(a: Byte, b: Byte)
    ensures (a ^ b) ^ b == a
  {
  }

  // Two entries change places.
  method SwapInPlace(s: array<Octet>, i: nat, j: nat)
    requires i < s.Length && j < s.Length
    modifies s
    ensures s[..] == Swap(old(s[..]), i, j)
  {
    s[i], s[j] := s[j], s[i];
  }

  // One round of key scheduling.
  method KeyRound(s: array<Octet>, key: seq<Byte>, i: nat, j: Octet) returns (j': Octet)
    requires |key| > 0 && i < 256 && Scheduled(s[..], j) == Schedule(key, i)
    modifies s
    ensures Scheduled(s[..], j') == Schedule(key, i + 1)
  {
    j' := (j + s[i] + key[i % |key|] as int) % 256;
    SwapInPlace(s, i, j');
  }

  // A key of length zero makes the source divide by zero, so a caller must pass a key.
  method KeySchedule(key: seq<Byte>) returns (s: array<Octet>)
    requires |key| > 0
    ensures fresh(s) && s[..] == Schedule(key, |Identity()|).s
  {
    s := new Octet[256](i requires 0 <= i < 256 => i);
    assert s[..] == Identity();
    var j: Octet := 0;
    for i := 0 to s.Length
      invariant Scheduled(s[..], j) == Schedule(key, i)
    {
      j := KeyRound(s, key, i, j);
    }
  }

  // One step of the generator: both indices move, their entries change places, and the output byte is read.
  method NextByte(s: array<Octet>, i: Octet, j: Octet, ghost g: Gen) returns (i': Octet, j': Octet, o: Byte)
    requires GenOk(g) && g == Gen(s[..], i, j)
    modifies s
    ensures Gen(s[..], i', j') == Advance(g) && o == Mask(g)
  {
    i' := (i + 1) % 256;
    j' := (j + s[i']) % 256;
    SwapInPlace(s, i', j');
    o := ByteOf(s[((s[i'] as int) + s[j']) % 256]);
  }

  // The generator g stands before byte k of the stream.
  predicate Ahead(g: Gen, stream: seq<Byte>, k: nat) {
    GenOk(g) && k <= |stream| && Keystream(g, |stream| - k) == stream[k..]
  }

  lemma StreamStep(g: Gen, stream: seq<Byte>, k: nat)
    requires Ahead(g, stream, k) && k < |stream|
    ensures stream[k] == Mask(g) && Ahead(Advance(g), stream, k + 1)
  {
    assert stream[k..][0] == stream[k] && stream[k..][1..] == stream[k + 1..];
  }

  // The first k bytes are written.
  predicate Written(out: seq<Byte>, data: seq<Byte>, stream: seq<Byte>, k: nat) {
    k <= |out| == |data| == |stream| && forall i :: 0 <= i < k ==> out[i] == data[i] ^ stream[i]
  }

  lemma AllWritten(out: seq<Byte>, data: seq<Byte>, stream: seq<Byte>)
    requires Written(out, data, stream, |out|)
    ensures out == Xor(data, stream)
  {
  }

  method Put(out: array<Byte>, k: nat, o: Byte, data: seq<Byte>, ghost stream: seq<Byte>)
    requires Written(out[..], data, stream, k) && k < |data| && o == stream[k]
    modifies out
    ensures Written(out[..], data, stream, k + 1)
  {
    out[k] := data[k] ^ o;
  }

  // One byte of the output, with the generator at g and k bytes written.
  method CipherByte(s: array<Octet>, out: array<Byte>, k: nat, i: Octet, j: Octet, data: seq<Byte>, ghost g: Gen,
      ghost stream: seq<Byte>) returns (i': Octet, j': Octet)
    requires g == Gen(s[..], i, j) && s as object != out as object
    requires Ahead(g, stream, k) && Written(out[..], data, stream, k) && k < |data|
    modifies s, out
    ensures Gen(s[..], i', j') == Advance(g) && Ahead(Advance(g), stream, k + 1)
    ensures Written(out[..], data, stream, k + 1)
  {
    var o;
    i', j', o := NextByte(s, i, j, g);
    StreamStep(g, stream, k);
    Put(out, k, o, data, stream);
  }

  method CipherInPlace(s: array<Octet>, ghost g0: Gen, data: seq<Byte>) returns (out: array<Byte>)
    requires GenOk(g0) && g0 == Gen(s[..], 0, 0)
    modifies s
    ensures out[..] == Cipher(g0, data)
  {
    var i: Octet, j: Octet := 0, 0;
    out := new Byte[|data|];
    ghost var g, stream := g0, Keystream(g0, |data|);
    for k := 0 to |data|
      invariant g == Gen(s[..], i, j) && Ahead(g, stream, k) && Written(out[..], data, stream, k)
    {
      i, j := CipherByte(s, out, k, i, j, data, g, stream);
      g := Advance(g);
    }
    AllWritten(out[..], data, stream);
  }

  /** The loops of the source compute exactly the cipher above. */
  method EncryptBytes(key: seq<Byte>, data: seq<Byte>) returns (out: array<Byte>)
    requires |key| > 0
    ensures out[..] == Encrypt(key, data)
  {
    var s := KeySchedule(key);
    out := CipherInPlace(s, Start(key), data);
  }
}
