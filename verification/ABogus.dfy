/** The a_bogus signature: the bytes it carries, the layers around them, and the reader that recovers them. */
module ABogus {
  import opened Wrappers
  import Rc4
  import Sm3
  import Base64 = CustomBase64
  import Uri = UriComponent

  type Byte = bv8
  type Millis = bv64

  // ---------- Random prefix ----------

  // Four bytes that carry a 16-bit value: its even and odd bits under two masks, with constant bits in the gaps.
  function RandomList(r: bv16, b: Byte, c: Byte, d: Byte, e: Byte, f: Byte, g: Byte): seq<Byte> {
    var v1, v2 := (r & 255) as bv8, ((r >> 8) & 255) as bv8;
    [(v1 & b) | d, (v1 & c) | e, (v2 & b) | f, (v2 & c) | g]
  }

  // The even bits of the second byte and the odd bits of the first.
  function Weave(odd: Byte, even: Byte): Byte { (odd & 170) | (even & 85) }

  function ReadRandom(q: seq<Byte>): bv16
    requires |q| == 4
  {
    (Weave(q[0], q[1]) as bv16) | ((Weave(q[2], q[3]) as bv16) << 8)
  }

  lemma WeaveByte(v: Byte, d: Byte, e: Byte)
    requires (d & 170) == 0 && (e & 85) == 0
    ensures Weave((v & 170) | d, (v & 85) | e) == v
  {
  }

  lemma JoinHalves(r: bv16)
    ensures (((r & 255) as bv8) as bv16) | ((((r >> 8) & 255) as bv8) as bv16 << 8) == r
  {
  }

  /** A group gives its value back whenever the constants lie in the gaps of the masks. */
  lemma RandomRoundTrip(r: bv16, d: Byte, e: Byte, f: Byte, g: Byte)
    requires (d & 170) == 0 && (e & 85) == 0 && (f & 170) == 0 && (g & 85) == 0
    ensures ReadRandom(RandomList(r, 170, 85, d, e, f, g)) == r
  {
    WeaveByte((r & 255) as bv8, d, e);
    WeaveByte(((r >> 8) & 255) as bv8, f, g);
    JoinHalves(r);
  }

  function Prefix(r1: bv16, r2: bv16, r3: bv16): seq<Byte> {
    RandomList(r1, 170, 85, 1, 2, 5, 45 & 170) + RandomList(r2, 170, 85, 1, 0, 0, 0) + RandomList(r3, 170, 85, 1, 0, 5, 0)
  }

  lemma GroupGaps(r: bv16, d: Byte, e: Byte, f: Byte, g: Byte)
    requires (d & 170) == 0 && (e & 85) == 0 && (f & 170) == 0 && (g & 85) == 0
    ensures var q := RandomList(r, 170, 85, d, e, f, g);
      q[0] & 85 == d && q[1] & 170 == e && q[2] & 85 == f && q[3] & 170 == g
  {
  }

  /** The bits of the prefix that carry no random value: bits of 1 and 5 in the even places of the bytes at even places,
      and of 2 and 40 in the odd places of the others. */
  lemma PrefixGaps(r1: bv16, r2: bv16, r3: bv16)
    ensures var p := Prefix(r1, r2, r3);
      && p[0] & 85 == 1 && p[1] & 170 == 2 && p[2] & 85 == 5 && p[3] & 170 == 40
      && p[4] & 85 == 1 && p[5] & 170 == 0 && p[6] & 85 == 0 && p[7] & 170 == 0
      && p[8] & 85 == 1 && p[9] & 170 == 0 && p[10] & 85 == 5 && p[11] & 170 == 0
  {
    GroupGaps(r1, 1, 2, 5, 45 & 170);
    GroupGaps(r2, 1, 0, 0, 0);
    GroupGaps(r3, 1, 0, 5, 0);
  }

  // ---------- Header ----------

  // A start or end of zero stands for now; the end then lies a few milliseconds later.
  function StartOf(start: Millis, now: Millis): Millis { if start == 0 then now else start }

  function EndOf(end: Millis, now: Millis, jitter: Millis): Millis { if end == 0 then now + jitter else end }

  /** Only a time of zero is replaced. */
  lemma ZeroMeansNow(t: Millis, now: Millis, jitter: Millis)
    ensures StartOf(t, now) == if t != 0 then t else now
    ensures EndOf(t, now, jitter) == if t != 0 then t else now + jitter
  {
  }

  function TimeByte(t: Millis, k: nat): Byte
    requires k <= 4
  {
    match k
    case 0 => (t & 255) as bv8
    case 1 => ((t >> 8) & 255) as bv8
    case 2 => ((t >> 16) & 255) as bv8
    case 3 => ((t >> 24) & 255) as bv8
    case 4 => ((t >> 32) & 255) as bv8
  }

  // The header in four stretches. params and verb are digests; 40 and 49 are the bytes 23 and 24 of the user-agent
  // constant.
  function Header1(params: seq<Byte>, verb: seq<Byte>, end: Millis): seq<Byte>
    requires |params| == 32 && |verb| == 32
  {
    [44, TimeByte(end, 3), 0, 0, 0, 0, 24, params[21], verb[21], 0]
  }

  function Header2(params: seq<Byte>, end: Millis): seq<Byte>
    requires |params| == 32
  {
    [40, TimeByte(end, 2), params[22], 49, TimeByte(end, 1), TimeByte(end, 0)]
  }

  function Header3(start: Millis): seq<Byte> {
    [0, 0, 0, 0, TimeByte(start, 3), TimeByte(start, 2), 0, 0, 14, TimeByte(start, 1), TimeByte(start, 0), 0]
  }

  function Header4(verb: seq<Byte>, start: Millis, end: Millis, browserLen: nat): seq<Byte>
    requires |verb| == 32
  {
    [verb[22], TimeByte(end, 4), TimeByte(start, 4), 3, (browserLen % 256) as bv8, 1, 1, 0, 0, 0]
  }

  function Header(params: seq<Byte>, verb: seq<Byte>, start: Millis, end: Millis, browserLen: nat): (h: seq<Byte>)
    requires |params| == 32 && |verb| == 32
    ensures |h| == 38
  {
    Header1(params, verb, end) + Header2(params, end) + Header3(start) + Header4(verb, start, end, browserLen)
  }

  function JoinTime(b4: Byte, b3: Byte, b2: Byte, b1: Byte, b0: Byte): Millis {
    (b4 as bv64 << 32) | (b3 as bv64 << 24) | (b2 as bv64 << 16) | (b1 as bv64 << 8) | b0 as bv64
  }

  function ReadEnd(h: seq<Byte>): Millis
    requires |h| == 38
  {
    JoinTime(h[29], h[1], h[11], h[14], h[15])
  }

  function ReadStart(h: seq<Byte>): Millis
    requires |h| == 38
  {
    JoinTime(h[30], h[20], h[21], h[25], h[26])
  }

  lemma TimeRoundTrip(t: Millis)
    ensures JoinTime(TimeByte(t, 4), TimeByte(t, 3), TimeByte(t, 2), TimeByte(t, 1), TimeByte(t, 0)) == t & 0xFF_FFFF_FFFF
  {
  }

  /** The header gives back both times modulo 2^40, two bytes of each digest, and the browser length modulo 256. */
  lemma HeaderReads(params: seq<Byte>, verb: seq<Byte>, start: Millis, end: Millis, browserLen: nat)
    requires |params| == 32 && |verb| == 32
    ensures var h := Header(params, verb, start, end, browserLen);
      && ReadEnd(h) == end & 0xFF_FFFF_FFFF && ReadStart(h) == start & 0xFF_FFFF_FFFF
      && h[7] == params[21] && h[12] == params[22] && h[8] == verb[21] && h[28] == verb[22]
      && h[32] == (browserLen % 256) as bv8
  {
    TimeRoundTrip(start);
    TimeRoundTrip(end);
  }

  /** The bytes of the header that are the same in every signature. */
  lemma HeaderConstants(params: seq<Byte>, verb: seq<Byte>, start: Millis, end: Millis, browserLen: nat)
    requires |params| == 32 && |verb| == 32
    ensures var h := Header(params, verb, start, end, browserLen);
      && h[0] == 44 && h[6] == 24 && h[10] == 40 && h[13] == 49 && h[24] == 14 && h[31] == 3 && h[33] == 1 && h[34] == 1
      && h[2] == 0 && h[3] == 0 && h[4] == 0 && h[5] == 0 && h[9] == 0 && h[16] == 0 && h[17] == 0 && h[18] == 0
      && h[19] == 0 && h[22] == 0 && h[23] == 0 && h[27] == 0 && h[35] == 0 && h[36] == 0 && h[37] == 0
  {
  }

  // ---------- Check byte ----------

  function Check(arr: seq<Byte>): Byte {
    if arr == [] then 0 else Check(arr[..|arr| - 1]) ^ arr[|arr| - 1]
  }

  method EndCheckNum(arr: seq<Byte>) returns (r: Byte)
    ensures r == Check(arr)
  {
    r := 0;
    for i := 0 to |arr|
      invariant r == Check(arr[..i])
    {
      assert arr[..i + 1][..i] == arr[..i];
      r := r ^ arr[i];
    }
    assert arr[..|arr|] == arr;
  }

  /** The check byte of nothing is zero, that of one byte is the byte, and that of two stretches is the XOR of theirs. */
  lemma {:induction false} CheckLaws(a: seq<Byte>, b: seq<Byte>, x: Byte)
    ensures Check([]) == 0 && Check([x]) == x && Check(a + b) == Check(a) ^ Check(b)
    decreases |b|
  {
    assert [x][..0] == [];
    if b == [] {
      assert a + b == a;
    } else {
      CheckLaws(a, b[..|b| - 1], x);
      assert (a + b)[..|a + b| - 1] == a + b[..|b| - 1];
      Associate(Check(a), Check(b[..|b| - 1]), b[|b| - 1]);
    }
  }

  lemma Associate(x: Byte, y: Byte, z: Byte)
    ensures (x ^ y) ^ z == x ^ (y ^ z)
  {
  }

  // ---------- The layers ----------

  const KEY: seq<Byte> := [121]

  function Payload(header: seq<Byte>, browser: seq<Byte>): seq<Byte> {
    Rc4.Encrypt(KEY, header + browser + [Check(header)])
  }

  function Value(prefix: seq<Byte>, header: seq<Byte>, browser: seq<Byte>): string {
    Base64.Encode(prefix + Payload(header, browser))
  }

  lemma ValueIsText(prefix: seq<Byte>, header: seq<Byte>, browser: seq<Byte>)
    ensures Uri.IsByteString(Value(prefix, header, browser))
  {
    Base64.EncodeAscii(prefix + Payload(header, browser));
  }

  // The text that goes into the URL.
  function Signature(prefix: seq<Byte>, header: seq<Byte>, browser: seq<Byte>): string {
    ValueIsText(prefix, header, browser);
    Uri.Encode(Value(prefix, header, browser))
  }

  datatype Contents = Contents(prefix: seq<Byte>, header: seq<Byte>, browser: seq<Byte>, check: Byte)

  // Percent-decoding and base64.
  function Unescape(text: string): Option<seq<Byte>> {
    match Uri.Decode(text)
    case None => None
    case Some(value) => Base64.Decode(value)
  }

  // The prefix cut off, RC4, then the header, the browser string and the check byte.
  function Open(data: seq<Byte>): Option<Contents> {
    if |data| < 12 + 38 + 1 then None
    else
      var plain := Rc4.Encrypt(KEY, data[12..]);
      Some(Contents(data[..12], plain[..38], plain[38..|plain| - 1], plain[|plain| - 1]))
  }

  function Read(text: string): Option<Contents> {
    match Unescape(text)
    case None => None
    case Some(data) => Open(data)
  }

  lemma ReadPayload(header: seq<Byte>, browser: seq<Byte>)
    requires |header| == 38
    ensures var plain := Rc4.Encrypt(KEY, Payload(header, browser));
      |plain| >= 39 && plain[..38] == header && plain[38..|plain| - 1] == browser && plain[|plain| - 1] == Check(header)
  {
    var body := header + browser + [Check(header)];
    Rc4.EncryptLaws(KEY, body, 0);
    assert body[..38] == header && body[38..|body| - 1] == browser;
  }

  lemma OpenData(prefix: seq<Byte>, header: seq<Byte>, browser: seq<Byte>)
    requires |prefix| == 12 && |header| == 38
    ensures Open(prefix + Payload(header, browser)) == Some(Contents(prefix, header, browser, Check(header)))
  {
    var payload := Payload(header, browser);
    ReadPayload(header, browser);
    assert (prefix + payload)[..12] == prefix && (prefix + payload)[12..] == payload;
  }

  lemma SignatureBytes(prefix: seq<Byte>, header: seq<Byte>, browser: seq<Byte>)
    ensures Unescape(Signature(prefix, header, browser)) == Some(prefix + Payload(header, browser))
  {
    ValueIsText(prefix, header, browser);
    Uri.DecodeEncode(Value(prefix, header, browser));
    Base64.DecodeEncode(prefix + Payload(header, browser));
  }

  /** The signature is invertible: reading the escaped text recovers the prefix, the header, the browser string and
      the check byte, whatever they are. */
  lemma ReadSignature(prefix: seq<Byte>, header: seq<Byte>, browser: seq<Byte>)
    requires |prefix| == 12 && |header| == 38
    ensures Read(Signature(prefix, header, browser)) == Some(Contents(prefix, header, browser, Check(header)))
  {
    SignatureBytes(prefix, header, browser);
    OpenData(prefix, header, browser);
  }

  // The first 12 bytes hold these three values.
  predicate CarriesRandoms(prefix: seq<Byte>, r1: bv16, r2: bv16, r3: bv16) {
    |prefix| == 12 && ReadRandom(prefix[..4]) == r1 && ReadRandom(prefix[4..8]) == r2 && ReadRandom(prefix[8..]) == r3
  }

  lemma PrefixCarriesRandoms(r1: bv16, r2: bv16, r3: bv16)
    ensures CarriesRandoms(Prefix(r1, r2, r3), r1, r2, r3)
  {
    RandomRoundTrip(r1, 1, 2, 5, 45 & 170);
    RandomRoundTrip(r2, 1, 0, 0, 0);
    RandomRoundTrip(r3, 1, 0, 5, 0);
    var prefix := Prefix(r1, r2, r3);
    assert prefix[..4] == RandomList(r1, 170, 85, 1, 2, 5, 45 & 170);
    assert prefix[4..8] == RandomList(r2, 170, 85, 1, 0, 0, 0);
    assert prefix[8..] == RandomList(r3, 170, 85, 1, 0, 5, 0);
  }

  // The header holds both times modulo 2^40.
  predicate CarriesTimes(header: seq<Byte>, start: Millis, end: Millis) {
    |header| == 38 && ReadStart(header) == start & 0xFF_FFFF_FFFF && ReadEnd(header) == end & 0xFF_FFFF_FFFF
  }

  /** From the text alone: the three random values, both times modulo 2^40, the browser string, and a check byte that
      is the XOR of the header. */
  lemma SignatureTellsItsInputs(
      r1: bv16, r2: bv16, r3: bv16, params: seq<Byte>, verb: seq<Byte>, start: Millis, end: Millis, browser: seq<Byte>)
    requires |params| == 32 && |verb| == 32
    ensures var read := Read(Signature(Prefix(r1, r2, r3), Header(params, verb, start, end, |browser|), browser));
      read.Some? && CarriesRandoms(read.value.prefix, r1, r2, r3) && CarriesTimes(read.value.header, start, end)
      && read.value.browser == browser && read.value.check == Check(read.value.header)
  {
    ReadSignature(Prefix(r1, r2, r3), Header(params, verb, start, end, |browser|), browser);
    HeaderReads(params, verb, start, end, |browser|);
    PrefixCarriesRandoms(r1, r2, r3);
  }

  // ---------- The program ----------

  // SM3 of the text followed by "cus".
  function Fingerprint(text: seq<Byte>): (d: seq<Byte>)
    ensures |d| == 32
  {
    Sm3.Digest(text + [99, 117, 115])
  }

  method RandomGroup(r: bv16, b: Byte, c: Byte, d: Byte, e: Byte, f: Byte, g: Byte) returns (q: seq<Byte>)
    ensures q == RandomList(r, b, c, d, e, f, g)
  {
    var v1: Byte, v2: Byte := (r & 255) as bv8, ((r >> 8) & 255) as bv8;
    q := [(v1 & b) | d, (v1 & c) | e, (v2 & b) | f, (v2 & c) | g];
  }

  method GenerateString1(r1: bv16, r2: bv16, r3: bv16) returns (out: seq<Byte>)
    ensures out == Prefix(r1, r2, r3)
  {
    out := [];
    var q := RandomGroup(r1, 170, 85, 1, 2, 5, 45 & 170);
    out := out + q;
    q := RandomGroup(r2, 170, 85, 1, 0, 0, 0);
    out := out + q;
    q := RandomGroup(r3, 170, 85, 1, 0, 5, 0);
    out := out + q;
  }

  // The appends of the source in four stretches, on the two digests and the two times.
  method WriteHeader(paramsArr: seq<Byte>, verbArr: seq<Byte>, start: Millis, end: Millis, browserLen: nat)
      returns (out: seq<Byte>)
    requires |paramsArr| == 32 && |verbArr| == 32
    ensures out == Header(paramsArr, verbArr, start, end, browserLen)
  {
    out := WriteFirst(paramsArr, verbArr, end);
    out := WriteSecond(out, paramsArr, end);
    out := WriteThird(out, start);
    out := WriteFourth(out, verbArr, start, end, browserLen);
  }

  method WriteFirst(paramsArr: seq<Byte>, verbArr: seq<Byte>, end: Millis) returns (out: seq<Byte>)
    requires |paramsArr| == 32 && |verbArr| == 32
    ensures out == Header1(paramsArr, verbArr, end)
  {
    out := [44];
    out := out + [TimeByte(end, 3), 0, 0, 0, 0, 24];
    out := out + [paramsArr[21], verbArr[21], 0];
  }

  method WriteSecond(before: seq<Byte>, paramsArr: seq<Byte>, end: Millis) returns (out: seq<Byte>)
    requires |paramsArr| == 32
    ensures out == before + Header2(paramsArr, end)
  {
    out := before + [40, TimeByte(end, 2), paramsArr[22]];
    out := out + [49, TimeByte(end, 1), TimeByte(end, 0)];
  }

  method WriteThird(before: seq<Byte>, start: Millis) returns (out: seq<Byte>)
    ensures out == before + Header3(start)
  {
    out := before + [0, 0, 0, 0];
    out := out + [TimeByte(start, 3), TimeByte(start, 2)];
    out := out + [0, 0, 14];
    out := out + [TimeByte(start, 1), TimeByte(start, 0)];
    out := out + [0];
  }

  method WriteFourth(before: seq<Byte>, verbArr: seq<Byte>, start: Millis, end: Millis, browserLen: nat)
      returns (out: seq<Byte>)
    requires |verbArr| == 32
    ensures out == before + Header4(verbArr, start, end, browserLen)
  {
    var e4, s4, len := TimeByte(end, 4), TimeByte(start, 4), (browserLen % 256) as bv8;
    out := AppendTail(before, verbArr[22], e4, s4, len);
  }

  method AppendTail(before: seq<Byte>, v22: Byte, e4: Byte, s4: Byte, len: Byte) returns (out: seq<Byte>)
    ensures out == before + [v22, e4, s4, 3, len, 1, 1, 0, 0, 0]
  {
    out := before + [v22];
    out := out + [e4, s4];
    out := out + [3];
    out := out + [len];
    assert out == before + [v22, e4, s4, 3, len];
    out := out + [1, 1, 0, 0, 0];
  }

  method List4Arr(params: seq<Byte>, verb: seq<Byte>, startTime: Millis, endTime: Millis, now: Millis, jitter: Millis,
      browserLen: nat) returns (out: seq<Byte>)
    ensures out == Header(Fingerprint(params), Fingerprint(verb), StartOf(startTime, now), EndOf(endTime, now, jitter),
                          browserLen)
  {
    var start, end := startTime, endTime;
    if start == 0 {
      start := now;
    }
    if end == 0 {
      end := now + jitter;
    }
    var paramsArr := Sm3.Sum(params + [99, 117, 115]);
    var verbArr := Sm3.Sum(verb + [99, 117, 115]);
    out := WriteHeader(paramsArr, verbArr, start, end, browserLen);
  }

  method GenerateString2(params: seq<Byte>, verb: seq<Byte>, now: Millis, jitter: Millis, browser: seq<Byte>)
      returns (out: seq<Byte>)
    ensures out == Payload(Header(Fingerprint(params), Fingerprint(verb), now, now + jitter, |browser|), browser)
  {
    var arr := List4Arr(params, verb, 0, 0, now, jitter, |browser|);
    var check := EndCheckNum(arr);
    arr := arr + browser;
    arr := arr + [check];
    var bytes := Rc4.EncryptBytes(KEY, arr);
    out := bytes[..];
  }

  /** The signing program writes the signature of its random values, its clock and its two fingerprints. */
  method Sign(params: seq<Byte>, verb: seq<Byte>, r1: bv16, r2: bv16, r3: bv16, now: Millis, jitter: Millis,
      browser: seq<Byte>) returns (text: string)
    ensures var h := Header(Sm3.Digest(params + [99, 117, 115]), Sm3.Digest(verb + [99, 117, 115]), now, now + jitter,
                            |browser|);
      text == Signature(Prefix(r1, r2, r3), h, browser)
      && var data := Prefix(r1, r2, r3) + Rc4.Encrypt([121], h + browser + [Check(h)]);
      Uri.IsByteString(Base64.Encode(data)) && text == Uri.Encode(Base64.Encode(data))
  {
    var string1 := GenerateString1(r1, r2, r3);
    var string2 := GenerateString2(params, verb, now, jitter, browser);
    var value := Base64.EncodeBytes(string1 + string2);
    ghost var header := Header(Fingerprint(params), Fingerprint(verb), now, now + jitter, |browser|);
    ValueIsText(string1, header, browser);
    text := Uri.EncodeComponent(value);
  }
}
