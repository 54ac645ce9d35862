/** Percent-encoding of a byte string, as encodeURIComponent does it, and the decoder that undoes it. */
module UriComponent {
  import opened Wrappers

  // A Go string is a string of characters below 256, one for each byte.
  predicate IsByteString(s: string) { forall i :: 0 <= i < |s| ==> s[i] as int < 256 }

  predicate Unreserved(c: char) {
    'A' <= c <= 'Z' || 'a' <= c <= 'z' || '0' <= c <= '9' || c == '-' || c == '_' || c == '.' || c == '!' || c == '~'
    || c == '*' || c == '\'' || c == '(' || c == ')'
  }

  function HexDigit(v: int): char
    requires 0 <= v < 16
  {
    "0123456789ABCDEF"[v]
  }

  function HexValue(c: char): Option<int> {
    if '0' <= c <= '9' then Some(c as int - '0' as int)
    else if 'A' <= c <= 'F' then Some(c as int - 'A' as int + 10)
    else if 'a' <= c <= 'f' then Some(c as int - 'a' as int + 10)
    else None
  }

  function EncodeChar(c: char): string
    requires c as int < 256
  {
    if Unreserved(c) then [c] else ['%', HexDigit(c as int / 16), HexDigit(c as int % 16)]
  }

  function Encode(s: string): string
    requires IsByteString(s)
  {
    if s == "" then "" else EncodeChar(s[0]) + Encode(s[1..])
  }

  // The decoder of a query string: an escape is a percent sign and two digits, and a plus sign stands for a space.
  function Decode(s: string): Option<string> {
    if s == "" then Some("")
    else if s[0] == '%' then
      if |s| < 3 || HexValue(s[1]).None? || HexValue(s[2]).None? then None
      else
        match Decode(s[3..])
        case None => None
        case Some(rest) => Some([(HexValue(s[1]).value * 16 + HexValue(s[2]).value) as char] + rest)
    else
      match Decode(s[1..])
      case None => None
      case Some(rest) => Some([if s[0] == '+' then ' ' else s[0]] + rest)
  }

  lemma HexRoundTrip(v: int)
    requires 0 <= v < 16
    ensures HexValue(HexDigit(v)) == Some(v) && (Unreserved(HexDigit(v)))
  {
    assert "0123456789ABCDEF"[..10] == "0123456789";
  }

  lemma DecodeChar(c: char, rest: string)
    requires c as int < 256
    ensures Decode(EncodeChar(c) + rest) == match Decode(rest) { case None => None case Some(r) => Some([c] + r) }
  {
    var e := EncodeChar(c);
    HexRoundTrip(c as int / 16);
    HexRoundTrip(c as int % 16);
    assert (e + rest)[|e|..] == rest;
  }

  /** Decoding undoes encoding for every byte string. */
  lemma {:induction false} DecodeEncode(s: string)
    requires IsByteString(s)
    ensures Decode(Encode(s)) == Some(s)
  {
    if s != "" {
      DecodeEncode(s[1..]);
      DecodeChar(s[0], Encode(s[1..]));
      assert s == [s[0]] + s[1..];
    }
  }

  /** The encoded text is safe in a query: it holds unreserved characters and percent signs only. */
  lemma {:induction false} EncodedAlphabet(s: string, i: nat)
    requires IsByteString(s) && i < |Encode(s)|
    ensures Encode(s)[i] == '%' || Unreserved(Encode(s)[i])
  {
    var e := EncodeChar(s[0]);
    HexRoundTrip(s[0] as int / 16);
    HexRoundTrip(s[0] as int % 16);
    if |e| <= i {
      EncodedAlphabet(s[1..], i - |e|);
    }
  }

  /** Of the characters below 128, exactly these are escaped. */
  lemma EscapedExactly(c: char)
    requires c as int < 128
    ensures !Unreserved(c) <==>
      c as int < 32 || c as int == 127 || c in " \"#$%&+,/:;<=>?@[\\]^`{|}"
  {
  }

  /** Known answer: an escape has two hexadecimal digits, the letters in upper case. */
  lemma KnownAnswer()
    ensures Encode("a=/+") == "a%3D%2F%2B"
  {
    assert "a=/+"[1..] == "=/+" && "=/+"[1..] == "/+" && "/+"[1..] == "+" && "+"[1..] == "";
    assert EncodeChar('=') == "%3D" && EncodeChar('/') == "%2F" && EncodeChar('+') == "%2B";
    assert Encode("+") == EncodeChar('+') + "";
    assert Encode("/+") == "%2F" + Encode("+");
    assert Encode("=/+") == "%3D" + Encode("/+");
  }

  lemma EncodeFrom(s: string, i: nat)
    requires IsByteString(s) && i < |s|
    ensures Encode(s[i..]) == EncodeChar(s[i]) + Encode(s[i + 1..])
  {
    assert s[i..][1..] == s[i + 1..];
  }

  method WriteChar(s: string, c: char) returns (r: string)
    requires c as int < 256
    ensures r == s + EncodeChar(c)
  {
    if 'A' <= c <= 'Z' || 'a' <= c <= 'z' || '0' <= c <= '9' || c == '-' || c == '_' || c == '.' || c == '!'
       || c == '~' || c == '*' || c == '\'' || c == '(' || c == ')' {
      r := s + [c];
    } else {
      r := s + ['%'];
      r := r + ["0123456789ABCDEF"[c as int / 16]];
      r := r + ["0123456789ABCDEF"[c as int % 16]];
    }
  }

  method EncodeComponent(s: string) returns (r: string)
    requires IsByteString(s)
    ensures r == Encode(s)
  {
    r := "";
    for i := 0 to |s|
      invariant r + Encode(s[i..]) == Encode(s)
    {
      EncodeFrom(s, i);
      r := WriteChar(r, s[i]);
    }
  }
}
