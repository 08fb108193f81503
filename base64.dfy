/**
 * Base64 conversion of byte arrays as the file layer does it: bytes become
 * a binary string (one character per byte) that `btoa` encodes with the
 * alphabet and padding of section 4 of RFC 4648; `atob` decodes with the
 * forgiving rules of the HTML standard (ASCII whitespace ignored, padding
 * optional, leftover bits discarded) and the characters become bytes again.
 */
module Base64 {
  import opened Text

  /** The value of a base64 digit as its character: A-Z, a-z, 0-9, '+', '/'. */
  function EncodeDigit(v: nat): (c: char)
    requires v < 64
  {
    if v < 26 then (65 + v) as char
    else if v < 52 then (97 + v - 26) as char
    else if v < 62 then (48 + v - 52) as char
    else if v == 62 then '+'
    else '/'
  }

  function DecodeDigit(c: char): (r: Option<nat>)
    ensures r.Some? ==> r.value < 64 && EncodeDigit(r.value) == c
  {
    if 'A' <= c <= 'Z' then Some(c as int - 65)
    else if 'a' <= c <= 'z' then Some(c as int - 97 + 26)
    else if '0' <= c <= '9' then Some(c as int - 48 + 52)
    else if c == '+' then Some(62)
    else if c == '/' then Some(63)
    else None
  }

  lemma DigitRoundTrip(v: nat)
    requires v < 64
    ensures DecodeDigit(EncodeDigit(v)) == Some(v)
  {
  }

  /** The 6-bit groups of the bytes, most significant first, the last group zero-filled; no padding. */
  function Sextets(b: seq<byte>): (r: seq<nat>)
    ensures forall i :: 0 <= i < |r| ==> r[i] < 64
  {
    if |b| == 0 then []
    else if |b| == 1 then [b[0] / 4, (b[0] % 4) * 16]
    else if |b| == 2 then [b[0] / 4, (b[0] % 4) * 16 + b[1] / 16, (b[1] % 16) * 4]
    else Group(b[0], b[1], b[2]) + Sextets(b[3..])
  }

  /** Three bytes as four 6-bit groups. */
  function Group(a: byte, b: byte, c: byte): (g: seq<nat>)
    ensures |g| == 4 && forall i :: 0 <= i < 4 ==> g[i] < 64
  {
    [a / 4, (a % 4) * 16 + b / 16, (b % 16) * 4 + c / 64, c % 64]
  }

  /** Four 6-bit groups as three bytes. */
  function GroupBytes(g: seq<nat>): (r: seq<byte>)
    requires |g| == 4 && forall i :: 0 <= i < 4 ==> g[i] < 64
    ensures |r| == 3
  {
    [g[0] * 4 + g[1] / 16, (g[1] % 16) * 16 + g[2] / 4, (g[2] % 4) * 64 + g[3]]
  }

  function Digits(vs: seq<nat>): (r: string)
    requires forall i :: 0 <= i < |vs| ==> vs[i] < 64
    ensures |r| == |vs|
    ensures forall i :: 0 <= i < |r| ==> r[i] == EncodeDigit(vs[i])
  {
    if vs == [] then [] else [EncodeDigit(vs[0])] + Digits(vs[1..])
  }

  /** One '=' per byte the last group lacks. */
  function Padding(n: nat): string {
    if n % 3 == 1 then "==" else if n % 3 == 2 then "=" else ""
  }

  /** Base64 per section 4 of RFC 4648: the digits, padded to a multiple of four. */
  function Encode(b: seq<byte>): (r: string)
    ensures |r| == 4 * ((|b| + 2) / 3)
  {
    SextetsLength(b);
    Digits(Sextets(b)) + Padding(|b|)
  }

  /** Every group of three bytes gives four digits, a last one or two bytes two or three. */
  lemma {:induction false} SextetsLength(b: seq<byte>)
    ensures |b| % 3 == 0 ==> |Sextets(b)| % 4 == 0
    ensures |b| % 3 == 1 ==> |Sextets(b)| % 4 == 2
    ensures |b| % 3 == 2 ==> |Sextets(b)| % 4 == 3
    ensures |Sextets(b)| + |Padding(|b|)| == 4 * ((|b| + 2) / 3)
    decreases |b|
  {
    if |b| >= 3 {
      SextetsCons(b);
      SextetsLength(b[3..]);
      LengthStep(|b|, |Sextets(b[3..])|);
    }
  }

  /** Three more bytes: four more digits, the same padding. */
  lemma LengthStep(n: nat, k: nat)
    requires n >= 3
    ensures (n - 3) % 3 == 0 ==> n % 3 == 0
    ensures (n - 3) % 3 == 1 ==> n % 3 == 1
    ensures (n - 3) % 3 == 2 ==> n % 3 == 2
    ensures (k + 4) % 4 == k % 4
    ensures Padding(n) == Padding(n - 3)
    ensures 4 * ((n + 2) / 3) == 4 * ((n - 3 + 2) / 3) + 4
  {
  }

  predicate IsAsciiWhitespace(c: char) {
    c == '\t' || c == '\n' || c == '\U{000C}' || c == '\r' || c == ' '
  }

  function RemoveWhitespace(s: string): (r: string)
    ensures |r| <= |s|
  {
    if s == [] then [] else (if IsAsciiWhitespace(s[0]) then [] else [s[0]]) + RemoveWhitespace(s[1..])
  }

  /** One or two '=' at the end are dropped once the length is a multiple of four. */
  function StripPadding(s: string): (r: string) {
    if |s| % 4 == 0 && |s| >= 2 && s[|s| - 2..] == "==" then s[..|s| - 2]
    else if |s| % 4 == 0 && |s| >= 1 && s[|s| - 1] == '=' then s[..|s| - 1]
    else s
  }

  /** The digit values of a string, or nothing when some character is not a base64 digit. */
  function Values(s: string): (r: Option<seq<nat>>)
    ensures r.Some? ==> |r.value| == |s| && forall i :: 0 <= i < |s| ==> r.value[i] < 64
  {
    if s == [] then Some([])
    else
      var d := DecodeDigit(s[0]);
      var rest := Values(s[1..]);
      if d.None? || rest.None? then None else Some([d.value] + rest.value)
  }

  /** Whole groups of four give three bytes; a last group of two or three gives one or two, dropping the leftover bits. */
  function Bytes(vs: seq<nat>): (r: seq<byte>)
    requires |vs| % 4 != 1 && forall i :: 0 <= i < |vs| ==> vs[i] < 64
  {
    if |vs| == 0 then []
    else if |vs| == 2 then [vs[0] * 4 + vs[1] / 16]
    else if |vs| == 3 then [vs[0] * 4 + vs[1] / 16, (vs[1] % 16) * 16 + vs[2] / 4]
    else GroupBytes(vs[..4]) + Bytes(vs[4..])
  }

  /** Forgiving base64 decoding: fails on a length of 1 modulo 4 or on a character outside the alphabet. */
  function Decode(s: string): (r: Option<seq<byte>>)
  {
    var data := StripPadding(RemoveWhitespace(s));
    if |data| % 4 == 1 then None
    else
      var vs := Values(data);
      if vs.None? then None else Some(Bytes(vs.value))
  }

  /** A binary string: one character per byte, of that code. */
  function BinaryString(b: seq<byte>): (r: string)
    ensures |r| == |b| && forall i :: 0 <= i < |b| ==> r[i] as int == b[i]
  {
    seq(|b|, i requires 0 <= i < |b| => b[i] as char)
  }

  /** `btoa`: fails on a character above U+00FF, else encodes the character codes. */
  function Btoa(s: string): (r: Option<string>)
    ensures r.Some? <==> forall i :: 0 <= i < |s| ==> s[i] as int < 256
  {
    if forall i :: 0 <= i < |s| ==> s[i] as int < 256 then
      Some(Encode(seq(|s|, i requires 0 <= i < |s| => s[i] as int as byte)))
    else None
  }

  /** `atob`: the decoded bytes as a binary string. */
  function Atob(s: string): (r: Option<string>) {
    var b := Decode(s);
    if b.None? then None else Some(BinaryString(b.value))
  }

  // ------------------------------------------------------------ round trip

  lemma GroupRoundTrip(a: byte, b: byte, c: byte)
    ensures (a / 4) * 4 + ((a % 4) * 16 + b / 16) / 16 == a
    ensures (((a % 4) * 16 + b / 16) % 16) * 16 + ((b % 16) * 4 + c / 64) / 4 == b
    ensures (((b % 16) * 4 + c / 64) % 4) * 64 + c % 64 == c
  {
  }

  lemma GroupBack(a: byte, b: byte, c: byte)
    ensures GroupBytes(Group(a, b, c)) == [a, b, c]
  {
    GroupRoundTrip(a, b, c);
  }

  lemma SextetsCons(b: seq<byte>)
    requires |b| >= 3
    ensures Sextets(b) == Group(b[0], b[1], b[2]) + Sextets(b[3..])
  {
  }

  lemma BytesCons(g: seq<nat>, rest: seq<nat>)
    requires |g| == 4 && forall i :: 0 <= i < 4 ==> g[i] < 64
    requires |rest| % 4 != 1 && forall i :: 0 <= i < |rest| ==> rest[i] < 64
    ensures |g + rest| % 4 != 1 && forall i :: 0 <= i < |g + rest| ==> (g + rest)[i] < 64
    ensures Bytes(g + rest) == GroupBytes(g) + Bytes(rest)
  {
    var vs := g + rest;
    assert vs[..4] == g && vs[4..] == rest;
  }

  lemma {:induction false} BytesOfSextets(b: seq<byte>)
    ensures |Sextets(b)| % 4 != 1
    ensures Bytes(Sextets(b)) == b
    decreases |b|
  {
    if |b| >= 3 {
      var g := Group(b[0], b[1], b[2]);
      var rest := Sextets(b[3..]);
      SextetsCons(b);
      BytesOfSextets(b[3..]);
      BytesCons(g, rest);
      GroupBack(b[0], b[1], b[2]);
      assert b == [b[0], b[1], b[2]] + b[3..];
    } else if |b| == 2 {
      PairBack(b[0], b[1]);
      assert b == [b[0], b[1]];
    } else if |b| == 1 {
      SingleBack(b[0]);
      assert b == [b[0]];
    }
  }

  lemma PairBack(a: byte, b: byte)
    ensures Sextets([a, b]) == [a / 4, (a % 4) * 16 + b / 16, (b % 16) * 4]
    ensures Bytes(Sextets([a, b])) == [a, b]
  {
    GroupRoundTrip(a, b, 0);
  }

  lemma SingleBack(a: byte)
    ensures Sextets([a]) == [a / 4, (a % 4) * 16]
    ensures Bytes(Sextets([a])) == [a]
  {
    GroupRoundTrip(a, 0, 0);
  }

  lemma {:induction false} ValuesOfDigits(vs: seq<nat>)
    requires forall i :: 0 <= i < |vs| ==> vs[i] < 64
    ensures Values(Digits(vs)) == Some(vs)
    decreases |vs|
  {
    if vs != [] {
      var s := Digits(vs);
      assert s == [EncodeDigit(vs[0])] + Digits(vs[1..]);
      assert s[1..] == Digits(vs[1..]);
      DigitRoundTrip(vs[0]);
      assert forall i :: 0 <= i < |vs| - 1 ==> vs[1..][i] == vs[i + 1];
      ValuesOfDigits(vs[1..]);
      assert vs == [vs[0]] + vs[1..];
    }
  }

  lemma {:induction false} NoWhitespace(s: string)
    requires forall i :: 0 <= i < |s| ==> !IsAsciiWhitespace(s[i])
    ensures RemoveWhitespace(s) == s
  {
    if s != [] {
      NoWhitespace(s[1..]);
      assert s == [s[0]] + s[1..];
    }
  }

  /** Stripping padding from digits followed by the padding their length calls for leaves the digits. */
  lemma StripDigits(d: string, p: string)
    requires '=' !in d
    requires (p == "==" && |d| % 4 == 2) || (p == "=" && |d| % 4 == 3) || (p == "" && |d| % 4 == 0)
    ensures StripPadding(d + p) == d
  {
    var e := d + p;
    if p == "==" {
      assert e[|e| - 2..] == "==";
      assert e[..|e| - 2] == d;
    } else if p == "=" {
      assert e[|e| - 2] == d[|d| - 1];
      assert e[..|e| - 1] == d;
    } else {
      assert e == d;
      if |e| > 0 {
        assert e[|e| - 1] == d[|d| - 1];
      }
    }
  }

  /** Stripping the padding of an encoding leaves exactly its digits. */
  lemma StripEncoding(b: seq<byte>)
    ensures StripPadding(Encode(b)) == Digits(Sextets(b))
  {
    var d := Digits(Sextets(b));
    assert '=' !in d by {
      forall i | 0 <= i < |d|
        ensures d[i] != '='
      {
        assert d[i] == EncodeDigit(Sextets(b)[i]);
      }
    }
    SextetsLength(b);
    StripDigits(d, Padding(|b|));
  }

  /** Decoding an encoding gives back the bytes. */
  lemma DecodeEncode(b: seq<byte>)
    ensures Decode(Encode(b)) == Some(b)
  {
    var e := Encode(b);
    var vs := Sextets(b);
    var d := Digits(vs);
    assert e == d + Padding(|b|);
    assert forall i :: 0 <= i < |e| ==> !IsAsciiWhitespace(e[i]) by {
      forall i | 0 <= i < |e|
        ensures !IsAsciiWhitespace(e[i])
      {
        if i < |d| {
          assert e[i] == EncodeDigit(vs[i]);
        }
      }
    }
    NoWhitespace(e);
    StripEncoding(b);
    BytesOfSextets(b);
    ValuesOfDigits(vs);
  }

  /**
   * The file layer's round trip: `atob(btoa(binary))` gives back the
   * binary string of any bytes.
   */
  lemma AtobBtoa(b: seq<byte>)
    ensures Btoa(BinaryString(b)) == Some(Encode(b))
    ensures Atob(Encode(b)) == Some(BinaryString(b))
  {
    var s := BinaryString(b);
    assert seq(|s|, i requires 0 <= i < |s| => s[i] as int as byte) == b;
    DecodeEncode(b);
  }

  // ------------------------------------------------------------ conversions

  /** `uint8ArrayToBase64`: the bytes as a binary string, then `btoa`. */
  method Uint8ArrayToBase64(bytes: array<byte>) returns (r: string)
    ensures r == Encode(bytes[..])
  {
    var binary := "";
    for i := 0 to bytes.Length
      invariant binary == BinaryString(bytes[..i])
    {
      binary := binary + [bytes[i] as char];
    }
    assert bytes[..bytes.Length] == bytes[..];
    AtobBtoa(bytes[..]);
    r := Btoa(binary).value;
  }

  /** `base64ToUint8Array`: `atob`, then one byte per character; `atob`'s failure is passed on. */
  method Base64ToUint8Array(base64: string) returns (r: Option<array<byte>>)
    ensures r.None? <==> Decode(base64).None?
    ensures r.Some? ==> fresh(r.value) && r.value[..] == Decode(base64).value
  {
    var binary := Atob(base64);
    if binary.None? {
      return None;
    }
    var s := binary.value;
    var bytes := new byte[|s|];
    for i := 0 to |s|
      invariant forall j :: 0 <= j < i ==> bytes[j] == Decode(base64).value[j]
    {
      bytes[i] := s[i] as int;
    }
    r := Some(bytes);
  }
}
