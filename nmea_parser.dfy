/**
 * The GGA ("Global Positioning System Fix Data") sentence of NMEA 0183 as the
 * GPS channel decodes it: the XOR checksum and its two-digit upper-case
 * hexadecimal rendering, the checksum comparison, the fixed-index field
 * decoding and the framing of sentences out of a character stream.
 */
module NmeaParser {
  import opened Text

  const LongitudeDegreeDigits: nat := 3
  const LatitudeDegreeDigits: nat := 2
  const MinutesPerDegree: real := 60.0
  const ChecksumLength: nat := 2
  const ChecksumWithDelimiterLength: nat := 3
  const GgaMinFieldCount: nat := 15

  // ---------------------------------------------------------------- checksum

  /**
   * What a character adds to the checksum: the XOR of the `charCodeAt`
   * values of its UTF-16 code units. A character of the basic plane is one
   * unit, its own code; any other is a high and a low surrogate.
   */
  function Code(c: char): bv32 {
    var n := c as int;
    if n <= 0xFFFF then n as bv32
    else
      var u := (n - 0x10000) as bv32;
      (0xD800 | (u >> 10)) ^ (0xDC00 | (u & 0x3FF))
  }

  /** The XOR of all character codes, accumulated left to right. */
  function Checksum(s: string): bv32 {
    if s == [] then 0 else Checksum(s[..|s| - 1]) ^ Code(s[|s| - 1])
  }

  predicate IsHexUpper(c: char) {
    ('0' <= c <= '9') || ('A' <= c <= 'F')
  }

  predicate AllHexUpper(s: string) {
    forall i :: 0 <= i < |s| ==> IsHexUpper(s[i])
  }

  function HexDigit(d: nat): (c: char)
    requires d < 16
    ensures IsHexUpper(c)
  {
    if d < 10 then ('0' as int + d) as char else ('A' as int + d - 10) as char
  }

  function HexDigitValue(c: char): (d: nat)
    requires IsHexUpper(c)
    ensures d < 16
  {
    if c <= '9' then c as int - '0' as int else c as int - 'A' as int + 10
  }

  /** `n.toString(16).toUpperCase()`. */
  function Hex(n: nat): (r: string)
    ensures |r| >= 1 && AllHexUpper(r)
  {
    if n < 16 then [HexDigit(n)] else Hex(n / 16) + [HexDigit(n % 16)]
  }

  /** The value of a string of upper-case hexadecimal digits. */
  function HexValue(s: string): nat
    requires AllHexUpper(s)
  {
    if s == [] then 0 else 16 * HexValue(s[..|s| - 1]) + HexDigitValue(s[|s| - 1])
  }

  /** `s.padStart(n, c)`. */
  function PadStart(s: string, n: nat, c: char): (r: string)
    ensures |r| == if |s| < n then n else |s|
    ensures r[|r| - |s|..] == s
    ensures forall i :: 0 <= i < |r| - |s| ==> r[i] == c
  {
    if |s| < n then seq(n - |s|, _ => c) + s else s
  }

  /** What `calculateChecksum` returns: the checksum in upper-case hexadecimal, padded to two digits. */
  function ChecksumText(s: string): string {
    PadStart(Hex(Checksum(s) as nat), ChecksumLength, '0')
  }

  method CalculateChecksum(sentence: string) returns (hex: string)
    ensures hex == ChecksumText(sentence)
  {
    var checksum := XorCodes(sentence);
    hex := PadStart(Hex(checksum as nat), ChecksumLength, '0');
  }

  /** The loop of `calculateChecksum`: XOR of the codes of the characters, left to right. */
  method XorCodes(sentence: string) returns (checksum: bv32)
    ensures checksum == Checksum(sentence)
  {
    checksum := 0;
    var i := 0;
    while i < |sentence|
      invariant 0 <= i <= |sentence|
      invariant checksum == Checksum(sentence[..i])
    {
      ChecksumStep(sentence, i, checksum);
      checksum := checksum ^ Code(sentence[i]);
      i := i + 1;
    }
    assert sentence[..i] == sentence;
  }

  /** One more character XORs its code into the checksum of a prefix. */
  lemma ChecksumStep(s: string, i: nat, before: bv32)
    requires i < |s| && before == Checksum(s[..i])
    ensures before ^ Code(s[i]) == Checksum(s[..i + 1])
  {
    assert s[..i + 1][..i] == s[..i];
  }

  /** Checksum is a homomorphism from concatenation to XOR. */
  lemma {:induction false} ChecksumConcat(a: string, b: string)
    ensures Checksum(a + b) == Checksum(a) ^ Checksum(b)
    decreases |b|
  {
    if b != [] {
      var b' := b[..|b| - 1];
      assert (a + b)[..|a + b| - 1] == a + b';
      ChecksumConcat(a, b');
    } else {
      assert a + b == a;
    }
  }

  predicate AllCodesBelow256(s: string) {
    forall i :: 0 <= i < |s| ==> s[i] as int < 256
  }

  lemma CodeBelow256(c: char)
    requires c as int < 256
    ensures Code(c) < 256
  {
  }

  lemma XorBelow256(x: bv32, y: bv32)
    requires x < 256 && y < 256
    ensures x ^ y < 256
  {
  }

  lemma {:induction false} ChecksumBelow256(s: string)
    requires AllCodesBelow256(s)
    ensures Checksum(s) < 256
  {
    if s != [] {
      var p, c := s[..|s| - 1], s[|s| - 1];
      assert AllCodesBelow256(p) by {
        forall i | 0 <= i < |p| ensures p[i] as int < 256 {
          assert p[i] == s[i];
        }
      }
      ChecksumBelow256(p);
      CodeBelow256(c);
      XorBelow256(Checksum(p), Code(c));
    }
  }

  lemma {:induction false} HexValueOf(n: nat)
    ensures HexValue(Hex(n)) == n
  {
    if n >= 16 {
      HexValueOf(n / 16);
      var r := Hex(n);
      assert r[..|r| - 1] == Hex(n / 16);
    }
  }

  lemma {:induction false} HexValueLeadingZero(s: string)
    requires AllHexUpper(s)
    ensures HexValue(['0'] + s) == HexValue(s)
    decreases |s|
  {
    if s != [] {
      var p, z := s[..|s| - 1], ['0'] + s;
      assert AllHexUpper(p) by {
        forall i | 0 <= i < |p| ensures IsHexUpper(p[i]) {
          assert p[i] == s[i];
        }
      }
      assert z[..|z| - 1] == ['0'] + p;
      assert z[|z| - 1] == s[|s| - 1];
      HexValueLeadingZero(p);
      assert HexValue(z) == 16 * HexValue(['0'] + p) + HexDigitValue(s[|s| - 1]);
    }
  }

  /**
   * For text whose character codes are all below 256 the checksum text is
   * exactly two upper-case hexadecimal digits, and it reads back as the XOR.
   */
  lemma ChecksumTextTwoDigits(s: string)
    requires AllCodesBelow256(s)
    ensures |ChecksumText(s)| == 2
    ensures IsHexUpper(ChecksumText(s)[0]) && IsHexUpper(ChecksumText(s)[1])
    ensures HexValue(ChecksumText(s)) == Checksum(s) as nat
  {
    ChecksumBelow256(s);
    var n := Checksum(s) as nat;
    HexValueOf(n);
    if n < 16 {
      assert ChecksumText(s) == ['0'] + Hex(n);
      HexValueLeadingZero(Hex(n));
    } else {
      assert Hex(n) == Hex(n / 16) + [HexDigit(n % 16)];
      assert ChecksumText(s) == Hex(n);
    }
  }

  /** `verifyChecksum`: the two characters after the first '*', upper-cased, against the checksum of the text between index 1 and that '*'. */
  function VerifyChecksum(sentence: string): bool {
    var k := IndexOf(sentence, '*');
    if k == -1 then false
    else
      var data := Substring(sentence, 1, k);
      var provided := Substring(sentence, k + 1, k + ChecksumWithDelimiterLength);
      UpperCase(provided) == ChecksumText(data)
  }

  lemma VerifyWithoutStar(sentence: string)
    requires '*' !in sentence
    ensures !VerifyChecksum(sentence)
  {
  }

  /** Verification of a sentence whose first '*' is at k, unfolded. */
  lemma VerifyAt(sentence: string, k: int, data: string, provided: string)
    requires k != -1 && IndexOf(sentence, '*') == k
    requires data == Substring(sentence, 1, k)
    requires provided == Substring(sentence, k + 1, k + ChecksumWithDelimiterLength)
    ensures VerifyChecksum(sentence) == (UpperCase(provided) == ChecksumText(data))
  {
  }

  /**
   * The sentence layout the simulator produces: '$', the data, '*', two
   * checksum characters and anything after them (the line ending). For data
   * without '*' it verifies exactly when the two characters, upper-cased as
   * `toUpperCase` does it, are the checksum text of the data.
   */
  lemma VerifyFramed(d: string, p: string, tail: string)
    requires '*' !in d && |p| == 2
    ensures VerifyChecksum("$" + d + "*" + p + tail) <==> UpperCase(p) == ChecksumText(d)
  {
    var s := "$" + d + "*" + p + tail;
    FramedLayout(s, d, p, tail);
    VerifyAt(s, 1 + |d|, d, p);
  }

  /** The same layout with a single character after the '*' and nothing after it. */
  lemma VerifyFramedShort(d: string, c: char)
    requires '*' !in d
    ensures VerifyChecksum("$" + d + "*" + [c]) <==> UpperCase([c]) == ChecksumText(d)
  {
    var s := "$" + d + "*" + [c];
    FramedLayout(s, d, [c], []);
    VerifyAt(s, 1 + |d|, d, [c]);
  }

  /** Where the '*', the data and the window lie in a framed sentence. */
  lemma FramedLayout(s: string, d: string, p: string, tail: string)
    requires '*' !in d && 1 <= |p| <= 2 && (|p| == 1 ==> tail == [])
    requires s == "$" + d + "*" + p + tail
    ensures IndexOf(s, '*') == 1 + |d|
    ensures Substring(s, 1, 1 + |d|) == d
    ensures Substring(s, 2 + |d|, 4 + |d|) == p
  {
    assert s[1 + |d|] == '*';
    assert s[..1 + |d|] == "$" + d;
    assert '*' !in s[..1 + |d|];
  }

  /** The checksum 255 is written "FF". */
  lemma HexFF()
    ensures PadStart(Hex(255), ChecksumLength, '0') == "FF"
  {
    assert Hex(255) == Hex(15) + [HexDigit(15)];
  }

  /**
   * A lone 'ﬀ' after the '*' passes for the checksum FF, as `toUpperCase`
   * makes it "FF": `"$ÿ*ﬀ"` verifies, the checksum of "ÿ" being 255.
   */
  lemma LigatureChecksumAccepted(d: string)
    requires '*' !in d && Checksum(d) as nat == 255
    ensures VerifyChecksum("$" + d + "*" + [LigatureFF])
  {
    VerifyFramedShort(d, LigatureFF);
    HexFF();
  }

  /**
   * Two windows beside a checksum wider than two digits: "aﬀ" upper-cases
   * to "AFF", the checksum text of 0xAFF (the data "\u0AFF", say), and
   * "ﬀﬀ" to "FFFF", that of 0xFFFF. The comparison looks at the whole upper
   * case, not at two characters of it.
   */
  lemma WideChecksumLigature(d: string)
    requires '*' !in d
    ensures Checksum(d) as nat == 0xAFF ==> VerifyChecksum("$" + d + "*" + ['a', LigatureFF])
    ensures Checksum(d) as nat == 0xFFFF ==> VerifyChecksum("$" + d + "*" + [LigatureFF, LigatureFF])
  {
    UpperWide();
    HexWide();
    WindowVerifies(d, ['a', LigatureFF]);
    WindowVerifies(d, [LigatureFF, LigatureFF]);
  }

  /** A two-character window with nothing after it verifies exactly when its upper case is the checksum text. */
  lemma WindowVerifies(d: string, p: string)
    requires '*' !in d && |p| == 2
    ensures VerifyChecksum("$" + d + "*" + p) <==> UpperCase(p) == ChecksumText(d)
  {
    VerifyFramed(d, p, []);
    assert "$" + d + "*" + p + [] == "$" + d + "*" + p;
  }

  lemma UpperWide()
    ensures UpperCase(['a', LigatureFF]) == "AFF"
    ensures UpperCase([LigatureFF, LigatureFF]) == "FFFF"
  {
    assert UpperCase([LigatureFF]) == UpperFull(LigatureFF) + UpperCase([]);
    assert UpperCase(['a', LigatureFF]) == UpperFull('a') + UpperCase([LigatureFF]);
    assert UpperCase([LigatureFF, LigatureFF]) == UpperFull(LigatureFF) + UpperCase([LigatureFF]);
  }

  lemma HexWide()
    ensures PadStart(Hex(0xAFF), ChecksumLength, '0') == "AFF"
    ensures PadStart(Hex(0xFFFF), ChecksumLength, '0') == "FFFF"
  {
    assert Hex(0xAF) == Hex(10) + [HexDigit(15)];
    assert Hex(0xAFF) == Hex(0xAF) + [HexDigit(15)];
    assert Hex(0xFF) == Hex(15) + [HexDigit(15)];
    assert Hex(0xFFF) == Hex(0xFF) + [HexDigit(15)];
    assert Hex(0xFFFF) == Hex(0xFFF) + [HexDigit(15)];
  }

  /**
   * A window that upper-cases to hexadecimal holds only hexadecimal digits,
   * in either case, and the ligature 'ﬀ'. These are the characters whose
   * full upper case is made of hexadecimal digits alone.
   */
  lemma {:induction false} HexWindowCharacters(p: string, h: string)
    requires AllHexUpper(h) && UpperCase(p) == h
    ensures forall i :: 0 <= i < |p| ==> p[i] == LigatureFF || IsHexUpper(UpperChar(p[i]))
  {
    if p != [] {
      var first := UpperFull(p[0]);
      assert h == first + UpperCase(p[1..]);
      assert AllHexUpper(UpperCase(p[1..])) by {
        forall j | 0 <= j < |UpperCase(p[1..])| ensures IsHexUpper(UpperCase(p[1..])[j]) {
          assert UpperCase(p[1..])[j] == h[|first| + j];
        }
      }
      HexWindowCharacters(p[1..], UpperCase(p[1..]));
      assert p[0] == LigatureFF || IsHexUpper(UpperChar(p[0])) by {
        if p[0] != LigatureFF {
          assert h[0] == UpperChar(p[0]);
        }
      }
      forall i | 1 <= i < |p| ensures p[i] == LigatureFF || IsHexUpper(UpperChar(p[i])) {
        assert p[i] == p[1..][i - 1];
      }
    }
  }

  /** Upper-case hexadecimal digits are their own upper case. */
  lemma UpperHexUnchanged(t: string)
    requires AllHexUpper(t)
    ensures UpperCase(t) == t
  {
    assert LigatureFF !in t by {
      forall i | 0 <= i < |t| ensures t[i] != LigatureFF {
        assert IsHexUpper(t[i]);
      }
    }
    assert ToUpper(t) == t;
  }

  lemma UpperOfLowerHex(t: string)
    requires AllHexUpper(t)
    ensures UpperCase(ToLower(t)) == t
  {
    var l := ToLower(t);
    assert LigatureFF !in l by {
      forall i | 0 <= i < |l| ensures l[i] != LigatureFF {
        assert IsHexUpper(t[i]) && l[i] == LowerChar(t[i]);
      }
    }
    assert ToUpper(l) == t by {
      forall i | 0 <= i < |t| ensures ToUpper(l)[i] == t[i] {
        assert IsHexUpper(t[i]) && l[i] == LowerChar(t[i]);
      }
    }
  }

  /** Round trip: a sentence framed with the data's own checksum verifies, also when the digits are written in lower case. */
  lemma VerifyRoundTrip(d: string, tail: string)
    requires '*' !in d && AllCodesBelow256(d)
    ensures VerifyChecksum("$" + d + "*" + ChecksumText(d) + tail)
    ensures VerifyChecksum("$" + d + "*" + ToLower(ChecksumText(d)) + tail)
  {
    ChecksumTextTwoDigits(d);
    var t := ChecksumText(d);
    UpperHexUnchanged(t);
    UpperOfLowerHex(t);
    VerifyFramed(d, t, tail);
    VerifyFramed(d, ToLower(t), tail);
  }

  /** Any other pair of hexadecimal digits is rejected. */
  lemma VerifyMismatch(d: string, p: string, tail: string)
    requires '*' !in d && AllCodesBelow256(d) && |p| == 2
    requires AllHexUpper(p)
    requires HexValue(p) != Checksum(d) as nat
    ensures !VerifyChecksum("$" + d + "*" + p + tail)
  {
    ChecksumTextTwoDigits(d);
    UpperHexUnchanged(p);
    VerifyFramed(d, p, tail);
  }

  // ---------------------------------------------------------------- fields

  function DegreeDigits(isLongitude: bool): nat {
    if isLongitude then LongitudeDegreeDigits else LatitudeDegreeDigits
  }

  /** `parseCoordinate`: DDMM.MMMM (latitude) or DDDMM.MMMM (longitude) to decimal degrees. */
  function ParseCoordinate(coordinate: string, isLongitude: bool): (r: Option<real>)
    ensures coordinate == [] ==> r == None
    ensures |coordinate| <= DegreeDigits(isLongitude) ==> r == None
  {
    if coordinate == [] then None
    else
      var n := DegreeDigits(isLongitude);
      var degrees := ParseFloat(Substring(coordinate, 0, n));
      var minutes := ParseFloat(SubstringFrom(coordinate, n));
      if degrees.NaN? || minutes.NaN? then None
      else Some(degrees.v + minutes.v / MinutesPerDegree)
  }

  /**
   * The coordinate is the degree part (the first two digits for latitude,
   * three for longitude) plus the minute part divided by 60; with minutes in
   * [0, 60) it lies in [degrees, degrees + 1).
   */
  lemma CoordinateDecimalDegrees(deg: string, minutes: string, isLongitude: bool, x: real, y: real)
    requires |deg| == DegreeDigits(isLongitude)
    requires ParseFloat(deg) == Finite(x) && ParseFloat(minutes) == Finite(y)
    ensures ParseCoordinate(deg + minutes, isLongitude) == Some(x + y / MinutesPerDegree)
    ensures 0.0 <= y < 60.0 ==> x <= ParseCoordinate(deg + minutes, isLongitude).value < x + 1.0
  {
    CoordinateParts(deg, minutes, isLongitude, x, y);
    if 0.0 <= y < 60.0 {
      assert 0.0 <= y / MinutesPerDegree < 1.0;
    }
  }

  lemma CoordinateParts(deg: string, minutes: string, isLongitude: bool, x: real, y: real)
    requires |deg| == DegreeDigits(isLongitude)
    requires ParseFloat(deg) == Finite(x) && ParseFloat(minutes) == Finite(y)
    ensures ParseCoordinate(deg + minutes, isLongitude) == Some(x + y / MinutesPerDegree)
  {
    var c := deg + minutes;
    var n := DegreeDigits(isLongitude);
    SubstringSlice(c, 0, n);
    assert c[0..n] == deg;
    assert c[n..] == minutes;
    assert ParseFloat(Substring(c, 0, n)) == Finite(x);
    assert ParseFloat(SubstringFrom(c, n)) == Finite(y);
  }

  datatype GgaError = NotGga | InsufficientFields

  datatype Result<T> = Ok(value: T) | Err(error: GgaError)

  /** The decoded fix record, the wall-clock timestamp apart. */
  datatype GgaData = GgaData(
    messageId: string,
    utcTime: string,
    latitude: Option<real>,
    longitude: Option<real>,
    latitudeDirection: string,
    longitudeDirection: string,
    fixQuality: Number,
    satellitesUsed: Number,
    hdop: Option<Number>,
    altitude: Option<Number>,
    altitudeUnits: string,
    geoidalSeparation: Option<Number>,
    geoidalUnits: string,
    dgpsAge: Option<Number>,
    dgpsStationId: string,
    isValid: bool,
    checksumValid: bool,
    rawSentence: string)

  /** A GGA sentence starts with '$' and mentions "GGA" once trimmed. */
  predicate IsGgaHeader(t: string) {
    StartsWith(t, "$") && Includes(t, "GGA")
  }

  /** The text before the first '*', or all of it. */
  function WithoutChecksum(t: string): (r: string)
    ensures '*' !in r && StartsWith(t, r)
  {
    var k := IndexOf(t, '*');
    if k != -1 then Substring(t, 0, k) else t
  }

  /** The comma-separated fields of the trimmed sentence, checksum excluded. */
  function Fields(sentence: string): seq<string> {
    Split(WithoutChecksum(Trim(sentence)), ',')
  }

  /** `x ? parseFloat(x) : null`. */
  function OptionalFloat(s: string): (r: Option<Number>)
    ensures r.None? <==> s == []
  {
    if s == [] then None else Some(ParseFloat(s))
  }

  /** A coordinate and its hemisphere letter: present only when both fields are non-empty, negated for the given letter. */
  function SignedCoordinate(value: string, dir: string, isLongitude: bool, negative: string): Option<real> {
    if value != [] && dir != [] then
      match ParseCoordinate(value, isLongitude)
      case None => None
      case Some(v) => Some(if dir == negative then -v else v)
    else None
  }

  /** The record of a sentence that passed the header and field-count checks. */
  function DecodeFields(t: string, f: seq<string>): (g: GgaData)
    requires |f| >= GgaMinFieldCount
    ensures g.rawSentence == t && g.checksumValid == VerifyChecksum(t)
    ensures g.isValid <==>
      (g.checksumValid && GreaterThan(g.fixQuality, 0.0) && g.latitude.Some? && g.longitude.Some?)
  {
    var checksumValid := VerifyChecksum(t);
    var fixQuality := ParseInt(f[6]);
    var latitude := SignedCoordinate(f[2], f[3], false, "S");
    var longitude := SignedCoordinate(f[4], f[5], true, "W");
    GgaData(
      messageId := SubstringFrom(f[0], 1),
      utcTime := f[1],
      latitude := latitude,
      longitude := longitude,
      latitudeDirection := f[3],
      longitudeDirection := f[5],
      fixQuality := fixQuality,
      satellitesUsed := ParseInt(f[7]),
      hdop := OptionalFloat(f[8]),
      altitude := OptionalFloat(f[9]),
      altitudeUnits := f[10],
      geoidalSeparation := OptionalFloat(f[11]),
      geoidalUnits := f[12],
      dgpsAge := OptionalFloat(f[13]),
      dgpsStationId := f[14],
      isValid := checksumValid && GreaterThan(fixQuality, 0.0) && latitude.Some? && longitude.Some?,
      checksumValid := checksumValid,
      rawSentence := t)
  }

  /** `parseNmeaGga`: a thrown error becomes `Err`. */
  function ParseNmeaGga(sentence: string): (r: Result<GgaData>)
    ensures r.Err? && r.error == NotGga <==> !IsGgaHeader(Trim(sentence))
    ensures r.Err? && r.error == InsufficientFields <==>
      IsGgaHeader(Trim(sentence)) && |Fields(sentence)| < GgaMinFieldCount
    ensures r.Ok? ==>
      (|Fields(sentence)| >= GgaMinFieldCount && r.value == DecodeFields(Trim(sentence), Fields(sentence)))
    ensures r.Ok? ==> r.value.rawSentence == Trim(sentence)
    ensures r.Ok? ==> r.value.checksumValid == VerifyChecksum(Trim(sentence))
    ensures r.Ok? ==> (r.value.isValid <==>
      r.value.checksumValid && GreaterThan(r.value.fixQuality, 0.0)
      && r.value.latitude.Some? && r.value.longitude.Some?)
  {
    var t := Trim(sentence);
    if !IsGgaHeader(t) then Err(NotGga)
    else
      var f := Split(WithoutChecksum(t), ',');
      if |f| < GgaMinFieldCount then Err(InsufficientFields)
      else Ok(DecodeFields(t, f))
  }

  /** A failed checksum always makes the fix invalid, whatever the fields say. */
  lemma ChecksumMismatchInvalid(sentence: string)
    requires ParseNmeaGga(sentence).Ok?
    requires !VerifyChecksum(Trim(sentence))
    ensures !ParseNmeaGga(sentence).value.isValid
  {
  }

  /**
   * Latitude is read from field 2 with its hemisphere in field 3 and is
   * negated exactly for "S"; longitude from fields 4 and 5, negated exactly
   * for "W". Either is absent when a field is empty or does not parse.
   */
  lemma GgaCoordinates(sentence: string)
    requires ParseNmeaGga(sentence).Ok?
    ensures var g, f := ParseNmeaGga(sentence).value, Fields(sentence);
      |f| >= GgaMinFieldCount
      && (g.latitude.Some? <==> f[2] != [] && f[3] != [] && ParseCoordinate(f[2], false).Some?)
      && (g.latitude.Some? ==>
            g.latitude.value == if f[3] == "S" then -ParseCoordinate(f[2], false).value else ParseCoordinate(f[2], false).value)
      && (g.longitude.Some? <==> f[4] != [] && f[5] != [] && ParseCoordinate(f[4], true).Some?)
      && (g.longitude.Some? ==>
            g.longitude.value == if f[5] == "W" then -ParseCoordinate(f[4], true).value else ParseCoordinate(f[4], true).value)
  {
  }

  /** HDOP, altitude, geoidal separation and DGPS age are null exactly when their fields are empty, never 0. */
  lemma GgaEmptyOptionalFields(sentence: string)
    requires ParseNmeaGga(sentence).Ok?
    ensures var g, f := ParseNmeaGga(sentence).value, Fields(sentence);
      |f| >= GgaMinFieldCount
      && (g.hdop.None? <==> f[8] == [])
      && (g.altitude.None? <==> f[9] == [])
      && (g.geoidalSeparation.None? <==> f[11] == [])
      && (g.dgpsAge.None? <==> f[13] == [])
      && g.utcTime == f[1]
  {
  }

  /** The message id is the first field without its leading '$'. */
  lemma GgaMessageId(sentence: string)
    requires ParseNmeaGga(sentence).Ok?
    ensures var f := Fields(sentence);
      |f[0]| >= 1 && f[0][0] == '$' && "$" + ParseNmeaGga(sentence).value.messageId == f[0]
  {
    var t := Trim(sentence);
    var f := Fields(sentence);
    assert ParseNmeaGga(sentence).value == DecodeFields(t, f);
    DecodedMessageId(t, f);
    assert IsGgaHeader(t);
    HeaderWord(t);
    FirstFieldWord(WithoutChecksum(t));
    assert "$" + f[0][1..] == f[0];
  }

  lemma DecodedMessageId(t: string, f: seq<string>)
    requires |f| >= GgaMinFieldCount
    ensures DecodeFields(t, f).messageId == SubstringFrom(f[0], 1)
  {
  }

  /** What precedes the checksum of a sentence starting with '$' starts with '$'. */
  lemma HeaderWord(t: string)
    requires StartsWith(t, "$")
    ensures var w := WithoutChecksum(t); |w| >= 1 && w[0] == '$'
  {
    if '*' in t {
      assert IndexOf(t, '*') != 0;
    }
  }

  lemma FirstFieldWord(w: string)
    requires |w| >= 1 && w[0] == '$'
    ensures var f0 := Split(w, ',')[0]; |f0| >= 1 && f0[0] == '$'
  {
    SplitCons2(w);
    if ',' in w {
      assert IndexOf(w, ',') != 0;
    }
  }

  lemma SplitCons2(w: string)
    ensures Split(w, ',')[0] == if ',' in w then w[..IndexOf(w, ',')] else w
  {
  }

  // ---------------------------------------------------------------- framing

  /** A kept line starts with '$' and contains '*'. */
  predicate IsCandidate(line: string) {
    StartsWith(line, "$") && Includes(line, "*")
  }

  /** The sentences and the remainder `extractNmeaSentences` produces, line by line. */
  function Extract(buffer: string): (r: (seq<string>, string))
    ensures '\n' !in r.1
    decreases |buffer|
  {
    var k := IndexOf(buffer, '\n');
    if k == -1 then ([], buffer)
    else
      var line := Trim(buffer[..k]);
      var (rest, remaining) := Extract(buffer[k + 1..]);
      (if IsCandidate(line) then [line] + rest else rest, remaining)
  }

  method ExtractNmeaSentences(buffer: string) returns (sentences: seq<string>, remainingBuffer: string)
    ensures (sentences, remainingBuffer) == Extract(buffer)
  {
    sentences := [];
    remainingBuffer := buffer;
    while '\n' in remainingBuffer
      invariant sentences + Extract(remainingBuffer).0 == Extract(buffer).0
      invariant Extract(remainingBuffer).1 == Extract(buffer).1
      decreases |remainingBuffer|
    {
      var lineEndIndex := IndexOf(remainingBuffer, '\n');
      var line := Trim(remainingBuffer[..lineEndIndex]);
      ghost var before := remainingBuffer;
      remainingBuffer := remainingBuffer[lineEndIndex + 1..];
      if IsCandidate(line) {
        assert sentences + [line] + Extract(remainingBuffer).0 == sentences + Extract(before).0;
        sentences := sentences + [line];
      }
    }
    assert Extract(remainingBuffer) == ([], remainingBuffer);
    assert sentences + [] == sentences;
  }

  /** The lines of the buffer that are kept, in order: every complete line trimmed, filtered by `IsCandidate`. */
  function Candidates(lines: seq<string>): (r: seq<string>)
    ensures forall i :: 0 <= i < |r| ==> IsCandidate(r[i])
  {
    if lines == [] then []
    else (if IsCandidate(Trim(lines[0])) then [Trim(lines[0])] else []) + Candidates(lines[1..])
  }

  /** The candidates of a list with one more line in front. */
  lemma CandidatesCons(x: string, rest: seq<string>)
    ensures Candidates([x] + rest)
      == (if IsCandidate(Trim(x)) then [Trim(x)] else []) + Candidates(rest)
  {
    assert ([x] + rest)[1..] == rest;
  }

  lemma ConsAllButLast(x: string, r: seq<string>, pieces: seq<string>)
    requires |r| >= 1 && pieces == [x] + r
    ensures AllButLast(pieces) == [x] + AllButLast(r)
  {
    assert pieces[..|pieces| - 1] == [x] + r[..|r| - 1];
  }

  lemma ExtractCons(buffer: string)
    requires '\n' in buffer
    ensures var k := IndexOf(buffer, '\n');
      var line := Trim(buffer[..k]);
      var e := Extract(buffer[k + 1..]);
      && Extract(buffer).0 == (if IsCandidate(line) then [line] + e.0 else e.0)
      && Extract(buffer).1 == e.1
  {
  }

  /**
   * Reference definition by `split`: the sentences are the candidate lines
   * among the complete lines, and the remainder is the last piece, the text
   * after the last '\n'.
   */
  lemma ExtractBySplit(buffer: string)
    ensures var pieces := Split(buffer, '\n');
      Extract(buffer).1 == pieces[|pieces| - 1]
      && Extract(buffer).0 == Candidates(pieces[..|pieces| - 1])
  {
    RemainderBySplit(buffer);
    SentencesBySplit(buffer);
  }

  /** The remainder is the last piece of the split. */
  predicate RemainderIsLastPiece(buffer: string) {
    Extract(buffer).1 == Last(Split(buffer, '\n'))
  }

  /** The sentences are the candidates among all pieces but the last. */
  predicate SentencesAreCandidatePieces(buffer: string) {
    Extract(buffer).0 == Candidates(AllButLast(Split(buffer, '\n')))
  }

  function Last(pieces: seq<string>): string
    requires |pieces| >= 1
  {
    pieces[|pieces| - 1]
  }

  function AllButLast(pieces: seq<string>): seq<string>
    requires |pieces| >= 1
  {
    pieces[..|pieces| - 1]
  }

  lemma {:induction false} RemainderBySplit(buffer: string)
    ensures RemainderIsLastPiece(buffer)
    decreases |buffer|
  {
    if '\n' in buffer {
      var k := IndexOf(buffer, '\n');
      var tail := buffer[k + 1..];
      var rest := Split(tail, '\n');
      var pieces := Split(buffer, '\n');
      RemainderBySplit(tail);
      SplitCons(buffer, '\n');
      ExtractCons(buffer);
      LastOfCons(buffer[..k], rest, pieces);
      SameText(Extract(buffer).1, Extract(tail).1, Last(rest), Last(pieces));
    } else {
      ExtractNoNewline(buffer);
      SameText(Extract(buffer).1, buffer, buffer, Last(Split(buffer, '\n')));
    }
  }

  lemma {:induction false} SentencesBySplit(buffer: string)
    ensures SentencesAreCandidatePieces(buffer)
    decreases |buffer|
  {
    if '\n' in buffer {
      var k := IndexOf(buffer, '\n');
      var tail := buffer[k + 1..];
      var rest := Split(tail, '\n');
      var pieces := Split(buffer, '\n');
      var line := buffer[..k];
      SentencesBySplit(tail);
      SplitCons(buffer, '\n');
      ExtractCons(buffer);
      SentencesStep(line, rest, pieces, Extract(tail).0, Extract(buffer).0);
    } else {
      ExtractNoNewline(buffer);
      assert AllButLast(Split(buffer, '\n')) == [];
    }
  }

  /** The step of `SentencesBySplit`, over the pieces alone. */
  lemma SentencesStep(line: string, rest: seq<string>, pieces: seq<string>, e0: seq<string>, r0: seq<string>)
    requires |rest| >= 1 && pieces == [line] + rest
    requires e0 == Candidates(AllButLast(rest))
    requires r0 == if IsCandidate(Trim(line)) then [Trim(line)] + e0 else e0
    ensures r0 == Candidates(AllButLast(pieces))
  {
    ConsAllButLast(line, rest, pieces);
    CandidatesCons(line, AllButLast(rest));
  }

  /** Without a '\n' nothing is extracted and the one piece is the whole buffer. */
  lemma ExtractNoNewline(buffer: string)
    requires '\n' !in buffer
    ensures Extract(buffer).0 == [] && Extract(buffer).1 == buffer
    ensures Split(buffer, '\n') == [buffer]
  {
    assert IndexOf(buffer, '\n') == -1;
  }

  /** Three equal steps between texts. */
  lemma SameText(a: string, b: string, c: string, d: string)
    requires a == b && b == c && d == c
    ensures a == d
  {
  }

  lemma LastOfCons(x: string, r: seq<string>, pieces: seq<string>)
    requires |r| >= 1 && pieces == [x] + r
    ensures Last(pieces) == Last(r)
  {
    assert |pieces| - 1 == |r|;
  }

  lemma SplitCons(buffer: string, c: char)
    requires c in buffer
    ensures var k := IndexOf(buffer, c);
      Split(buffer, c) == [buffer[..k]] + Split(buffer[k + 1..], c)
  {
  }
}
