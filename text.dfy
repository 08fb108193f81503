/**
 * JavaScript string semantics the core relies on, on `seq<char>`:
 * whitespace trimming, `indexOf`/`includes`/`startsWith`/`endsWith`,
 * `substring` with its clamping and swapping, `split` on one character,
 * decimal rendering of naturals and the lenient `parseInt`/`parseFloat`
 * prefix parsers. A JavaScript number is `Number`: a real value or NaN.
 * Also the option and promise-outcome wrappers every module uses.
 */
module Text {

  datatype Option<T> = None | Some(value: T)

  /** How an asynchronous call ends: it resolves, or it rejects with an error message. */
  datatype Status = Done | Failed(message: string)

  /** How an asynchronous call that yields a value ends. */
  datatype Answer<T> = Value(value: T) | Rejected(message: string)

  /** No element occurs twice. */
  predicate NoDuplicates<T(==)>(s: seq<T>) {
    forall i, j :: 0 <= i < j < |s| ==> s[i] != s[j]
  }

  /** An element of a `Uint8Array`. */
  type byte = b: int | 0 <= b < 256

  /** A JavaScript number: finite values are exact reals, plus NaN. */
  datatype Number = Finite(v: real) | NaN

  /** JavaScript `a > b` where `a` may be NaN: every comparison with NaN is false. */
  predicate GreaterThan(a: Number, b: real) {
    a.Finite? && a.v > b
  }

  /** JavaScript `x || 0` on a number: NaN and 0 are falsy. */
  function OrZero(n: Number): (r: real)
    ensures n.NaN? ==> r == 0.0
    ensures n.Finite? ==> r == n.v
  {
    match n
    case NaN => 0.0
    case Finite(v) => v
  }

  // ---------------------------------------------------------------- whitespace

  /** WhiteSpace and LineTerminator code points as `String.prototype.trim` removes them. */
  predicate IsJsWhitespace(c: char) {
    c == '\t' || c == '\n' || c == '\U{000B}' || c == '\U{000C}' || c == '\r' || c == ' '
    || c == '\U{00A0}' || c == '\U{1680}' || ('\U{2000}' <= c <= '\U{200A}')
    || c == '\U{2028}' || c == '\U{2029}' || c == '\U{202F}' || c == '\U{205F}'
    || c == '\U{3000}' || c == '\U{FEFF}'
  }

  /** The number of whitespace characters at the start. */
  function LeadingWhitespace(s: string): (n: nat)
    ensures n <= |s| && (n < |s| ==> !IsJsWhitespace(s[n]))
  {
    if s == [] || !IsJsWhitespace(s[0]) then 0 else 1 + LeadingWhitespace(s[1..])
  }

  /** The number of whitespace characters at the end. */
  function TrailingWhitespace(s: string): (n: nat)
    ensures n <= |s| && (n < |s| ==> !IsJsWhitespace(s[|s| - 1 - n]))
  {
    if s == [] || !IsJsWhitespace(s[|s| - 1]) then 0 else 1 + TrailingWhitespace(s[..|s| - 1])
  }

  /** What `LeadingWhitespace` counts is whitespace. */
  lemma {:induction false} LeadingAllWhitespace(s: string)
    ensures forall k :: 0 <= k < LeadingWhitespace(s) ==> IsJsWhitespace(s[k])
  {
    if s != [] && IsJsWhitespace(s[0]) {
      LeadingAllWhitespace(s[1..]);
      forall k | 1 <= k < LeadingWhitespace(s)
        ensures IsJsWhitespace(s[k])
      {
        assert s[k] == s[1..][k - 1];
      }
    }
  }

  /** What `TrailingWhitespace` counts is whitespace. */
  lemma {:induction false} TrailingAllWhitespace(s: string)
    ensures forall k :: |s| - TrailingWhitespace(s) <= k < |s| ==> IsJsWhitespace(s[k])
  {
    if s != [] && IsJsWhitespace(s[|s| - 1]) {
      TrailingAllWhitespace(s[..|s| - 1]);
      forall k | |s| - TrailingWhitespace(s) <= k < |s| - 1
        ensures IsJsWhitespace(s[k])
      {
        assert s[k] == s[..|s| - 1][k];
      }
    }
  }

  /** `s.trimStart()`. */
  function TrimStart(s: string): (r: string)
    ensures r == [] || !IsJsWhitespace(r[0])
  {
    s[LeadingWhitespace(s)..]
  }

  /** `s.trimEnd()`. */
  function TrimEnd(s: string): (r: string)
    ensures r == [] || !IsJsWhitespace(r[|r| - 1])
  {
    s[..|s| - TrailingWhitespace(s)]
  }

  /** `s.trim()`: no whitespace at either end; `TrimIsMiddleSlice` says what is removed. */
  function Trim(s: string): (r: string)
    ensures |r| <= |s|
    ensures r == [] || (!IsJsWhitespace(r[0]) && !IsJsWhitespace(r[|r| - 1]))
  {
    var t := TrimStart(s);
    var r := TrimEnd(t);
    assert r == [] || r[0] == t[0];
    r
  }

  /**
   * Trimming keeps a contiguous middle part of the string and removes only
   * whitespace: everything before and after that part is whitespace.
   */
  lemma TrimIsMiddleSlice(s: string)
    ensures exists i, j ::
              && 0 <= i <= j <= |s| && Trim(s) == s[i..j]
              && (forall k :: 0 <= k < i ==> IsJsWhitespace(s[k]))
              && (forall k :: j <= k < |s| ==> IsJsWhitespace(s[k]))
  {
    var i := LeadingWhitespace(s);
    var t := s[i..];
    var r := Trim(s);
    var j := i + |r|;
    LeadingAllWhitespace(s);
    TrailingAllWhitespace(t);
    forall k | j <= k < |s|
      ensures IsJsWhitespace(s[k])
    {
      assert s[k] == t[k - i];
    }
    assert r == s[i..j];
  }

  /** Trimming a string that has no whitespace at either end changes nothing. */
  lemma TrimUnchanged(s: string)
    requires s == [] || (!IsJsWhitespace(s[0]) && !IsJsWhitespace(s[|s| - 1]))
    ensures Trim(s) == s
  {
  }

  // ---------------------------------------------------------------- UTF-16

  /** The number of UTF-16 code units a character takes: two for a character above the basic plane. */
  function Utf16Units(c: char): (n: nat)
    ensures n == 1 <==> c as int <= 0xFFFF
    ensures 1 <= n <= 2
  {
    if c as int <= 0xFFFF then 1 else 2
  }

  /** `s.length`: the UTF-16 code units of the string, between one and two per character. */
  function Utf16Length(s: string): (n: nat)
    ensures |s| <= n <= 2 * |s|
    ensures (forall i :: 0 <= i < |s| ==> s[i] as int <= 0xFFFF) ==> n == |s|
    ensures (forall i :: 0 <= i < |s| ==> s[i] as int > 0xFFFF) ==> n == 2 * |s|
  {
    if s == [] then 0 else Utf16Units(s[0]) + Utf16Length(s[1..])
  }

  /** The code-unit length of a concatenation is the sum of the lengths. */
  lemma {:induction false} Utf16LengthConcat(a: string, b: string)
    ensures Utf16Length(a + b) == Utf16Length(a) + Utf16Length(b)
  {
    if a != [] {
      assert (a + b)[1..] == a[1..] + b;
      Utf16LengthConcat(a[1..], b);
    } else {
      assert a + b == b;
    }
  }

  // ---------------------------------------------------------------- searching

  /** `s.indexOf(c)`: the first position of `c`, or -1. */
  function IndexOf(s: string, c: char): (r: int)
    ensures -1 <= r < |s|
    ensures r == -1 <==> c !in s
    ensures r >= 0 ==> s[r] == c && c !in s[..r]
  {
    if |s| == 0 then -1
    else if s[0] == c then 0
    else
      var k := IndexOf(s[1..], c);
      assert s[1..][..if k < 0 then 0 else k] == s[1..1 + (if k < 0 then 0 else k)];
      if k < 0 then -1 else k + 1
  }

  /** `s.indexOf(c, from)` for a one-character search string and `from >= 0`: the first position of `c` at or after `from`, or -1. */
  function IndexOfCharFrom(s: string, c: char, from: nat): (r: int)
    ensures r == -1 || (from <= r < |s| && s[r] == c)
    ensures r == -1 ==> forall i :: from <= i < |s| ==> s[i] != c
    ensures r >= 0 ==> forall i :: from <= i < r ==> s[i] != c
    decreases |s| - from
  {
    if from >= |s| then -1
    else if s[from] == c then from
    else IndexOfCharFrom(s, c, from + 1)
  }

  /** `s.includes(c)` for a one-character search string. */
  predicate HasChar(s: string, c: char) {
    IndexOfCharFrom(s, c, 0) != -1
  }

  /** A character is included exactly when it is a member of the sequence. */
  lemma HasCharIsIn(s: string, c: char)
    ensures HasChar(s, c) <==> c in s
  {
    if c in s {
      var i :| 0 <= i < |s| && s[i] == c;
    }
  }

  /** `p` occurs in `s` at position `i`. */
  predicate OccursAt(s: string, p: string, i: int) {
    0 <= i && i + |p| <= |s| && s[i..i + |p|] == p
  }

  /** `s.indexOf(p, from)` for `from >= 0`: the first occurrence at or after `from`, or -1. */
  function IndexOfFrom(s: string, p: string, from: nat): (r: int)
    ensures r == -1 || (from <= r && OccursAt(s, p, r))
    ensures r == -1 ==> forall i :: from <= i ==> !OccursAt(s, p, i)
    ensures r >= 0 ==> forall i :: from <= i < r ==> !OccursAt(s, p, i)
    decreases |s| - from
  {
    if from + |p| > |s| then -1
    else if s[from..from + |p|] == p then from
    else IndexOfFrom(s, p, from + 1)
  }

  /** `s.indexOf(p)`. */
  function IndexOfStr(s: string, p: string): (r: int)
    ensures r == -1 || OccursAt(s, p, r)
    ensures r == -1 ==> forall i :: !OccursAt(s, p, i)
    ensures r >= 0 ==> forall i :: 0 <= i < r ==> !OccursAt(s, p, i)
  {
    IndexOfFrom(s, p, 0)
  }

  /** `s.includes(p)`: some occurrence exists. */
  predicate Includes(s: string, p: string) {
    IndexOfStr(s, p) >= 0
  }

  lemma IncludesAt(s: string, p: string, i: int)
    requires OccursAt(s, p, i)
    ensures Includes(s, p)
  {
  }

  predicate StartsWith(s: string, p: string) {
    |p| <= |s| && s[..|p|] == p
  }

  predicate EndsWith(s: string, p: string) {
    |p| <= |s| && s[|s| - |p|..] == p
  }

  /** A single character is included exactly when it is a member of the sequence. */
  lemma IncludesChar(s: string, c: char)
    ensures Includes(s, [c]) <==> c in s
  {
    if c in s {
      var i := IndexOf(s, c);
      assert OccursAt(s, [c], i);
    }
    if Includes(s, [c]) {
      var i := IndexOfStr(s, [c]);
      assert s[i] == s[i..i + 1][0];
    }
  }

  /** An occurrence inside a prefix or a suffix is an occurrence in the whole. */
  lemma IncludesInfix(s: string, p: string, k: nat, m: nat)
    requires k <= m <= |s| && Includes(s[k..m], p)
    ensures Includes(s, p)
  {
    var i := IndexOfStr(s[k..m], p);
    forall j | 0 <= j < |p| ensures s[k + i..k + i + |p|][j] == p[j] {
      assert s[k..m][i..i + |p|][j] == p[j];
    }
    assert OccursAt(s, p, k + i);
    IncludesAt(s, p, k + i);
  }

  // ---------------------------------------------------------------- substring

  function Clamp(i: int, n: nat): (r: nat)
    ensures r <= n
    ensures 0 <= i <= n ==> r == i
  {
    if i < 0 then 0 else if i > n then n else i
  }

  /**
   * `s.substring(a, b)`: both bounds are clamped to `[0, |s|]` and swapped
   * when the first exceeds the second.
   */
  function Substring(s: string, a: int, b: int): string {
    var x := Clamp(a, |s|);
    var y := Clamp(b, |s|);
    if x <= y then s[x..y] else s[y..x]
  }

  /** In-range bounds select the slice between them, in either order; the result is never longer than `s`. */
  lemma SubstringSlice(s: string, a: int, b: int)
    ensures 0 <= a <= b <= |s| ==> Substring(s, a, b) == s[a..b]
    ensures 0 <= b <= a <= |s| ==> Substring(s, a, b) == s[b..a]
    ensures |Substring(s, a, b)| <= |s|
  {
  }

  /** `s.substring(a)`. */
  function SubstringFrom(s: string, a: int): (r: string)
    ensures 0 <= a <= |s| ==> r == s[a..]
    ensures a >= |s| ==> r == []
  {
    s[Clamp(a, |s|)..]
  }

  /** A slice to the end is a suffix. */
  lemma SliceSuffix(s: string, a: nat)
    requires a <= |s|
    ensures EndsWith(s, s[a..])
  {
    assert s[|s| - |s[a..]|..] == s[a..];
  }

  /** What `s.substring(a)` leaves is always a suffix of `s`. */
  lemma SubstringFromSuffix(s: string, a: int)
    ensures EndsWith(s, SubstringFrom(s, a))
  {
    SliceSuffix(s, Clamp(a, |s|));
  }

  // ---------------------------------------------------------------- split

  /**
   * `s.split(c)` for a one-character separator: the maximal pieces between
   * occurrences of `c`, so there is always one more piece than occurrences.
   */
  function Split(s: string, c: char): (r: seq<string>)
    ensures |r| >= 1
    ensures forall k :: 0 <= k < |r| ==> c !in r[k]
    decreases |s|
  {
    var i := IndexOf(s, c);
    if i < 0 then [s] else [s[..i]] + Split(s[i + 1..], c)
  }

  /** Joining the pieces of a split with the separator gives back the input. */
  function Join(pieces: seq<string>, c: char): string
    requires |pieces| >= 1
  {
    if |pieces| == 1 then pieces[0] else pieces[0] + [c] + Join(pieces[1..], c)
  }

  lemma JoinCons(x: string, rest: seq<string>, c: char)
    requires |rest| >= 1
    ensures Join([x] + rest, c) == x + [c] + Join(rest, c)
  {
    assert ([x] + rest)[1..] == rest;
  }

  lemma {:induction false} SplitJoin(s: string, c: char)
    ensures Join(Split(s, c), c) == s
    decreases |s|
  {
    var i := IndexOf(s, c);
    if i >= 0 {
      var rest := Split(s[i + 1..], c);
      SplitJoin(s[i + 1..], c);
      JoinCons(s[..i], rest, c);
      assert s == s[..i] + [c] + s[i + 1..];
    }
  }

  /** The number of pieces is one more than the number of separators. */
  function Count(s: string, c: char): (r: nat)
    ensures r <= |s|
    ensures r == 0 <==> c !in s
  {
    if s == [] then 0 else (if s[0] == c then 1 else 0) + Count(s[1..], c)
  }

  lemma CountSplit(s: string, c: char, i: nat)
    requires i < |s| && s[i] == c
    ensures Count(s, c) == Count(s[..i], c) + 1 + Count(s[i + 1..], c)
  {
    if i > 0 {
      CountSplit(s[1..], c, i - 1);
      assert s[1..][..i - 1] == s[..i][1..];
      assert s[1..][i..] == s[i + 1..];
    }
  }

  lemma {:induction false} SplitLength(s: string, c: char)
    ensures |Split(s, c)| == Count(s, c) + 1
    decreases |s|
  {
    var i := IndexOf(s, c);
    if i >= 0 {
      CountSplit(s, c, i);
      SplitLength(s[i + 1..], c);
    }
  }

  // ---------------------------------------------------------------- digits

  predicate IsDigit(c: char) { '0' <= c <= '9' }

  function DigitValue(c: char): (r: nat)
    requires IsDigit(c)
    ensures r < 10
  {
    (c as int) - ('0' as int)
  }

  function DigitChar(d: nat): (c: char)
    requires d < 10
    ensures IsDigit(c) && DigitValue(c) == d
  {
    ('0' as int + d) as char
  }

  predicate AllDigits(s: string) {
    forall i :: 0 <= i < |s| ==> IsDigit(s[i])
  }

  /** The value of a decimal digit string, most significant digit first. */
  function DigitsValue(s: string): nat
    requires AllDigits(s)
  {
    if s == [] then 0 else 10 * DigitsValue(s[..|s| - 1]) + DigitValue(s[|s| - 1])
  }

  /** The length of the longest all-digit prefix. */
  function DigitPrefixLength(s: string): (n: nat)
    ensures n <= |s| && AllDigits(s[..n])
    ensures n < |s| ==> !IsDigit(s[n])
  {
    if s == [] || !IsDigit(s[0]) then 0
    else
      var k := DigitPrefixLength(s[1..]);
      assert s[..k + 1] == [s[0]] + s[1..][..k];
      k + 1
  }

  /** Decimal rendering of a natural number, as `String(n)` or a template literal gives it. */
  function NatToString(n: nat): (r: string)
    ensures |r| >= 1 && AllDigits(r)
    ensures |r| > 1 ==> r[0] != '0'
  {
    if n < 10 then [DigitChar(n)] else NatToString(n / 10) + [DigitChar(n % 10)]
  }

  lemma {:induction false} NatToStringValue(n: nat)
    ensures DigitsValue(NatToString(n)) == n
  {
    if n >= 10 {
      NatToStringValue(n / 10);
      var r := NatToString(n);
      assert r[..|r| - 1] == NatToString(n / 10);
    }
  }

  // ---------------------------------------------------------------- numbers

  /** The value of the digits `d` read as the fraction `0.d`. */
  function FractionValue(d: string): real
    requires AllDigits(d)
  {
    if d == [] then 0.0 else (DigitValue(d[0]) as real + FractionValue(d[1..])) / 10.0
  }

  function ApplySign(negative: bool, v: real): real {
    if negative then -v else v
  }

  /** Skips the leading whitespace and an optional sign; reports whether the sign was '-'. */
  function SignAndBody(s: string): (r: (bool, string))
    ensures |r.1| <= |s|
  {
    var t := TrimStart(s);
    if |t| > 0 && (t[0] == '-' || t[0] == '+') then (t[0] == '-', t[1..]) else (false, t)
  }

  /**
   * `parseInt(s, 10)`: leading whitespace, an optional sign, then the longest
   * run of decimal digits; NaN when that run is empty.
   */
  function ParseInt(s: string): Number {
    var sb := SignAndBody(s);
    var n := DigitPrefixLength(sb.1);
    if n == 0 then NaN else Finite(ApplySign(sb.0, DigitsValue(sb.1[..n]) as real))
  }

  /** The unsigned decimal at the start of `body`: digits, optionally '.' and digits, at least one digit. */
  function DecimalPrefix(body: string): Option<real> {
    var n := DigitPrefixLength(body);
    var intPart := DigitsValue(body[..n]) as real;
    if n < |body| && body[n] == '.' then
      var rest := body[n + 1..];
      var m := DigitPrefixLength(rest);
      if n == 0 && m == 0 then None else Some(intPart + FractionValue(rest[..m]))
    else if n == 0 then None
    else Some(intPart)
  }

  /**
   * `parseFloat(s)` on decimal notation: leading whitespace, an optional sign,
   * then the longest decimal prefix; NaN when it holds no digit at all.
   */
  function ParseFloat(s: string): Number {
    var sb := SignAndBody(s);
    match DecimalPrefix(sb.1)
    case None => NaN
    case Some(v) => Finite(ApplySign(sb.0, v))
  }

  /** A string starting with a digit has no whitespace or sign to skip. */
  lemma SignAndBodyDigit(s: string)
    requires |s| >= 1 && IsDigit(s[0])
    ensures SignAndBody(s) == (false, s)
  {
  }

  /** Both parsers read a natural's decimal rendering back as that natural. */
  lemma ParseNatToString(n: nat)
    ensures ParseInt(NatToString(n)) == Finite(n as real)
    ensures ParseFloat(NatToString(n)) == Finite(n as real)
  {
    NatToStringValue(n);
    ParseIntDigits(NatToString(n));
    ParseFloatDigits(NatToString(n));
  }

  lemma ParseIntDigits(s: string)
    requires |s| >= 1 && AllDigits(s)
    ensures ParseInt(s) == Finite(DigitsValue(s) as real)
  {
    SignAndBodyDigit(s);
    DigitPrefixAll(s);
    assert s[..|s|] == s;
  }

  lemma {:induction false} DigitPrefixAll(s: string)
    requires AllDigits(s)
    ensures DigitPrefixLength(s) == |s|
  {
    if s != [] {
      DigitPrefixAll(s[1..]);
    }
  }

  /** A string that does not start with a digit, a sign, a '.' or whitespace is NaN to both parsers. */
  lemma ParseNonNumeric(s: string)
    requires |s| > 0 && !IsDigit(s[0]) && s[0] != '.' && s[0] != '-' && s[0] != '+'
    requires !IsJsWhitespace(s[0])
    ensures ParseInt(s) == NaN && ParseFloat(s) == NaN
  {
  }

  lemma ParseEmpty()
    ensures ParseInt("") == NaN && ParseFloat("") == NaN
  {
    assert TrimStart("") == "";
    assert SignAndBody("") == (false, "");
    assert DecimalPrefix("") == None;
  }

  lemma ParseFloatDigits(s: string)
    requires |s| >= 1 && AllDigits(s)
    ensures ParseFloat(s) == Finite(DigitsValue(s) as real)
  {
    SignAndBodyDigit(s);
    DigitPrefixAll(s);
    assert s[..|s|] == s;
    assert DecimalPrefix(s) == Some(DigitsValue(s) as real);
  }

  lemma FractionBelowOne(f: string)
    requires AllDigits(f)
    ensures 0.0 <= FractionValue(f) < 1.0
  {
  }

  // ---------------------------------------------------------------- case

  /**
   * The simple upper-case mapping of the ASCII letters; every other
   * character is left as it is. Unicode's other mappings, and its special
   * casing, where one character becomes several, are not part of this.
   */
  function UpperChar(c: char): (r: char)
    ensures 'a' <= c <= 'z' ==> r as int == c as int - 32
    ensures !('a' <= c <= 'z') ==> r == c
  {
    if 'a' <= c <= 'z' then (c as int - 32) as char else c
  }

  function ToUpper(s: string): (r: string)
    ensures |r| == |s| && forall i :: 0 <= i < |s| ==> r[i] == UpperChar(s[i])
  {
    seq(|s|, i requires 0 <= i < |s| => UpperChar(s[i]))
  }

  /** The ligature 'ﬀ' (U+FB00), whose upper case under Unicode's special casing is "FF". */
  const LigatureFF: char := '\U{FB00}'

  /**
   * The full upper case of one character as `toUpperCase` gives it for the
   * characters the model distinguishes: the ASCII letters, and the ligature
   * 'ﬀ', which becomes the two letters "FF".
   */
  function UpperFull(c: char): (r: string)
    ensures c == LigatureFF ==> r == "FF"
    ensures c != LigatureFF ==> r == [UpperChar(c)]
  {
    if c == LigatureFF then "FF" else [UpperChar(c)]
  }

  /**
   * `toUpperCase`: the full upper cases of the characters, concatenated. It
   * is the simple mapping on text without the ligature, and never shorter
   * than its input.
   */
  function UpperCase(s: string): (r: string)
    ensures LigatureFF !in s ==> r == ToUpper(s)
    ensures |s| <= |r| <= 2 * |s|
  {
    if s == [] then [] else UpperFull(s[0]) + UpperCase(s[1..])
  }

  function LowerChar(c: char): (r: char)
    ensures 'A' <= c <= 'Z' ==> r as int == c as int + 32
    ensures !('A' <= c <= 'Z') ==> r == c
  {
    if 'A' <= c <= 'Z' then (c as int + 32) as char else c
  }

  function ToLower(s: string): (r: string)
    ensures |r| == |s| && forall i :: 0 <= i < |s| ==> r[i] == LowerChar(s[i])
  {
    seq(|s|, i requires 0 <= i < |s| => LowerChar(s[i]))
  }
}
