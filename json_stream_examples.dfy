/**
 * Cases from the stream parser's tests, each proved for any decoder that
 * agrees with `JSON.parse` on the texts the case hands it.
 *
 * The cases rest on general lemmas: where the `}{` search finds its pairs,
 * how the recovery scan walks over a run of plain text, a quoted string or
 * a one-member object, and what the stream parser makes of a buffer of one
 * or two pieces.
 */
module JsonStreamExamples {
  import opened Text
  import opened JsonStream

  // ------------------------------------------------------- the `}{` search

  lemma NoBoundaryIn(s: string, a: nat, b: nat)
    requires a <= b <= |s| && '}' !in s[a..b]
    ensures forall i :: a <= i < b ==> !BoundaryAt(s, i)
  {
    forall i | a <= i < b ensures !BoundaryAt(s, i) {
      assert s[i] == s[a..b][i - a];
    }
  }

  /** Without a '}' before the last character there is no `}{` from `from` on. */
  lemma NoBoundaryFrom(s: string, from: nat)
    requires from < |s| && '}' !in s[from..|s| - 1]
    ensures IndexOfBoundary(s, from) == -1 && Boundaries(s, from) == []
  {
    NoBoundaryIn(s, from, |s| - 1);
  }

  /** A single `}{` at `p`, and no other '}' before the last character. */
  lemma SingleBoundary(s: string, p: nat)
    requires BoundaryAt(s, p) && '}' !in s[..p] && '}' !in s[p + 1..|s| - 1]
    ensures Boundaries(s, 0) == [p] && HasBoundary(s)
  {
    NoBoundaryIn(s, 0, p);
    assert IndexOfBoundary(s, 0) == p;
    NoBoundaryFrom(s, p + 1);
  }

  // ------------------------------------------------------ the recovery scan

  /** The first '{' from `from` on is at `o`. */
  lemma NextOpen(s: string, from: nat, o: nat)
    requires from <= o < |s| && s[o] == '{' && '{' !in s[from..o]
    ensures IndexOfCharFrom(s, '{', from) == o
  {
    forall i | from <= i < o ensures s[i] != '{' {
      assert s[i] == s[from..o][i - from];
    }
  }

  /** Outside a string, text without braces, quotes or backslashes leaves the scan as it was. */
  lemma {:induction false} PlainRun(s: string, j: nat, k: nat, st: ScanState)
    requires j <= k <= |s| && !st.inString && !st.escapeNext
    requires '{' !in s[j..k] && '}' !in s[j..k] && '"' !in s[j..k] && '\\' !in s[j..k]
    ensures CloseBrace(s, j, st) == CloseBrace(s, k, st)
    decreases k - j
  {
    if j < k {
      assert s[j] == s[j..k][0];
      assert s[j + 1..k] == s[j..k][1..];
      PlainRun(s, j + 1, k, st);
    }
  }

  /** Inside a string, text without quotes or backslashes leaves the scan as it was. */
  lemma {:induction false} InStringRun(s: string, j: nat, k: nat, st: ScanState)
    requires j <= k <= |s| && st.inString && !st.escapeNext
    requires '"' !in s[j..k] && '\\' !in s[j..k]
    ensures CloseBrace(s, j, st) == CloseBrace(s, k, st)
    decreases k - j
  {
    if j < k {
      assert s[j] == s[j..k][0];
      assert s[j + 1..k] == s[j..k][1..];
      InStringRun(s, j + 1, k, st);
    }
  }

  /** A quoted string without escapes is passed over, braces inside it included. */
  lemma QuotedRun(s: string, j: nat, k: nat, st: ScanState)
    requires j + 2 <= k <= |s| && !st.inString && !st.escapeNext
    requires s[j] == '"' && s[k - 1] == '"'
    requires '"' !in s[j + 1..k - 1] && '\\' !in s[j + 1..k - 1]
    ensures CloseBrace(s, j, st) == CloseBrace(s, k, st)
  {
    var inside := st.(inString := true);
    assert CloseBrace(s, j, st) == CloseBrace(s, j + 1, inside);
    InStringRun(s, j + 1, k - 1, inside);
    assert CloseBrace(s, k - 1, inside) == CloseBrace(s, k, st);
  }

  /** A '{' outside a string opens one more level. */
  lemma OpenAt(s: string, j: nat, st: ScanState)
    requires j < |s| && s[j] == '{' && !st.inString && !st.escapeNext
    ensures CloseBrace(s, j, st) == CloseBrace(s, j + 1, st.(depth := st.depth + 1))
  {
  }

  /** A '}' outside a string closes the object at depth 1, and otherwise drops a level. */
  lemma CloseAtDepth(s: string, j: nat, st: ScanState)
    requires j < |s| && s[j] == '}' && !st.inString && !st.escapeNext
    ensures st.depth == 1 ==> CloseBrace(s, j, st) == j
    ensures st.depth != 1 ==> CloseBrace(s, j, st) == CloseBrace(s, j + 1, st.(depth := st.depth - 1))
  {
  }

  /**
   * The scan over a one-member object `{"k": "v"}` at `o`, whose key and
   * value have lengths `n` and `m` and hold no quote or backslash: from
   * depth 0 it closes at the object's last character; from a deeper level it
   * passes over the object and goes on at the same depth.
   */
  lemma PairScan(s: string, o: nat, n: nat, m: nat, d: nat)
    requires o + n + m + 8 <= |s|
    requires s[o] == '{' && s[o + 1] == '"' && s[o + n + 2] == '"'
    requires s[o + n + 3] == ':' && s[o + n + 4] == ' ' && s[o + n + 5] == '"'
    requires s[o + n + m + 6] == '"' && s[o + n + m + 7] == '}'
    requires '"' !in s[o + 2..o + n + 2] && '\\' !in s[o + 2..o + n + 2]
    requires '"' !in s[o + n + 6..o + n + m + 6] && '\\' !in s[o + n + 6..o + n + m + 6]
    ensures var e, st := o + n + m + 8, ScanState(d, false, false);
      (d == 0 ==> CloseBrace(s, o, st) == e - 1)
      && (d >= 1 ==> CloseBrace(s, o, st) == CloseBrace(s, e, st))
  {
    var st, up := ScanState(d, false, false), ScanState(d + 1, false, false);
    OpenAt(s, o, st);
    QuotedRun(s, o + 1, o + n + 3, up);
    assert s[o + n + 3..o + n + 5] == [':', ' '];
    PlainRun(s, o + n + 3, o + n + 5, up);
    QuotedRun(s, o + n + 5, o + n + m + 7, up);
    CloseAtDepth(s, o + n + m + 7, up);
  }

  // ------------------------------------------------------- whole buffers

  /** A buffer within the cap goes to the final parse once its leading garbage is cut. */
  lemma StreamWithinCap(s: string, decode: Decoder)
    requires |s| <= MaxBufferSize
    ensures ParseStream(s, decode) == CompleteObjects(Cleanup(s), decode)
  {
    assert Prepared(s, decode) == ([], Cleanup(s));
    assert [] + CompleteObjects(Cleanup(s), decode).0 == CompleteObjects(Cleanup(s), decode).0;
  }

  /** A prefix without braces before an object without an inner '}' is cut at the object's '{'. */
  lemma GarbagePrefix(g: string, v: string)
    requires g != [] && '{' !in g && '}' !in g
    requires StartsWith(v, "{") && '}' !in v[..|v| - 1]
    ensures Cleanup(g + v) == v
  {
    var t := g + v;
    assert t[0] == g[0];
    assert t[..|t| - 1] == g + v[..|v| - 1];
    NoBoundaryFrom(t, 0);
    assert t[..|g|] == g && t[|g|] == '{';
    FirstAt(t, '{', |g|);
    assert t[|g|..] == v;
  }

  /** The first `c` in `s` is at `k`. */
  lemma FirstAt(s: string, c: char, k: nat)
    requires k < |s| && s[k] == c && c !in s[..k]
    ensures IndexOf(s, c) == k
  {
    assert forall i :: 0 <= i < k ==> s[i] == s[..k][i];
    assert forall r :: k < r <= |s| ==> s[..r][k] == c;
  }

  /** A buffer from '{' to '}' without `}{` is tried whole, and consumed whole when that yields a record. */
  lemma OnePiece(s: string, decode: Decoder)
    requires StartsWith(s, "{") && EndsWith(s, "}") && IndexOfBoundary(s, 0) == -1
    ensures CompleteObjects(s, decode) == (TryParse(s, decode), if |TryParse(s, decode)| > 0 then [] else s)
  {
    assert Boundaries(s, 0) == [];
    assert SubstringFrom(s, 0) == s;
    assert SubstringFrom(s, |s|) == [];
    assert [] + TryParse(s, decode) == TryParse(s, decode);
  }

  /** With a single `}{` in a buffer starting with '{', the first piece is tried, then the rest if it ends in '}'. */
  lemma TwoPieces(s: string, p: nat, decode: Decoder)
    requires StartsWith(s, "{") && Boundaries(s, 0) == [p] && HasBoundary(s)
    ensures p + 1 < |s|
    ensures var first, second := TryParse(s[..p + 1], decode), TryParse(s[p + 1..], decode);
      CompleteObjects(s, decode) ==
        if EndsWith(s, "}") then (first + second, if |second| > 0 then [] else s[p + 1..])
        else (first, s[p + 1..])
  {
    assert BoundaryAt(s, p) by { BoundaryIsPair(s, 0, p); }
    assert PieceRecords(s, [p], 1, decode) == TryParse(Substring(s, 0, p + 1), decode);
    assert Substring(s, 0, p + 1) == s[..p + 1];
  }

  // --------------------------------------------------------------- the cases

  /** A buffer within the cap that starts with '{' and has a single `}{`: the pieces on either side are tried. */
  lemma SplitOnce(s: string, p: nat, decode: Decoder)
    requires StartsWith(s, "{") && |s| <= MaxBufferSize
    requires BoundaryAt(s, p) && '}' !in s[..p] && '}' !in s[p + 1..|s| - 1]
    ensures p + 1 < |s|
    ensures var first, second := TryParse(s[..p + 1], decode), TryParse(s[p + 1..], decode);
      ParseStream(s, decode) ==
        if EndsWith(s, "}") then (first + second, if |second| > 0 then [] else s[p + 1..])
        else (first, s[p + 1..])
  {
    SingleBoundary(s, p);
    StreamWithinCap(s, decode);
    TwoPieces(s, p, decode);
  }

  /** The test "single complete JSON object": it is taken, nothing is left. */
  lemma SingleCompleteObject(buffer: string, decode: Decoder)
    requires buffer == "{\"test\": true}"
    requires decode("{\"test\": true}") == Some(Object([Member("test", Bool(true))]))
    ensures ParseStream(buffer, decode) == ([Object([Member("test", Bool(true))])], "")
  {
    assert '}' !in buffer[..|buffer| - 1];
    NoBoundaryFrom(buffer, 0);
    StreamWithinCap(buffer, decode);
    TryParseDecoded(buffer, decode, Object([Member("test", Bool(true))]));
    OnePiece(buffer, decode);
  }

  /** The test "empty buffer": no records, nothing left, whatever the decoder. */
  lemma EmptyBuffer(decode: Decoder)
    ensures ParseStream("", decode) == ([], "")
  {
    StreamWithinCap("", decode);
    assert !HasChar("", '{');
  }

  /** The test "multiple complete JSON objects", its buffer written as the two objects: both are taken, nothing is left. */
  lemma TwoCompleteObjects(buffer: string, decode: Decoder)
    requires buffer == "{\"first\": 1}" + "{\"second\": 2}"
    requires decode("{\"first\": 1}") == Some(Object([Member("first", Num(1.0))]))
    requires decode("{\"second\": 2}") == Some(Object([Member("second", Num(2.0))]))
    ensures ParseStream(buffer, decode)
      == ([Object([Member("first", Num(1.0))]), Object([Member("second", Num(2.0))])], "")
  {
    var a, b := "{\"first\": 1}", "{\"second\": 2}";
    var first, second := Object([Member("first", Num(1.0))]), Object([Member("second", Num(2.0))]);
    assert buffer[..11] == a[..11] && buffer[12..|buffer| - 1] == b[..|b| - 1];
    assert '}' !in a[..11] && '}' !in b[..|b| - 1];
    assert buffer[..12] == a && buffer[12..] == b;
    SplitOnce(buffer, 11, decode);
    TryParseDecoded(a, decode, first);
    TryParseDecoded(b, decode, second);
    assert [first] + [second] == [first, second];
  }

  /** The test "corrupted prefix with valid JSON": the prefix is dropped and the object taken. */
  lemma CorruptedPrefix(buffer: string, decode: Decoder)
    requires buffer == "garbage{\"valid\": true}"
    requires decode("{\"valid\": true}") == Some(Object([Member("valid", Bool(true))]))
    ensures ParseStream(buffer, decode) == ([Object([Member("valid", Bool(true))])], "")
  {
    var g, v := "garbage", "{\"valid\": true}";
    var valid := Object([Member("valid", Bool(true))]);
    assert buffer == g + v;
    assert '{' !in g && '}' !in g && '}' !in v[..|v| - 1];
    GarbagePrefix(g, v);
    StreamWithinCap(buffer, decode);
    NoBoundaryFrom(v, 0);
    TryParseDecoded(v, decode, valid);
    OnePiece(v, decode);
  }

  /**
   * The test "deeply nested embedded JSON", its buffer written as its five
   * parts: the buffer does not decode, so the recovery scan runs. The scans
   * from the first two '{' never return to depth 0; the two well-formed
   * objects are recovered, in order.
   */
  lemma DeeplyNestedEmbedded(buffer: string, decode: Decoder)
    requires buffer == "{bad" + "{also bad" + "{\"good\": \"data\"}" + "still bad" + "{\"another\": \"good\"}"
    requires decode(buffer) == None
    requires decode("{\"good\": \"data\"}") == Some(Object([Member("good", Str("data"))]))
    requires decode("{\"another\": \"good\"}") == Some(Object([Member("another", Str("good"))]))
    ensures ParseStream(buffer, decode)
      == ([Object([Member("good", Str("data"))]), Object([Member("another", Str("good"))])], "")
  {
    var s := buffer;
    var good, another := Object([Member("good", Str("data"))]), Object([Member("another", Str("good"))]);
    ScanFacts(s);
    NestedParts(s);
    NestedScans(s);
    assert NextRound(s, 0, decode) == Skip(1);
    assert NextRound(s, 1, decode) == Skip(5);
    var g, a := "{\"good\": \"data\"}", "{\"another\": \"good\"}";
    assert s[13..29] == g && s[38..57] == a;
    assert DecodeObject(decode, g) == Some(good);
    assert NextRound(s, 5, decode) == Take(Found(13, 28, good));
    assert DecodeObject(decode, a) == Some(another);
    assert NextRound(s, 29, decode) == Take(Found(38, 56, another));
    assert EmbeddedFrom(s, 57, decode) == [];
    assert EmbeddedFrom(s, 29, decode) == [Found(38, 56, another)];
    assert EmbeddedFrom(s, 5, decode) == [Found(13, 28, good), Found(38, 56, another)];
    assert EmbeddedFrom(s, 0, decode) == EmbeddedFrom(s, 1, decode) == EmbeddedFrom(s, 5, decode);
    var fs := [Found(13, 28, good), Found(38, 56, another)];
    assert fs[1..] == [Found(38, 56, another)] && fs[1..][1..] == [];
    assert RecordsOf(fs[1..]) == [another];
    assert Embedded(s, decode) == [good, another];
    StreamWithinCap(s, decode);
    OnePiece(s, decode);
  }

  /** The nested case's scans, candidates and (missing) boundaries. */
  lemma NestedScans(s: string)
    requires NestedShape(s)
    ensures CloseBrace(s, 0, ScanStart) == -1 && CloseBrace(s, 4, ScanStart) == -1
    ensures CloseBrace(s, 13, ScanStart) == 28 && CloseBrace(s, 38, ScanStart) == 56
    ensures IndexOfCharFrom(s, '{', 0) == 0 && IndexOfCharFrom(s, '{', 1) == 4
    ensures IndexOfCharFrom(s, '{', 5) == 13 && IndexOfCharFrom(s, '{', 29) == 38
    ensures IndexOfBoundary(s, 0) == -1
  {
    NestedOuterScans(s);
    PairScan(s, 13, 4, 4, 0);
    PairScan(s, 38, 7, 4, 0);
    NestedCandidates(s);
  }

  /** The text the nested case's scans look at: its braces, quotes and plain runs. */
  predicate NestedShape(s: string) {
    NestedRuns(s) && NestedPairs(s)
  }

  /** Outside the two objects: the braces at 0 and 4, the plain runs, and no '}' but the objects' own. */
  predicate NestedRuns(s: string) {
    |s| == 57 && s[0] == '{' && s[4] == '{'
    && (var r := s[1..4]; '{' !in r && '}' !in r && '"' !in r && '\\' !in r)
    && (var r := s[5..13]; '{' !in r && '}' !in r && '"' !in r && '\\' !in r)
    && (var r := s[29..38]; '{' !in r && '}' !in r && '"' !in r && '\\' !in r)
    && s[29] == 's' && '}' !in s[..28] && '}' !in s[29..56]
  }

  /** The two objects `{"good": "data"}` at 13 and `{"another": "good"}` at 38. */
  predicate NestedPairs(s: string) {
    |s| == 57
    && s[13] == '{' && s[14] == '"' && s[19] == '"' && s[20] == ':' && s[21] == ' ' && s[22] == '"'
    && s[27] == '"' && s[28] == '}'
    && '"' !in s[15..19] && '\\' !in s[15..19] && '"' !in s[23..27] && '\\' !in s[23..27]
    && s[38] == '{' && s[39] == '"' && s[47] == '"' && s[48] == ':' && s[49] == ' ' && s[50] == '"'
    && s[55] == '"' && s[56] == '}'
    && '"' !in s[40..47] && '\\' !in s[40..47] && '"' !in s[51..55] && '\\' !in s[51..55]
  }

  /** The scans from the '{' at 0 and at 4 end at depth 2 and 1: they find no close. */
  lemma NestedOuterScans(s: string)
    requires NestedShape(s)
    ensures CloseBrace(s, 0, ScanStart) == -1 && CloseBrace(s, 4, ScanStart) == -1
  {
    var s0, s1, s2 := ScanState(0, false, false), ScanState(1, false, false), ScanState(2, false, false);
    OpenAt(s, 0, s0);
    PlainRun(s, 1, 4, s1);
    OpenAt(s, 4, s1);
    PlainRun(s, 5, 13, s2);
    PairScan(s, 13, 4, 4, 2);
    PlainRun(s, 29, 38, s2);
    PairScan(s, 38, 7, 4, 2);
    OpenAt(s, 4, s0);
    PlainRun(s, 5, 13, s1);
    PairScan(s, 13, 4, 4, 1);
    PlainRun(s, 29, 38, s1);
    PairScan(s, 38, 7, 4, 1);
  }

  /** Where the nested case's rounds find their '{', and that it has no `}{`: the only inner '}' is followed by 's'. */
  lemma NestedCandidates(s: string)
    requires NestedShape(s)
    ensures IndexOfCharFrom(s, '{', 0) == 0 && IndexOfCharFrom(s, '{', 1) == 4
    ensures IndexOfCharFrom(s, '{', 5) == 13 && IndexOfCharFrom(s, '{', 29) == 38
    ensures IndexOfBoundary(s, 0) == -1
  {
    NextOpen(s, 0, 0);
    NextOpen(s, 1, 4);
    NextOpen(s, 5, 13);
    NextOpen(s, 29, 38);
    NoBoundaryIn(s, 0, 28);
    NoBoundaryIn(s, 29, 56);
  }

  /** The characters of the nested case's buffer that its scans look at. */
  lemma ScanFacts(s: string)
    requires s == "{bad" + "{also bad" + "{\"good\": \"data\"}" + "still bad" + "{\"another\": \"good\"}"
    ensures NestedShape(s)
  {
    NestedRunsFacts(s);
    NestedPairsFacts(s);
  }

  lemma NestedRunsFacts(s: string)
    requires s == "{bad" + "{also bad" + "{\"good\": \"data\"}" + "still bad" + "{\"another\": \"good\"}"
    ensures NestedRuns(s)
  {
  }

  lemma NestedPairsFacts(s: string)
    requires s == "{bad" + "{also bad" + "{\"good\": \"data\"}" + "still bad" + "{\"another\": \"good\"}"
    ensures NestedPairs(s)
  {
  }

  /** The nested case's buffer runs from '{' to '}' and holds its two objects at 13 and 38. */
  lemma NestedParts(s: string)
    requires s == "{bad" + "{also bad" + "{\"good\": \"data\"}" + "still bad" + "{\"another\": \"good\"}"
    ensures StartsWith(s, "{") && EndsWith(s, "}") && HasChar(s, '{')
    ensures s[13..29] == "{\"good\": \"data\"}" && s[38..57] == "{\"another\": \"good\"}"
  {
  }

  /** The test "partial valid object at end", its buffer written as its two parts: the complete object is taken, the partial one kept. */
  lemma PartialObjectKept(buffer: string, decode: Decoder)
    requires buffer == "{\"complete\": true}" + "{\"partial\": "
    requires decode("{\"complete\": true}") == Some(Object([Member("complete", Bool(true))]))
    ensures ParseStream(buffer, decode) == ([Object([Member("complete", Bool(true))])], "{\"partial\": ")
  {
    var a, b := "{\"complete\": true}", "{\"partial\": ";
    assert buffer[..17] == a[..17] && buffer[18..|buffer| - 1] == b[..|b| - 1];
    assert '}' !in a[..17] && '}' !in b[..|b| - 1];
    assert buffer[..18] == a && buffer[18..] == b;
    assert buffer[|buffer| - 1] == ' ';
    assert !EndsWith(buffer, "}");
    SplitOnce(buffer, 17, decode);
    TryParseDecoded(a, decode, Object([Member("complete", Bool(true))]));
  }

  /** The tests "incomplete JSON object" and "incomplete JSON fragment": no '}', so the buffer stays whole, whatever the decoder. */
  lemma IncompleteKept(buffer: string, decode: Decoder)
    requires buffer == "{\"incomplete\": " || buffer == "{\"Handle\":2,\"ScanData\":\"L{"
    ensures ParseStream(buffer, decode) == ([], buffer)
  {
    assert '}' !in buffer && buffer[0] == '{';
    NoBoundaryFrom(buffer, 0);
    assert !EndsWith(buffer, "}");
    assert !HasChar(buffer, '}');
    StreamWithinCap(buffer, decode);
  }
}
