/**
 * Recovery of JSON objects from a stream of concatenated and possibly
 * corrupted text: splitting at `}{`, a brace- and string-aware scan for
 * objects embedded in garbage, leading-garbage cleanup and a cap on the
 * retained buffer. Only top-level objects (RFC 8259 section 4) are emitted.
 */
module JsonStream {
  import opened Text

  /** A JSON value (RFC 8259 section 3); only its kind matters to the parser. */
  datatype Json =
    | Object(members: seq<Member>)
    | Array(items: seq<Json>)
    | Str(text: string)
    | Num(value: real)
    | Bool(b: bool)
    | Null
  datatype Member = Member(name: string, value: Json)

  /**
   * `JSON.parse` is not modelled: a decoder maps a text to the value it
   * parses to, or to None where `JSON.parse` throws.
   */
  type Decoder = string -> Option<Json>

  const MaxBufferSize: nat := 200 * 1024

  /** `isValidJsonObject`: an object, not null, not an array, not a primitive. */
  predicate IsValidJsonObject(j: Json) {
    j.Object?
  }

  predicate AllObjects(js: seq<Json>) {
    forall k :: 0 <= k < |js| ==> IsValidJsonObject(js[k])
  }

  lemma AllObjectsConcat(a: seq<Json>, b: seq<Json>)
    requires AllObjects(a) && AllObjects(b)
    ensures AllObjects(a + b)
  {
    forall k | 0 <= k < |a + b| ensures IsValidJsonObject((a + b)[k]) {
      if k >= |a| {
        assert (a + b)[k] == b[k - |a|];
      }
    }
  }

  /** A decode that yields an object, and nothing otherwise. */
  function DecodeObject(decode: Decoder, text: string): (r: Option<Json>)
    ensures r.Some? ==> IsValidJsonObject(r.value) && decode(text) == r
    ensures decode(text).Some? && IsValidJsonObject(decode(text).value) ==> r.Some?
  {
    match decode(text)
    case Some(j) => if IsValidJsonObject(j) then Some(j) else None
    case None => None
  }

  // ------------------------------------------------------- the recovery scan

  /** What the scan tracks: brace depth outside strings, whether it is inside a string, and a pending escape. */
  datatype ScanState = ScanState(depth: int, inString: bool, escapeNext: bool)

  const ScanStart := ScanState(0, false, false)

  /**
   * One character of the scan: an escaped character is skipped, a backslash
   * escapes the next one, a quote toggles string mode, and braces count only
   * outside strings.
   */
  function Step(st: ScanState, c: char): ScanState {
    if st.escapeNext then st.(escapeNext := false)
    else if c == '\\' then st.(escapeNext := true)
    else if c == '"' then st.(inString := !st.inString)
    else if st.inString then st
    else if c == '{' then st.(depth := st.depth + 1)
    else if c == '}' then st.(depth := st.depth - 1)
    else st
  }

  /** Whether one step decrements the depth to zero: a counted `}` that closes the object. */
  predicate Closes(st: ScanState, c: char) {
    var next := Step(st, c);
    next.depth == st.depth - 1 && next.depth == 0
  }

  /** The scan state after the characters `s[j..k]`, starting from `st`. */
  function ScanTo(s: string, j: nat, k: nat, st: ScanState): ScanState
    requires j <= k <= |s|
    decreases k - j
  {
    if k == j then st else Step(ScanTo(s, j, k - 1, st), s[k - 1])
  }

  /** The inner `for` loop of `extractEmbeddedJson`: the index of the closing brace from `j` in state `st`, or -1. */
  function CloseBrace(s: string, j: nat, st: ScanState): (r: int)
    requires j <= |s|
    ensures r == -1 || (j <= r < |s| && s[r] == '}')
    decreases |s| - j
  {
    if j == |s| then -1
    else if Closes(st, s[j]) then j
    else CloseBrace(s, j + 1, Step(st, s[j]))
  }

  /** Before the close, a step keeps the depth positive and the close where it was. */
  lemma OpenStep(s: string, o: nat, k: nat, r: int)
    requires o <= k < |s|
    requires ScanTo(s, o, k, ScanStart).depth >= 1
    requires CloseBrace(s, k, ScanTo(s, o, k, ScanStart)) == r
    requires r == -1 || k < r
    ensures ScanTo(s, o, k + 1, ScanStart).depth >= 1
    ensures CloseBrace(s, k + 1, ScanTo(s, o, k + 1, ScanStart)) == r
  {
    var st := ScanTo(s, o, k, ScanStart);
    assert !Closes(st, s[k]);
    assert ScanTo(s, o, k + 1, ScanStart) == Step(st, s[k]);
  }

  /**
   * Starting at an open brace, the close the scan finds is the first point at
   * which the depth counted outside strings returns to zero: the depth stays
   * positive before it, and without a close it stays positive to the end.
   */
  lemma {:induction false} CloseBraceBalanced(s: string, o: nat)
    requires o < |s| && s[o] == '{'
    ensures var r := CloseBrace(s, o, ScanStart);
      (r >= 0 ==> o < r && ScanTo(s, o, r + 1, ScanStart).depth == 0)
      && (forall k :: o < k <= (if r >= 0 then r else |s|) ==> ScanTo(s, o, k, ScanStart).depth >= 1)
  {
    var r := CloseBrace(s, o, ScanStart);
    var bound := if r >= 0 then r else |s|;
    assert ScanTo(s, o, o + 1, ScanStart) == ScanState(1, false, false);
    var k := o + 1;
    while k < bound
      invariant o < k <= bound
      invariant forall m :: o < m <= k ==> ScanTo(s, o, m, ScanStart).depth >= 1
      invariant CloseBrace(s, k, ScanTo(s, o, k, ScanStart)) == r
    {
      OpenStep(s, o, k, r);
      k := k + 1;
    }
    if r >= 0 {
      CloseAt(s, o, r);
    }
  }

  lemma CloseAt(s: string, o: nat, r: nat)
    requires o <= r < |s|
    requires CloseBrace(s, r, ScanTo(s, o, r, ScanStart)) == r
    ensures ScanTo(s, o, r + 1, ScanStart).depth == 0
  {
    assert Closes(ScanTo(s, o, r, ScanStart), s[r]);
  }

  /** Braces between quotes do not count: inside a string, text without quotes or backslashes leaves the state unchanged. */
  lemma {:induction false} QuotedBracesIgnored(s: string, o: nat, j: nat, k: nat)
    requires o <= j <= k <= |s|
    requires ScanTo(s, o, j, ScanStart).inString && !ScanTo(s, o, j, ScanStart).escapeNext
    requires forall i :: j <= i < k ==> s[i] != '"' && s[i] != '\\'
    ensures ScanTo(s, o, k, ScanStart) == ScanTo(s, o, j, ScanStart)
    decreases k - j
  {
    if k > j {
      QuotedBracesIgnored(s, o, j, k - 1);
    }
  }

  /** A backslash makes the scan skip the next character, so an escaped quote does not toggle string mode. */
  lemma EscapeSkipsNext(st: ScanState, c: char)
    requires !st.escapeNext
    ensures Step(Step(st, '\\'), c) == st
  {
  }

  /** The inner scan, as the source writes it. */
  method FindCloseBrace(s: string, openBraceIndex: nat) returns (closeBraceIndex: int)
    requires openBraceIndex <= |s|
    ensures closeBraceIndex == CloseBrace(s, openBraceIndex, ScanStart)
  {
    var braceCount := 0;
    var inString := false;
    var escapeNext := false;
    closeBraceIndex := -1;
    var j := openBraceIndex;
    while j < |s|
      invariant openBraceIndex <= j <= |s|
      invariant CloseBrace(s, j, ScanState(braceCount, inString, escapeNext)) == CloseBrace(s, openBraceIndex, ScanStart)
    {
      var c := s[j];
      ghost var st := ScanState(braceCount, inString, escapeNext);
      if escapeNext {
        escapeNext := false;
      } else if c == '\\' {
        escapeNext := true;
      } else if c == '"' {
        inString := !inString;
      } else if !inString {
        if c == '{' {
          braceCount := braceCount + 1;
        } else if c == '}' {
          braceCount := braceCount - 1;
          if braceCount == 0 {
            assert CloseBrace(s, j, st) == j;
            closeBraceIndex := j;
            break;
          }
        }
      }
      assert ScanState(braceCount, inString, escapeNext) == Step(st, c);
      assert CloseBrace(s, j, st) == CloseBrace(s, j + 1, Step(st, c));
      j := j + 1;
    }
  }

  // ---------------------------------------------------- embedded extraction

  /** An object the scan recovered: its braces are at `open` and `close`. */
  datatype Found = Found(open: nat, close: nat, record: Json)

  /** A recovered object lies at or after `from`, between a `{` and a `}`, and is what its own text decodes to. */
  predicate InText(s: string, f: Found, from: nat, decode: Decoder) {
    from <= f.open < f.close < |s|
    && s[f.open] == '{' && s[f.close] == '}'
    && DecodeObject(decode, s[f.open..f.close + 1]) == Some(f.record)
  }

  /** The outcome of one round of the outer loop. */
  datatype Round = Stop | Skip(next: nat) | Take(found: Found)

  /**
   * One round of the outer loop of `extractEmbeddedJson` at index `i`: with
   * no further `{` the scan stops; a candidate that closes and decodes to an
   * object is taken; otherwise the scan moves one past that `{`.
   */
  function NextRound(s: string, i: nat, decode: Decoder): (r: Round)
    ensures r.Skip? ==> i < r.next <= |s|
    ensures r.Take? ==> InText(s, r.found, i, decode)
  {
    var o := IndexOfCharFrom(s, '{', i);
    if o == -1 then Stop
    else
      var c := CloseBrace(s, o, ScanStart);
      var d := if c == -1 then None else DecodeObject(decode, s[o..c + 1]);
      if d.Some? then Take(Found(o, c, d.value)) else Skip(o + 1)
  }

  /** The objects the outer loop recovers from index `i` on, in the order it finds them. */
  function EmbeddedFrom(s: string, i: nat, decode: Decoder): seq<Found>
    decreases |s| - i
  {
    if i >= |s| then []
    else
      match NextRound(s, i, decode)
      case Stop => []
      case Skip(next) => EmbeddedFrom(s, next, decode)
      case Take(f) => [f] + EmbeddedFrom(s, f.close + 1, decode)
  }

  function RecordsOf(fs: seq<Found>): (r: seq<Json>)
    ensures |r| == |fs|
  {
    if fs == [] then [] else [fs[0].record] + RecordsOf(fs[1..])
  }

  lemma {:induction false} RecordsOfConcat(a: seq<Found>, b: seq<Found>)
    ensures RecordsOf(a + b) == RecordsOf(a) + RecordsOf(b)
    decreases |a|
  {
    if a != [] {
      assert (a + b)[1..] == a[1..] + b;
      RecordsOfConcat(a[1..], b);
    } else {
      assert a + b == b;
    }
  }

  /** The records `extractEmbeddedJson` pushes. */
  function Embedded(s: string, decode: Decoder): seq<Json> {
    RecordsOf(EmbeddedFrom(s, 0, decode))
  }

  /** Every recovered object of `fs` lies in the text at or after `from`. */
  predicate AllInText(s: string, fs: seq<Found>, from: nat, decode: Decoder) {
    forall k :: 0 <= k < |fs| ==> InText(s, fs[k], from, decode)
  }

  /** Each object ends before the next one starts. */
  predicate Ordered(fs: seq<Found>) {
    forall k :: 0 < k < |fs| ==> fs[k - 1].close < fs[k].open
  }

  lemma AllInTextWeaken(s: string, fs: seq<Found>, from: nat, from': nat, decode: Decoder)
    requires from' <= from && AllInText(s, fs, from, decode)
    ensures AllInText(s, fs, from', decode)
  {
    forall k | 0 <= k < |fs| ensures InText(s, fs[k], from', decode) {
      assert InText(s, fs[k], from, decode);
    }
  }

  lemma AllInTextCons(s: string, f: Found, fs: seq<Found>, from: nat, decode: Decoder)
    requires InText(s, f, from, decode) && AllInText(s, fs, from, decode)
    ensures AllInText(s, [f] + fs, from, decode)
  {
    forall k | 0 <= k < |[f] + fs| ensures InText(s, ([f] + fs)[k], from, decode) {
      if k > 0 {
        assert ([f] + fs)[k] == fs[k - 1];
      }
    }
  }

  /** Each recovered object is the object decoded from the text between its own braces, at or after the start index. */
  lemma {:induction false} EmbeddedInText(s: string, i: nat, decode: Decoder)
    ensures AllInText(s, EmbeddedFrom(s, i, decode), i, decode)
    decreases |s| - i
  {
    if i < |s| {
      match NextRound(s, i, decode)
      case Stop =>
      case Skip(next) =>
        assert EmbeddedFrom(s, i, decode) == EmbeddedFrom(s, next, decode);
        EmbeddedInText(s, next, decode);
        AllInTextWeaken(s, EmbeddedFrom(s, next, decode), next, i, decode);
      case Take(f) =>
        var rest := EmbeddedFrom(s, f.close + 1, decode);
        assert EmbeddedFrom(s, i, decode) == [f] + rest;
        EmbeddedInText(s, f.close + 1, decode);
        AllInTextWeaken(s, rest, f.close + 1, i, decode);
        AllInTextCons(s, f, rest, i, decode);
    }
  }

  /**
   * The scan index strictly increases, so recovered objects come in
   * left-to-right order and do not overlap.
   */
  lemma {:induction false} EmbeddedOrdered(s: string, i: nat, decode: Decoder)
    ensures Ordered(EmbeddedFrom(s, i, decode))
    decreases |s| - i
  {
    if i < |s| {
      match NextRound(s, i, decode)
      case Stop =>
      case Skip(next) =>
        assert EmbeddedFrom(s, i, decode) == EmbeddedFrom(s, next, decode);
        EmbeddedOrdered(s, next, decode);
      case Take(f) =>
        var rest := EmbeddedFrom(s, f.close + 1, decode);
        assert EmbeddedFrom(s, i, decode) == [f] + rest;
        EmbeddedOrdered(s, f.close + 1, decode);
        FirstAfter(s, f.close + 1, decode);
        OrderedCons(f, rest, f.close + 1);
    }
  }

  lemma FirstAfter(s: string, j: nat, decode: Decoder)
    ensures EmbeddedFrom(s, j, decode) != [] ==> j <= EmbeddedFrom(s, j, decode)[0].open
  {
    if EmbeddedFrom(s, j, decode) != [] {
      EmbeddedInText(s, j, decode);
      assert InText(s, EmbeddedFrom(s, j, decode)[0], j, decode);
    }
  }

  lemma OrderedCons(f: Found, fs: seq<Found>, from: nat)
    requires Ordered(fs) && f.close < from && (fs != [] ==> from <= fs[0].open)
    ensures Ordered([f] + fs)
  {
    var gs := [f] + fs;
    forall k | 0 < k < |gs| ensures gs[k - 1].close < gs[k].open {
      assert gs[k] == fs[k - 1];
      if k > 1 {
        assert gs[k - 1] == fs[k - 2];
      }
    }
  }

  /** Every record the scan recovers is an object. */
  lemma {:induction false} EmbeddedObjects(s: string, i: nat, decode: Decoder)
    ensures AllObjects(RecordsOf(EmbeddedFrom(s, i, decode)))
    decreases |s| - i
  {
    if i < |s| {
      match NextRound(s, i, decode)
      case Stop =>
      case Skip(next) =>
        EmbeddedObjects(s, next, decode);
      case Take(f) =>
        EmbeddedObjects(s, f.close + 1, decode);
        var rest := EmbeddedFrom(s, f.close + 1, decode);
        assert ([f] + rest)[1..] == rest;
        AllObjectsConcat([f.record], RecordsOf(rest));
    }
  }

  /** One round of the outer loop, as the source writes it. */
  method ScanRound(corruptedStr: string, i: nat, decode: Decoder) returns (round: Round)
    ensures round == NextRound(corruptedStr, i, decode)
  {
    var openBraceIndex := IndexOfCharFrom(corruptedStr, '{', i);
    if openBraceIndex == -1 {
      return Stop;
    }
    var closeBraceIndex := FindCloseBrace(corruptedStr, openBraceIndex);
    if closeBraceIndex != -1 {
      var candidateJson := Substring(corruptedStr, openBraceIndex, closeBraceIndex + 1);
      var parsed := decode(candidateJson);
      if parsed.Some? && IsValidJsonObject(parsed.value) {
        return Take(Found(openBraceIndex, closeBraceIndex, parsed.value));
      }
    }
    return Skip(openBraceIndex + 1);
  }

  /** The list after pushing the records recovered from `i` on onto `acc`. */
  function EmbeddedInto(s: string, i: nat, decode: Decoder, acc: seq<Json>): seq<Json> {
    acc + RecordsOf(EmbeddedFrom(s, i, decode))
  }

  /** How one round of the outer loop advances the pushed list. */
  lemma EmbeddedIntoStep(s: string, i: nat, decode: Decoder, acc: seq<Json>)
    requires i < |s|
    ensures NextRound(s, i, decode).Stop? ==> EmbeddedInto(s, i, decode, acc) == acc
    ensures NextRound(s, i, decode).Skip? ==>
      EmbeddedInto(s, i, decode, acc) == EmbeddedInto(s, NextRound(s, i, decode).next, decode, acc)
    ensures NextRound(s, i, decode).Take? ==>
      var f := NextRound(s, i, decode).found;
      EmbeddedInto(s, i, decode, acc) == EmbeddedInto(s, f.close + 1, decode, acc + [f.record])
  {
    if NextRound(s, i, decode).Take? {
      var f := NextRound(s, i, decode).found;
      var rest := EmbeddedFrom(s, f.close + 1, decode);
      assert ([f] + rest)[1..] == rest;
      assert acc + ([f.record] + RecordsOf(rest)) == acc + [f.record] + RecordsOf(rest);
    }
  }

  /** `extractEmbeddedJson`: pushes the recovered objects and returns how many. */
  method ExtractEmbeddedJson(corruptedStr: string, decode: Decoder, jsonObjects: seq<Json>)
    returns (extractedCount: nat, objects: seq<Json>)
    ensures objects == jsonObjects + Embedded(corruptedStr, decode)
    ensures extractedCount == |Embedded(corruptedStr, decode)|
  {
    extractedCount := 0;
    objects := jsonObjects;
    var i := 0;
    while i < |corruptedStr|
      invariant i <= |corruptedStr|
      invariant EmbeddedInto(corruptedStr, i, decode, objects) == EmbeddedInto(corruptedStr, 0, decode, jsonObjects)
      invariant |objects| == |jsonObjects| + extractedCount
      decreases |corruptedStr| - i
    {
      EmbeddedIntoStep(corruptedStr, i, decode, objects);
      var round := ScanRound(corruptedStr, i, decode);
      match round
      case Stop =>
        break;
      case Skip(next) =>
        i := next;
      case Take(f) =>
        objects := objects + [f.record];
        extractedCount := extractedCount + 1;
        i := f.close + 1;
    }
    assert EmbeddedInto(corruptedStr, i, decode, objects) == objects;
  }

  // ------------------------------------------------------------ try a piece

  /**
   * `tryParseAndAdd`: the records added for one piece; it reports success
   * exactly when this is not empty. A decoded non-object is rejected without
   * recovery; a piece that does not decode but holds a `{` and ends in `}`
   * gets the embedded scan.
   */
  function TryParse(jsonStr: string, decode: Decoder): seq<Json> {
    match decode(jsonStr)
    case Some(j) => if IsValidJsonObject(j) then [j] else []
    case None => if HasChar(jsonStr, '{') && EndsWith(jsonStr, "}") then Embedded(jsonStr, decode) else []
  }

  /** Whatever `tryParseAndAdd` adds is an object. */
  lemma TryParseObjects(jsonStr: string, decode: Decoder)
    ensures AllObjects(TryParse(jsonStr, decode))
  {
    EmbeddedObjects(jsonStr, 0, decode);
  }

  /** A piece that decodes to an object is added as that single record. */
  lemma TryParseDecoded(jsonStr: string, decode: Decoder, j: Json)
    requires decode(jsonStr) == Some(j)
    ensures TryParse(jsonStr, decode) == if IsValidJsonObject(j) then [j] else []
  {
  }

  method TryParseAndAdd(jsonStr: string, decode: Decoder, jsonObjects: seq<Json>)
    returns (added: bool, objects: seq<Json>)
    ensures objects == jsonObjects + TryParse(jsonStr, decode)
    ensures added <==> |TryParse(jsonStr, decode)| > 0
  {
    var parsed := decode(jsonStr);
    if parsed.Some? {
      if IsValidJsonObject(parsed.value) {
        return true, jsonObjects + [parsed.value];
      }
      return false, jsonObjects;
    }
    if HasChar(jsonStr, '{') && EndsWith(jsonStr, "}") {
      var extractedCount;
      extractedCount, objects := ExtractEmbeddedJson(jsonStr, decode, jsonObjects);
      if extractedCount > 0 {
        return true, objects;
      }
      assert Embedded(jsonStr, decode) == [];
    }
    return false, jsonObjects;
  }

  // --------------------------------------------------------- `}{` splitting

  /** A `}{` pair starts at `i`. */
  predicate BoundaryAt(s: string, i: int) {
    0 <= i && i + 1 < |s| && s[i] == '}' && s[i + 1] == '{'
  }

  /** `s.indexOf('}{', from)`: the first `}{` at or after `from`, or -1. */
  function IndexOfBoundary(s: string, from: nat): (r: int)
    ensures r == -1 || (from <= r && BoundaryAt(s, r))
    ensures r == -1 ==> forall i :: from <= i ==> !BoundaryAt(s, i)
    ensures r >= 0 ==> forall i :: from <= i < r ==> !BoundaryAt(s, i)
    decreases |s| - from
  {
    if from + 1 >= |s| then -1
    else if s[from] == '}' && s[from + 1] == '{' then from
    else IndexOfBoundary(s, from + 1)
  }

  /** The pair search is the general substring search for `}{`. */
  lemma {:induction false} IndexOfBoundaryIsIndexOf(s: string, from: nat)
    ensures IndexOfBoundary(s, from) == IndexOfFrom(s, "}{", from)
    decreases |s| - from
  {
    if from + 1 < |s| {
      var w := s[from..from + 2];
      assert w[0] == s[from] && w[1] == s[from + 1];
      assert w == "}{" <==> s[from] == '}' && s[from + 1] == '{';
      IndexOfBoundaryIsIndexOf(s, from + 1);
    }
  }

  /** `buffer.includes('}{')`. */
  predicate HasBoundary(s: string) {
    IndexOfBoundary(s, 0) != -1
  }

  lemma HasBoundaryIsIncludes(s: string)
    ensures HasBoundary(s) <==> Includes(s, "}{")
  {
    IndexOfBoundaryIsIndexOf(s, 0);
  }

  /** The boundary search loop: the positions of `}{` found from `from` on. */
  function Boundaries(s: string, from: nat): seq<nat>
    decreases |s| - from
  {
    if from >= |s| then []
    else
      var f := IndexOfBoundary(s, from);
      if f == -1 then [] else [f] + Boundaries(s, f + 1)
  }

  predicate Increasing(bs: seq<nat>) {
    forall k :: 0 < k < |bs| ==> bs[k - 1] < bs[k]
  }

  /** Every boundary found is a `}{` pair at or after `from`. */
  lemma {:induction false} BoundaryIsPair(s: string, from: nat, p: nat)
    requires p in Boundaries(s, from)
    ensures from <= p && BoundaryAt(s, p)
    decreases |s| - from
  {
    var f := IndexOfBoundary(s, from);
    var rest := Boundaries(s, f + 1);
    assert Boundaries(s, from) == [f] + rest;
    if p != f {
      assert p in rest;
      BoundaryIsPair(s, f + 1, p);
    }
  }

  /** Every `}{` pair at or after `from` is found. */
  lemma {:induction false} PairIsBoundary(s: string, from: nat, p: nat)
    requires from <= p && BoundaryAt(s, p)
    ensures p in Boundaries(s, from)
    decreases |s| - from
  {
    var f := IndexOfBoundary(s, from);
    var rest := Boundaries(s, f + 1);
    assert Boundaries(s, from) == [f] + rest;
    if p != f {
      PairIsBoundary(s, f + 1, p);
    }
  }

  /** The boundaries are exactly the `}{` pairs from `from` on. */
  lemma BoundariesExact(s: string, from: nat)
    ensures forall p: nat :: p in Boundaries(s, from) <==> from <= p && BoundaryAt(s, p)
  {
    forall p: nat ensures p in Boundaries(s, from) <==> from <= p && BoundaryAt(s, p) {
      if p in Boundaries(s, from) {
        BoundaryIsPair(s, from, p);
      }
      if from <= p && BoundaryAt(s, p) {
        PairIsBoundary(s, from, p);
      }
    }
  }

  /** The boundaries come in increasing order. */
  lemma {:induction false} BoundariesIncreasing(s: string, from: nat)
    ensures Increasing(Boundaries(s, from))
    ensures forall k :: 0 <= k < |Boundaries(s, from)| ==> from <= Boundaries(s, from)[k]
    decreases |s| - from
  {
    if from < |s| {
      var f := IndexOfBoundary(s, from);
      if f != -1 {
        BoundariesIncreasing(s, f + 1);
        var rest := Boundaries(s, f + 1);
        var bs := [f] + rest;
        assert Boundaries(s, from) == bs;
        forall k | 0 < k < |bs| ensures bs[k - 1] < bs[k] {
          assert bs[k] == rest[k - 1];
          if k > 1 {
            assert bs[k - 1] == rest[k - 2];
          }
        }
      }
    }
  }

  method FindBoundaries(buffer: string) returns (boundaries: seq<nat>)
    ensures boundaries == Boundaries(buffer, 0)
  {
    boundaries := [];
    var searchIndex := 0;
    while searchIndex < |buffer|
      invariant boundaries + Boundaries(buffer, searchIndex) == Boundaries(buffer, 0)
      decreases |buffer| - searchIndex
    {
      var foundIndex := IndexOfBoundary(buffer, searchIndex);
      if foundIndex == -1 {
        break;
      }
      ghost var rest := Boundaries(buffer, foundIndex + 1);
      assert Boundaries(buffer, searchIndex) == [foundIndex] + rest;
      assert boundaries + [foundIndex] + rest == boundaries + ([foundIndex] + rest);
      boundaries := boundaries + [foundIndex];
      searchIndex := foundIndex + 1;
    }
    assert boundaries + [] == boundaries;
  }

  /** Where piece i starts: at 0 for the first, one past boundary i - 1 for the others. */
  function PieceStart(bounds: seq<nat>, i: nat): nat
    requires i <= |bounds|
  {
    if i == 0 then 0 else bounds[i - 1] + 1
  }

  /**
   * The records of the first k rounds of the `for` loop over the boundaries:
   * piece i is `substring(PieceStart(i), bounds[i] + 1)`, tried on its own;
   * the next piece starts one past the boundary whether or not this one
   * yielded a record.
   */
  function PieceRecords(s: string, bounds: seq<nat>, k: nat, decode: Decoder): seq<Json>
    requires k <= |bounds|
    decreases k
  {
    if k == 0 then []
    else PieceRecords(s, bounds, k - 1, decode) + TryParse(Substring(s, PieceStart(bounds, k - 1), bounds[k - 1] + 1), decode)
  }

  /** Whatever the pieces yield is an object. */
  lemma ObjectsThenParsed(a: seq<Json>, piece: string, decode: Decoder)
    requires AllObjects(a)
    ensures AllObjects(a + TryParse(piece, decode))
  {
    TryParseObjects(piece, decode);
    AllObjectsConcat(a, TryParse(piece, decode));
  }

  lemma {:induction false} PieceRecordsObjects(s: string, bounds: seq<nat>, k: nat, decode: Decoder)
    requires k <= |bounds|
    ensures AllObjects(PieceRecords(s, bounds, k, decode))
    decreases k
  {
    if k > 0 {
      var a := PieceRecords(s, bounds, k - 1, decode);
      var piece := Substring(s, PieceStart(bounds, k - 1), bounds[k - 1] + 1);
      assert PieceRecords(s, bounds, k, decode) == a + TryParse(piece, decode);
      PieceRecordsObjects(s, bounds, k - 1, decode);
      ObjectsThenParsed(a, piece, decode);
    }
  }

  /** One round of the `for` loop: the piece up to boundary k is tried and the cursor moves past it. */
  method ParsePiece(buffer: string, boundaries: seq<nat>, k: nat, decode: Decoder, jsonObjects: seq<Json>, currentIndex: nat)
    returns (objects: seq<Json>, nextIndex: nat)
    requires k < |boundaries|
    requires jsonObjects == PieceRecords(buffer, boundaries, k, decode)
    requires currentIndex == PieceStart(boundaries, k)
    ensures objects == PieceRecords(buffer, boundaries, k + 1, decode)
    ensures nextIndex == PieceStart(boundaries, k + 1)
  {
    var boundaryIndex := boundaries[k];
    var jsonStr := Substring(buffer, currentIndex, boundaryIndex + 1);
    assert jsonStr == Substring(buffer, PieceStart(boundaries, k), boundaries[k] + 1);
    var added;
    added, objects := TryParseAndAdd(jsonStr, decode, jsonObjects);
    nextIndex := boundaryIndex + 1;
  }

  /** The `for` loop of `tryParseCompleteObjects`: the records of every piece and the cursor after the last boundary. */
  method ParseBetweenBoundaries(buffer: string, boundaries: seq<nat>, decode: Decoder)
    returns (jsonObjects: seq<Json>, currentIndex: nat)
    ensures jsonObjects == PieceRecords(buffer, boundaries, |boundaries|, decode)
    ensures currentIndex == PieceStart(boundaries, |boundaries|)
  {
    jsonObjects := [];
    currentIndex := 0;
    for k := 0 to |boundaries|
      invariant jsonObjects == PieceRecords(buffer, boundaries, k, decode)
      invariant currentIndex == PieceStart(boundaries, k)
    {
      jsonObjects, currentIndex := ParsePiece(buffer, boundaries, k, decode, jsonObjects, currentIndex);
    }
  }

  /**
   * The splitting stage of `tryParseCompleteObjects`: for a buffer starting
   * with `{`, the pieces between boundaries, then the final piece if the
   * buffer ends in `}`. Returns the records and the cursor.
   */
  function SplitAtBoundaries(buffer: string, decode: Decoder): (r: (seq<Json>, nat)) {
    if StartsWith(buffer, "{") then
      var bounds := Boundaries(buffer, 0);
      var records := PieceRecords(buffer, bounds, |bounds|, decode);
      var cur := PieceStart(bounds, |bounds|);
      if EndsWith(buffer, "}") && cur < |buffer| then
        var last := TryParse(SubstringFrom(buffer, cur), decode);
        (records + last, if |last| > 0 then |buffer| else cur)
      else (records, cur)
    else ([], 0)
  }

  /** `tryParseCompleteObjects`: the records and the remaining buffer. */
  function CompleteObjects(buffer: string, decode: Decoder): (r: (seq<Json>, string)) {
    if !HasBoundary(buffer) && !EndsWith(buffer, "}") then
      if HasChar(buffer, '{') && HasChar(buffer, '}') then
        var e := Embedded(buffer, decode);
        if |e| > 0 then (e, "") else ([], buffer)
      else ([], buffer)
    else
      var split := SplitAtBoundaries(buffer, decode);
      (split.0, SubstringFrom(buffer, split.1))
  }

  /** Every record of `tryParseCompleteObjects` is an object. */
  lemma CompleteObjectsAreObjects(buffer: string, decode: Decoder)
    ensures AllObjects(CompleteObjects(buffer, decode).0)
  {
    EmbeddedObjects(buffer, 0, decode);
    var bounds := Boundaries(buffer, 0);
    PieceRecordsObjects(buffer, bounds, |bounds|, decode);
    var cur := PieceStart(bounds, |bounds|);
    TryParseObjects(SubstringFrom(buffer, cur), decode);
    AllObjectsConcat(PieceRecords(buffer, bounds, |bounds|, decode), TryParse(SubstringFrom(buffer, cur), decode));
  }

  /** The remaining buffer is a suffix of the input. */
  lemma CompleteObjectsSuffix(buffer: string, decode: Decoder)
    ensures EndsWith(buffer, CompleteObjects(buffer, decode).1)
  {
    if !HasBoundary(buffer) && !EndsWith(buffer, "}") {
      assert buffer[|buffer|..] == [];
      assert buffer[0..] == buffer;
    } else {
      SubstringFromSuffix(buffer, SplitAtBoundaries(buffer, decode).1);
    }
  }

  /**
   * Without a `}{` and without a final `}`, the buffer is either consumed
   * whole by the embedded scan or kept whole.
   */
  lemma NoPatternAllOrNothing(buffer: string, decode: Decoder)
    requires !HasBoundary(buffer) && !EndsWith(buffer, "}")
    ensures var r := CompleteObjects(buffer, decode);
      (r.0 != [] && r.1 == []) || (r.0 == [] && r.1 == buffer)
  {
  }

  /** A buffer with a `}{` or a final `}` that does not start with `{` yields no record and stays as it is. */
  lemma UnopenedBufferKept(buffer: string, decode: Decoder)
    requires HasBoundary(buffer) || EndsWith(buffer, "}")
    requires !StartsWith(buffer, "{")
    ensures CompleteObjects(buffer, decode) == ([], buffer)
  {
  }

  method TryParseCompleteObjects(buffer: string, decode: Decoder) returns (jsonObjects: seq<Json>, remainingBuffer: string)
    ensures (jsonObjects, remainingBuffer) == CompleteObjects(buffer, decode)
  {
    var hasCompletePattern := IndexOfBoundary(buffer, 0) != -1;
    var endsWithBrace := EndsWith(buffer, "}");
    var startsWithBrace := StartsWith(buffer, "{");
    if !hasCompletePattern && !endsWithBrace {
      if HasChar(buffer, '{') && HasChar(buffer, '}') {
        var extractedCount;
        extractedCount, jsonObjects := ExtractEmbeddedJson(buffer, decode, []);
        assert [] + Embedded(buffer, decode) == Embedded(buffer, decode);
        if extractedCount > 0 {
          return jsonObjects, "";
        }
      }
      return [], buffer;
    }
    var boundaries := FindBoundaries(buffer);
    jsonObjects := [];
    var currentIndex: nat := 0;
    if startsWithBrace {
      jsonObjects, currentIndex := ParseBetweenBoundaries(buffer, boundaries, decode);
      if endsWithBrace && currentIndex < |buffer| {
        var finalJsonStr := SubstringFrom(buffer, currentIndex);
        var added;
        added, jsonObjects := TryParseAndAdd(finalJsonStr, decode, jsonObjects);
        if added {
          currentIndex := |buffer|;
        }
      }
    }
    assert (jsonObjects, currentIndex) == SplitAtBoundaries(buffer, decode);
    remainingBuffer := SubstringFrom(buffer, currentIndex);
  }

  // ------------------------------------------------------------ the stream

  /** Leading-garbage cleanup: cut just after the first `}{`, or else at the first `{`. */
  function Cleanup(rb: string): string {
    if StartsWith(rb, "{") then rb
    else
      var cleanupIndex := IndexOfBoundary(rb, 0);
      if cleanupIndex != -1 then SubstringFrom(rb, cleanupIndex + 1)
      else
        var firstBraceIndex := IndexOf(rb, '{');
        if firstBraceIndex != -1 then SubstringFrom(rb, firstBraceIndex) else rb
  }

  /** Cleanup only drops a prefix. */
  lemma CleanupSuffix(rb: string)
    ensures EndsWith(rb, Cleanup(rb))
  {
    if StartsWith(rb, "{") || (IndexOfBoundary(rb, 0) == -1 && IndexOf(rb, '{') == -1) {
      assert rb[0..] == rb;
    } else if IndexOfBoundary(rb, 0) != -1 {
      SubstringFromSuffix(rb, IndexOfBoundary(rb, 0) + 1);
    } else {
      SubstringFromSuffix(rb, IndexOf(rb, '{'));
    }
  }

  /** After cleanup, a buffer holding a `{` starts with one; without a `{` it is unchanged. */
  lemma CleanupStartsWithBrace(rb: string)
    ensures '{' in rb ==> StartsWith(Cleanup(rb), "{")
    ensures '{' !in rb ==> Cleanup(rb) == rb
  {
  }

  /**
   * The overflow strategy, given what `tryParseCompleteObjects` made of the
   * buffer: keep its result if it recovered a record, and if the buffer is
   * still too long keep the last half of the cap.
   */
  function Shrink(buffer: string, t: (seq<Json>, string)): (seq<Json>, string) {
    var reduced := if |t.0| > 0 then t else ([], buffer);
    if |reduced.1| > MaxBufferSize then (reduced.0, reduced.1[|reduced.1| - MaxBufferSize / 2..])
    else reduced
  }

  /** The overflow strategy on a buffer. */
  function ReduceOverflow(buffer: string, decode: Decoder): (seq<Json>, string) {
    Shrink(buffer, CompleteObjects(buffer, decode))
  }

  /** Shrinking leaves a suffix within the cap, given that the recovery left a suffix. */
  lemma ShrinkBounds(buffer: string, t: (seq<Json>, string))
    requires EndsWith(buffer, t.1)
    ensures |Shrink(buffer, t).1| <= MaxBufferSize
    ensures EndsWith(buffer, Shrink(buffer, t).1)
  {
    var kept := if |t.0| > 0 then t.1 else buffer;
    if |t.0| == 0 {
      SliceSuffix(buffer, 0);
      assert buffer[0..] == buffer;
    }
    if |kept| > MaxBufferSize {
      SliceSuffix(kept, |kept| - MaxBufferSize / 2);
      EndsWithTransitive(buffer, kept, kept[|kept| - MaxBufferSize / 2..]);
    }
  }

  /** After the overflow strategy the buffer is within the cap and a suffix of what it was. */
  lemma ReduceOverflowBounds(buffer: string, decode: Decoder)
    ensures |ReduceOverflow(buffer, decode).1| <= MaxBufferSize
    ensures EndsWith(buffer, ReduceOverflow(buffer, decode).1)
  {
    CompleteObjectsSuffix(buffer, decode);
    ShrinkBounds(buffer, CompleteObjects(buffer, decode));
  }

  /** The buffer handed to the final parse, with the records the overflow strategy already recovered. */
  function Prepared(buffer: string, decode: Decoder): (seq<Json>, string) {
    var reduced := if |buffer| > MaxBufferSize then ReduceOverflow(buffer, decode) else ([], buffer);
    (reduced.0, Cleanup(reduced.1))
  }

  /** The prepared buffer is a suffix of the input, and within the cap. */
  lemma PreparedBounds(buffer: string, decode: Decoder)
    ensures |Prepared(buffer, decode).1| <= MaxBufferSize
    ensures EndsWith(buffer, Prepared(buffer, decode).1)
  {
    var reduced := if |buffer| > MaxBufferSize then ReduceOverflow(buffer, decode).1 else buffer;
    if |buffer| > MaxBufferSize {
      ReduceOverflowBounds(buffer, decode);
    } else {
      assert buffer[0..] == buffer;
    }
    CleanupSuffix(reduced);
    EndsWithTransitive(buffer, reduced, Cleanup(reduced));
  }

  /** `parseJsonStream`: the records and the remaining buffer. */
  function ParseStream(buffer: string, decode: Decoder): (seq<Json>, string) {
    var prepared := Prepared(buffer, decode);
    var parsed := CompleteObjects(prepared.1, decode);
    (prepared.0 + parsed.0, parsed.1)
  }

  lemma EndsWithTransitive(a: string, b: string, c: string)
    requires EndsWith(a, b) && EndsWith(b, c)
    ensures EndsWith(a, c)
  {
    assert a[|a| - |c|..] == a[|a| - |b|..][|b| - |c|..];
  }

  /**
   * Every record is an object; the remainder is a suffix of the input and
   * never longer than the 200 * 1024 cap.
   */
  lemma ParseStreamBounds(buffer: string, decode: Decoder)
    ensures AllObjects(ParseStream(buffer, decode).0)
    ensures EndsWith(buffer, ParseStream(buffer, decode).1)
    ensures |ParseStream(buffer, decode).1| <= MaxBufferSize
  {
    var prepared := Prepared(buffer, decode);
    var parsed := CompleteObjects(prepared.1, decode);
    PreparedBounds(buffer, decode);
    PreparedObjects(buffer, decode);
    CompleteObjectsAreObjects(prepared.1, decode);
    AllObjectsConcat(prepared.0, parsed.0);
    CompleteObjectsSuffix(prepared.1, decode);
    EndsWithTransitive(buffer, prepared.1, parsed.1);
  }

  /** The records recovered by the overflow strategy are objects. */
  lemma PreparedObjects(buffer: string, decode: Decoder)
    ensures AllObjects(Prepared(buffer, decode).0)
  {
    CompleteObjectsAreObjects(buffer, decode);
  }

  /** The overflow block of `parseJsonStream`, for a buffer over the cap. */
  method ReduceBufferOverflow(buffer: string, decode: Decoder) returns (jsonObjects: seq<Json>, remainingBuffer: string)
    ensures (jsonObjects, remainingBuffer) == ReduceOverflow(buffer, decode)
  {
    jsonObjects := [];
    remainingBuffer := buffer;
    var tempObjects, tempRemaining := TryParseCompleteObjects(remainingBuffer, decode);
    if |tempObjects| > 0 {
      jsonObjects := tempObjects;
      remainingBuffer := tempRemaining;
    }
    if |remainingBuffer| > MaxBufferSize {
      remainingBuffer := remainingBuffer[|remainingBuffer| - MaxBufferSize / 2..];
    }
  }

  /** The leading-garbage block of `parseJsonStream`. */
  method CleanupBuffer(buffer: string) returns (remainingBuffer: string)
    ensures remainingBuffer == Cleanup(buffer)
  {
    remainingBuffer := buffer;
    if !StartsWith(remainingBuffer, "{") {
      var cleanupIndex := IndexOfBoundary(remainingBuffer, 0);
      if cleanupIndex != -1 {
        remainingBuffer := SubstringFrom(remainingBuffer, cleanupIndex + 1);
      } else {
        var firstBraceIndex := IndexOf(remainingBuffer, '{');
        if firstBraceIndex != -1 {
          remainingBuffer := SubstringFrom(remainingBuffer, firstBraceIndex);
        }
      }
    }
  }

  method ParseJsonStream(buffer: string, decode: Decoder) returns (jsonObjects: seq<Json>, remainingBuffer: string)
    ensures (jsonObjects, remainingBuffer) == ParseStream(buffer, decode)
  {
    jsonObjects := [];
    remainingBuffer := buffer;
    if |remainingBuffer| > MaxBufferSize {
      jsonObjects, remainingBuffer := ReduceBufferOverflow(remainingBuffer, decode);
    }
    remainingBuffer := CleanupBuffer(remainingBuffer);
    var parsedObjects, parsedRemaining := TryParseCompleteObjects(remainingBuffer, decode);
    jsonObjects := jsonObjects + parsedObjects;
    remainingBuffer := parsedRemaining;
  }
}
