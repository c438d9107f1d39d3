/** The hand-written JSON of a peer summary: a printer, and a reader that looks for each field's
    name in the text. */
module PeerJson {
  import opened Common
  import opened Decimal

  /** A `u64` timestamp and a `u32` unread count. */
  datatype PeerSummary = PeerSummary(uuid: string, displayName: string, lastTs: nat, lastSnippet: string, unread: nat)
  {
    predicate Typed() {
      lastTs < U64_BOUND && unread < U32_BOUND
    }
  }

  // ----- strings -----

  /** A control character that the printer writes as a `\u` escape. */
  predicate Control(c: char) {
    c as int < 0x20 && c != '\n' && c != '\r' && c != '\t'
  }

  function HexDigit(n: nat): char
    requires n < 16
  {
    if n < 10 then (48 + n) as char else (87 + n) as char
  }

  function UnicodeEscape(c: char): string
    requires c as int < 0x20
  {
    ['\\', 'u', '0', '0', HexDigit(c as int / 16), HexDigit(c as int % 16)]
  }

  function EscapeChar(c: char): string {
    if c == '"' then ['\\', '"']
    else if c == '\\' then ['\\', '\\']
    else if c == '\n' then ['\\', 'n']
    else if c == '\r' then ['\\', 'r']
    else if c == '\t' then ['\\', 't']
    else if c as int < 0x20 then UnicodeEscape(c)
    else [c]
  }

  function Escape(s: string): string {
    if s == [] then [] else EscapeChar(s[0]) + Escape(s[1..])
  }

  /** What an escaped character stands for; an unknown escape keeps its backslash. */
  function Unescape(c: char): string {
    if c == '"' then ['"']
    else if c == '\\' then ['\\']
    else if c == 'n' then ['\n']
    else if c == 'r' then ['\r']
    else if c == 't' then ['\t']
    else ['\\', c]
  }

  /** The string up to its closing quote. */
  function ParseString(rest: string): Option<string>
    decreases |rest|
  {
    if rest == [] then None
    else if rest[0] == '"' then Some([])
    else if rest[0] == '\\' then
      if |rest| < 2 then None
      else match ParseString(rest[2..])
        case None => None
        case Some(t) => Some(Unescape(rest[1]) + t)
    else match ParseString(rest[1..])
      case None => None
      case Some(t) => Some([rest[0]] + t)
  }

  /** The escapes are those of section 7 of RFC 8259. */
  lemma EscapesOfJson(c: char)
    ensures EscapeChar('"') == "\\\"" && EscapeChar('\\') == "\\\\"
    ensures EscapeChar('\n') == "\\n" && EscapeChar('\r') == "\\r" && EscapeChar('\t') == "\\t"
    ensures Control(c) ==> EscapeChar(c) == "\\u00" + [if c as int < 16 then '0' else '1', HexDigit(c as int % 16)]
    ensures c as int >= 0x20 && c != '"' && c != '\\' ==> EscapeChar(c) == [c]
  {
  }

  // ----- fields -----

  predicate OccursAt(text: string, needle: string, i: nat) {
    i + |needle| <= |text| && text[i..i + |needle|] == needle
  }

  /** `str::find`, from position `i` on. */
  function FindFrom(text: string, needle: string, i: nat): Option<nat>
    decreases |text| - i
  {
    if i + |needle| > |text| then None
    else if OccursAt(text, needle, i) then Some(i)
    else if i < |text| then FindFrom(text, needle, i + 1)
    else None
  }

  function KeyNeedle(key: string): string {
    "\"" + key + "\":"
  }

  function ExtractString(text: string, key: string): Option<string> {
    var needle := KeyNeedle(key) + "\"";
    match FindFrom(text, needle, 0)
    case None => None
    case Some(i) => if i + |needle| <= |text| then ParseString(text[i + |needle|..]) else None
  }

  function TakeDigits(s: string): string {
    if s != [] && IsDigit(s[0]) then [s[0]] + TakeDigits(s[1..]) else []
  }

  function ExtractNumber(text: string, key: string): Option<string> {
    var needle := KeyNeedle(key);
    match FindFrom(text, needle, 0)
    case None => None
    case Some(i) =>
      var digits := if i + |needle| <= |text| then TakeDigits(text[i + |needle|..]) else [];
      if digits == [] then None else Some(digits)
  }

  // ----- records -----

  function Concat(pieces: seq<string>): string {
    if pieces == [] then [] else pieces[0] + Concat(pieces[1..])
  }

  function Pieces(p: PeerSummary): seq<string> {
    ["{\"display_name\":\"", Escape(p.displayName), "\",\"last_ts\":", Dec(p.lastTs),
     ",\"last_snippet\":\"", Escape(p.lastSnippet), "\",\"unread\":", Dec(p.unread), "}"]
  }

  function ToJson(p: PeerSummary): string {
    Concat(Pieces(p))
  }

  function NumberOr0(digits: Option<string>, bound: nat): nat {
    match digits
    case None => 0
    case Some(d) => match ParseUnsigned(d, bound) case None => 0 case Some(n) => n
  }

  function StringOrEmpty(s: Option<string>): string {
    match s case None => "" case Some(t) => t
  }

  function FromJson(uuid: string, text: string): PeerSummary {
    PeerSummary(
      uuid,
      StringOrEmpty(ExtractString(text, "display_name")),
      NumberOr0(ExtractNumber(text, "last_ts"), U64_BOUND),
      StringOrEmpty(ExtractString(text, "last_snippet")),
      NumberOr0(ExtractNumber(text, "unread"), U32_BOUND))
  }

  // ----- escape, then parse -----

  predicate Clean(s: string) {
    forall i :: 0 <= i < |s| ==> !Control(s[i])
  }

  /** What a string becomes once printed and read: a control character turns into the six
      characters of its escape. */
  function Normal(s: string): string {
    if s == [] then [] else (if Control(s[0]) then UnicodeEscape(s[0]) else [s[0]]) + Normal(s[1..])
  }

  lemma ParsePlain(c: char, rest: string)
    requires c != '"' && c != '\\'
    ensures ParseString([c] + rest) == match ParseString(rest) case None => None case Some(t) => Some([c] + t)
  {
    assert ([c] + rest)[1..] == rest;
  }

  lemma ParseEscape(c: char, rest: string)
    ensures ParseString(['\\', c] + rest) == match ParseString(rest) case None => None case Some(t) => Some(Unescape(c) + t)
  {
    assert (['\\', c] + rest)[2..] == rest;
  }

  lemma ParsePair(a: char, b: char, rest: string)
    requires a != '"' && a != '\\' && b != '"' && b != '\\' && ParseString(rest).Some?
    ensures ParseString([a, b] + rest) == Some([a, b] + ParseString(rest).value)
  {
    ParsePlain(b, rest);
    ParsePlain(a, [b] + rest);
    PairSplits(a, b, rest);
    PairSplits(a, b, ParseString(rest).value);
  }

  lemma PairSplits(a: char, b: char, s: string)
    ensures [a, b] + s == [a] + ([b] + s)
  {
  }

  lemma ParseUnicodeEscape(c: char, rest: string)
    requires Control(c) && ParseString(rest).Some?
    ensures ParseString(UnicodeEscape(c) + rest) == Some(UnicodeEscape(c) + ParseString(rest).value)
  {
    var h, l := HexDigit(c as int / 16), HexDigit(c as int % 16);
    var t := ParseString(rest).value;
    ParsePair(h, l, rest);
    ParsePair('0', '0', [h, l] + rest);
    ParseEscape('u', ['0', '0'] + ([h, l] + rest));
    EscapePieces(h, l, rest);
    EscapePieces(h, l, t);
  }

  lemma EscapePieces(h: char, l: char, rest: string)
    ensures ['\\', 'u', '0', '0', h, l] + rest == ['\\', 'u'] + (['0', '0'] + ([h, l] + rest))
  {
  }

  lemma {:induction false} ParseEscaped(s: string, tail: string)
    ensures ParseString(Escape(s) + "\"" + tail) == Some(Normal(s))
  {
    if s == [] {
      assert Escape(s) + "\"" + tail == "\"" + tail;
    } else {
      var c, rest := s[0], Escape(s[1..]) + "\"" + tail;
      ParseEscaped(s[1..], tail);
      assert Escape(s) + "\"" + tail == EscapeChar(c) + rest;
      if Control(c) {
        ParseUnicodeEscape(c, rest);
      } else if |EscapeChar(c)| == 2 {
        ParseEscape(EscapeChar(c)[1], rest);
      } else {
        ParsePlain(c, rest);
      }
    }
  }

  lemma {:induction false} NormalIsClean(s: string)
    ensures Clean(Normal(s))
  {
    if s != [] {
      NormalIsClean(s[1..]);
    }
  }

  lemma {:induction false} NormalFixesExactlyClean(s: string)
    ensures |Normal(s)| >= |s| && (Normal(s) == s <==> Clean(s))
  {
    if s != [] {
      NormalFixesExactlyClean(s[1..]);
      assert s == [s[0]] + s[1..];
      assert Clean(s) <==> !Control(s[0]) && Clean(s[1..]);
      if !Control(s[0]) {
        assert Normal(s)[1..] == Normal(s[1..]);
      }
    }
  }

  // ----- the needle finds the field -----

  /** A field name as the records use them. */
  predicate FieldName(key: string) {
    key != [] && forall i :: 0 <= i < |key| ==> key[i] != '"' && key[i] != '\\' && key[i] != ',' && key[i] != ':'
  }

  predicate KeyAt(text: string, key: string, i: nat) {
    OccursAt(text, KeyNeedle(key), i)
  }

  lemma KeyAtParts(text: string, key: string, i: nat)
    requires KeyAt(text, key, i)
    ensures i + |key| + 2 < |text|
    ensures text[i] == '"' && text[i + |key| + 1] == '"' && text[i + |key| + 2] == ':'
    ensures forall j :: 0 <= j < |key| ==> text[i + 1 + j] == key[j]
  {
    var needle := KeyNeedle(key);
    var at := text[i..i + |needle|];
    assert forall j :: 0 <= j < |needle| ==> text[i + j] == at[j];
    assert needle[0] == '"' && needle[|key| + 1] == '"' && needle[|key| + 2] == ':';
    forall j | 0 <= j < |key| ensures text[i + 1 + j] == key[j] {
      assert needle[1 + j] == key[j];
      assert text[i + (1 + j)] == at[1 + j];
    }
  }

  /** A quote inside an escaped string follows a backslash. */
  lemma {:induction false} QuoteIsEscaped(s: string, j: nat)
    requires j < |Escape(s)| && Escape(s)[j] == '"'
    ensures j > 0 && Escape(s)[j - 1] == '\\'
  {
    var head := EscapeChar(s[0]);
    if j >= |head| {
      QuoteIsEscaped(s[1..], j - |head|);
    }
  }

  /** `text[lo..hi]` is an escaped string between its quotes, and a comma follows. */
  predicate ValueAt(text: string, s: string, lo: nat, hi: nat) {
    1 <= lo <= hi && hi + 1 < |text| && text[lo..hi] == Escape(s) && text[hi] == '"' && text[hi + 1] == ','
  }

  /** No field name starts at or inside a string value, whatever quoted text it holds. */
  lemma NoKeyInValue(text: string, s: string, lo: nat, hi: nat, key: string, i: nat)
    requires ValueAt(text, s, lo, hi) && FieldName(key) && lo - 1 <= i <= hi
    ensures !KeyAt(text, key, i)
  {
    forall j | lo <= j < hi && text[j] == '"' ensures j > lo && text[j - 1] == '\\' {
      assert text[lo..hi][j - lo] == '"';
      QuoteIsEscaped(s, j - lo);
      assert text[lo..hi][j - lo - 1] == '\\';
    }
    assert key[|key| - 1] != '\\' && key[0] != ',';
    assert 0 <= hi - i - 1 < |key| ==> key[hi - i - 1] != '"';
    if KeyAt(text, key, i) {
      KeyAtParts(text, key, i);
      assert false;
    }
  }

  lemma {:induction false} FindFirst(text: string, needle: string, from: nat, k: nat)
    requires from <= k && OccursAt(text, needle, k)
    requires forall i :: from <= i < k ==> !OccursAt(text, needle, i)
    ensures FindFrom(text, needle, from) == Some(k)
    decreases k - from
  {
    if from < k {
      FindFirst(text, needle, from + 1, k);
    }
  }

  /** The first place where the field name occurs, quoted and followed by a colon, is `k`. */
  ghost predicate FirstKey(text: string, key: string, k: nat) {
    KeyAt(text, key, k) && forall i :: 0 <= i < k ==> !KeyAt(text, key, i)
  }

  lemma KeyFoundAsString(text: string, key: string, k: nat)
    requires FirstKey(text, key, k) && k + |key| + 3 < |text| && text[k + |key| + 3] == '"'
    ensures ExtractString(text, key) == ParseString(text[k + |key| + 4..])
  {
    var needle := KeyNeedle(key) + "\"";
    assert text[k..k + |needle|] == text[k..k + |needle| - 1] + [text[k + |needle| - 1]];
    forall i | 0 <= i < k ensures !OccursAt(text, needle, i) {
      assert !KeyAt(text, key, i);
      LongerNeedle(text, KeyNeedle(key), "\"", i);
    }
    FindFirst(text, needle, 0, k);
  }

  lemma LongerNeedle(text: string, a: string, b: string, i: nat)
    ensures OccursAt(text, a + b, i) ==> OccursAt(text, a, i)
  {
    if OccursAt(text, a + b, i) {
      assert text[i..i + |a|] == text[i..i + |a + b|][..|a|] == (a + b)[..|a|] == a;
    }
  }

  lemma KeyFoundAsNumber(text: string, key: string, k: nat)
    requires FirstKey(text, key, k)
    ensures ExtractNumber(text, key) ==
            var digits := TakeDigits(text[k + |key| + 3..]); if digits == [] then None else Some(digits)
  {
    forall i | 0 <= i < k ensures !OccursAt(text, KeyNeedle(key), i) {
      assert !KeyAt(text, key, i);
    }
    FindFirst(text, KeyNeedle(key), 0, k);
  }

  lemma {:induction false} TakeDigitsExact(d: string, c: char, tail: string)
    requires AllDigits(d) && !IsDigit(c)
    ensures TakeDigits(d + [c] + tail) == d
  {
    if d != [] {
      assert (d + [c] + tail)[1..] == d[1..] + [c] + tail;
      TakeDigitsExact(d[1..], c, tail);
    }
  }

  // ----- the layout of a printed record -----

  function Offset(pieces: seq<string>, i: nat): nat
    requires i <= |pieces|
  {
    if i == 0 then 0 else Offset(pieces, i - 1) + |pieces[i - 1]|
  }

  predicate PieceIs(text: string, at: nat, piece: string) {
    at + |piece| <= |text| && text[at..at + |piece|] == piece
  }

  lemma {:induction false} PieceAt(pieces: seq<string>, i: nat)
    requires i < |pieces|
    ensures PieceIs(Concat(pieces), Offset(pieces, i), pieces[i])
  {
    if i > 0 {
      OffsetShift(pieces, i);
      PieceAt(pieces[1..], i - 1);
      var head, rest, at := pieces[0], Concat(pieces[1..]), Offset(pieces[1..], i - 1);
      assert (head + rest)[|head| + at..|head| + at + |pieces[i]|] == rest[at..at + |pieces[i]|];
    }
  }

  /** From a piece on, the text is that piece, the first character of the next, and the rest. */
  lemma {:induction false} PieceThenNext(pieces: seq<string>, i: nat) returns (tail: string)
    requires i + 1 < |pieces| && pieces[i + 1] != []
    ensures Offset(pieces, i) <= |Concat(pieces)|
    ensures Concat(pieces)[Offset(pieces, i)..] == pieces[i] + [pieces[i + 1][0]] + tail
  {
    var head, rest := pieces[0], Concat(pieces[1..]);
    if i > 0 {
      OffsetShift(pieces, i);
      tail := PieceThenNext(pieces[1..], i - 1);
      var at := Offset(pieces[1..], i - 1);
      assert (head + rest)[|head| + at..] == rest[at..];
    } else {
      var next, last := pieces[1], Concat(pieces[1..][1..]);
      tail := next[1..] + last;
      assert rest == next + last && next == [next[0]] + next[1..];
      assert head + rest == head + [next[0]] + tail;
      assert Concat(pieces)[0..] == Concat(pieces);
    }
  }

  lemma {:induction false} OffsetShift(pieces: seq<string>, i: nat)
    requires 0 < i <= |pieces|
    ensures Offset(pieces, i) == |pieces[0]| + Offset(pieces[1..], i - 1)
  {
    if i > 1 {
      OffsetShift(pieces, i - 1);
    }
  }

  const NAME_START: nat := 17

  /** Where the pieces of a printed record end. */
  datatype Layout = Layout(nameEnd: nat, tsEnd: nat, snippetEnd: nat)

  function LayoutOf(p: PeerSummary): Layout {
    var nameEnd := NAME_START + |Escape(p.displayName)|;
    var tsEnd := nameEnd + 12 + |Dec(p.lastTs)|;
    Layout(nameEnd, tsEnd, tsEnd + 17 + |Escape(p.lastSnippet)|)
  }

  lemma Offsets(p: PeerSummary)
    ensures var ps, l := Pieces(p), LayoutOf(p);
            && Offset(ps, 1) == NAME_START && Offset(ps, 2) == l.nameEnd
            && Offset(ps, 3) == l.nameEnd + 12 && Offset(ps, 4) == l.tsEnd
            && Offset(ps, 5) == l.tsEnd + 17 && Offset(ps, 6) == l.snippetEnd
            && Offset(ps, 7) == l.snippetEnd + 11
  {
    var ps := Pieces(p);
    assert Offset(ps, 1) == Offset(ps, 0) + |ps[0]|;
    assert Offset(ps, 2) == Offset(ps, 1) + |ps[1]|;
    assert Offset(ps, 3) == Offset(ps, 2) + |ps[2]|;
    assert Offset(ps, 4) == Offset(ps, 3) + |ps[3]|;
    assert Offset(ps, 5) == Offset(ps, 4) + |ps[4]|;
    assert Offset(ps, 6) == Offset(ps, 5) + |ps[5]|;
    assert Offset(ps, 7) == Offset(ps, 6) + |ps[6]|;
  }

  // ----- every field is found where it was printed -----

  lemma KeyOrNot(text: string, key: string, i: nat, j: nat)
    requires FieldName(key) && i < |text|
    requires text[i] != '"' || (j < |key| && i + 1 + j < |text| && text[i + 1 + j] != key[j])
    ensures !KeyAt(text, key, i)
  {
    if KeyAt(text, key, i) {
      KeyAtParts(text, key, i);
      assert false;
    }
  }

  /** No occurrence of the name starts in `[lo, hi)`. */
  ghost predicate NoKey(text: string, key: string, lo: nat, hi: nat) {
    forall i :: lo <= i < hi ==> !KeyAt(text, key, i)
  }

  const OPEN: string := "{\"display_name\":\""
  const TS: string := "\",\"last_ts\":"
  const SNIPPET: string := ",\"last_snippet\":\""
  const UNREAD: string := "\",\"unread\":"

  lemma NoKeyInOpen(text: string, key: string)
    requires PieceIs(text, 0, OPEN) && FieldName(key) && key[0] != 'd'
    ensures NoKey(text, key, 0, 16)
  {
    assert forall i :: 0 <= i < 17 ==> text[i] == text[0..0 + |OPEN|][i] == OPEN[i];
    forall i | 0 <= i < 16 ensures !KeyAt(text, key, i) {
      KeyOrNot(text, key, i, 0);
    }
  }

  lemma NoKeyInTs(text: string, key: string, at: nat)
    requires PieceIs(text, at, TS) && FieldName(key) && (key[0] != 'l' || (|key| > 5 && key[5] != 't'))
    ensures NoKey(text, key, at + 1, at + 12)
  {
    assert forall i :: 0 <= i < 12 ==> text[at + i] == text[at..at + |TS|][i] == TS[i];
    forall i | at + 1 <= i < at + 12 ensures !KeyAt(text, key, i) {
      var k := i - at;
      assert text[at + k] == TS[k];
      if k == 2 {
        assert text[at + 3] == 'l' && text[at + 8] == 't';
        KeyOrNot(text, key, i, if key[0] != 'l' then 0 else 5);
      } else {
        assert k == 10 ==> text[at + 11] == ':';
        KeyOrNot(text, key, i, 0);
      }
    }
  }

  lemma NoKeyInDigits(text: string, key: string, at: nat, d: string)
    requires PieceIs(text, at, d) && AllDigits(d) && FieldName(key)
    ensures NoKey(text, key, at, at + |d|)
  {
    forall i | at <= i < at + |d| ensures !KeyAt(text, key, i) {
      assert text[i] == text[at..at + |d|][i - at] && IsDigit(d[i - at]);
      KeyOrNot(text, key, i, 0);
    }
  }

  lemma NoKeyInSnippet(text: string, key: string, at: nat)
    requires PieceIs(text, at, SNIPPET) && FieldName(key) && key[0] != 'l'
    ensures NoKey(text, key, at, at + 16)
  {
    assert forall i :: 0 <= i < 17 ==> text[at + i] == text[at..at + |SNIPPET|][i] == SNIPPET[i];
    forall i | at <= i < at + 16 ensures !KeyAt(text, key, i) {
      var k := i - at;
      assert text[at + k] == SNIPPET[k];
      assert text[at + (k + 1)] == SNIPPET[k + 1];
      KeyOrNot(text, key, i, 0);
    }
  }

  /** A string value and the fixed text around it: no name from its opening quote to its closing one. */
  lemma NoKeyInString(text: string, key: string, at: nat, s: string, after: string)
    requires at >= 1 && PieceIs(text, at, Escape(s)) && FieldName(key)
    requires PieceIs(text, at + |Escape(s)|, after) && |after| >= 2 && after[0] == '"' && after[1] == ','
    ensures NoKey(text, key, at - 1, at + |Escape(s)| + 2)
  {
    var hi := at + |Escape(s)|;
    assert text[hi] == text[hi..hi + |after|][0] && text[hi + 1] == text[hi..hi + |after|][1];
    forall i | at - 1 <= i < hi + 2 ensures !KeyAt(text, key, i) {
      if i <= hi {
        NoKeyInValue(text, s, at, hi, key, i);
      } else {
        KeyOrNot(text, key, i, 0);
      }
    }
  }

  lemma NeedleInside(text: string, at: nat, piece: string, k: nat, key: string)
    requires PieceIs(text, at, piece) && OccursAt(piece, KeyNeedle(key), k)
    ensures KeyAt(text, key, at + k)
  {
    var needle := KeyNeedle(key);
    forall j | 0 <= j < |needle| ensures text[at + k..at + k + |needle|][j] == needle[j] {
      assert piece[k..k + |needle|][j] == piece[k + j];
      assert text[at..at + |piece|][k + j] == text[at + (k + j)];
    }
  }

  /** The first occurrence of a name is the one in its own fixed text. */
  lemma FirstInPiece(text: string, at: nat, piece: string, k: nat, key: string)
    requires NoKey(text, key, 0, at + k) && PieceIs(text, at, piece) && OccursAt(piece, KeyNeedle(key), k)
    ensures FirstKey(text, key, at + k)
  {
    NeedleInside(text, at, piece, k, key);
  }

  lemma OccursInside(before: string, needle: string, after: string)
    ensures OccursAt(before + needle + after, needle, |before|)
  {
  }

  lemma OpenNeedle()
    ensures OccursAt(OPEN, KeyNeedle("display_name"), 1)
    ensures |OPEN| == 17 && OPEN[0] == '{' && OPEN[16] == '"'
  {
    assert KeyNeedle("display_name") == "\"display_name\":";
    assert OPEN == "{" + KeyNeedle("display_name") + "\"";
    OccursInside("{", KeyNeedle("display_name"), "\"");
  }

  lemma TsNeedle()
    ensures OccursAt(TS, KeyNeedle("last_ts"), 2)
    ensures |TS| == 12 && TS[0] == '"' && TS[1] == ','
  {
    assert KeyNeedle("last_ts") == "\"last_ts\":";
    assert TS == "\"," + KeyNeedle("last_ts") + "";
    OccursInside("\",", KeyNeedle("last_ts"), "");
  }

  lemma SnippetNeedle()
    ensures OccursAt(SNIPPET, KeyNeedle("last_snippet"), 1)
    ensures |SNIPPET| == 17 && SNIPPET[0] == ',' && SNIPPET[16] == '"'
  {
    assert KeyNeedle("last_snippet") == "\"last_snippet\":";
    assert SNIPPET == "," + KeyNeedle("last_snippet") + "\"";
    OccursInside(",", KeyNeedle("last_snippet"), "\"");
  }

  lemma UnreadNeedle()
    ensures OccursAt(UNREAD, KeyNeedle("unread"), 2)
    ensures |UNREAD| == 11 && UNREAD[0] == '"' && UNREAD[1] == ','
  {
    assert KeyNeedle("unread") == "\"unread\":";
    assert UNREAD == "\"," + KeyNeedle("unread") + "";
    OccursInside("\",", KeyNeedle("unread"), "");
  }

  /** A printed record, as text with its pieces in place and nothing else known about it. */
  ghost predicate Printed(text: string, p: PeerSummary, l: Layout) {
    && l.nameEnd == NAME_START + |Escape(p.displayName)| && l.tsEnd == l.nameEnd + 12 + |Dec(p.lastTs)|
    && l.snippetEnd == l.tsEnd + 17 + |Escape(p.lastSnippet)|
    && PieceIs(text, 0, OPEN) && PieceIs(text, NAME_START, Escape(p.displayName))
    && PieceIs(text, l.nameEnd, TS) && PieceIs(text, l.nameEnd + 12, Dec(p.lastTs))
    && PieceIs(text, l.tsEnd, SNIPPET) && PieceIs(text, l.tsEnd + 17, Escape(p.lastSnippet))
    && PieceIs(text, l.snippetEnd, UNREAD)
  }

  lemma ToJsonPrints(p: PeerSummary)
    ensures Printed(ToJson(p), p, LayoutOf(p))
  {
    var ps := Pieces(p);
    Offsets(p);
    PieceAt(ps, 0);
    PieceAt(ps, 1);
    PieceAt(ps, 2);
    PieceAt(ps, 3);
    PieceAt(ps, 4);
    PieceAt(ps, 5);
    PieceAt(ps, 6);
  }

  lemma FindsDisplayName(text: string, p: PeerSummary, l: Layout)
    requires Printed(text, p, l)
    ensures FirstKey(text, "display_name", 1)
  {
    OpenNeedle();
    assert text[0] == text[0..0 + |OPEN|][0];
    KeyOrNot(text, "display_name", 0, 0);
    FirstInPiece(text, 0, OPEN, 1, "display_name");
  }

  lemma NoKeyBeforeTs(text: string, p: PeerSummary, l: Layout, key: string)
    requires Printed(text, p, l) && FieldName(key) && key[0] != 'd'
    ensures NoKey(text, key, 0, l.nameEnd + 2)
  {
    TsNeedle();
    NoKeyInOpen(text, key);
    NoKeyInString(text, key, NAME_START, p.displayName, TS);
  }

  lemma FindsLastTs(text: string, p: PeerSummary, l: Layout)
    requires Printed(text, p, l)
    ensures FirstKey(text, "last_ts", l.nameEnd + 2)
  {
    TsNeedle();
    NoKeyBeforeTs(text, p, l, "last_ts");
    FirstInPiece(text, l.nameEnd, TS, 2, "last_ts");
  }

  lemma NoKeyAtComma(text: string, key: string, at: nat)
    requires PieceIs(text, at, SNIPPET) && FieldName(key)
    ensures !KeyAt(text, key, at)
  {
    SnippetNeedle();
    assert text[at] == text[at..at + |SNIPPET|][0];
    KeyOrNot(text, key, at, 0);
  }

  lemma NoKeyJoins(text: string, key: string, nameEnd: nat, tsEnd: nat)
    requires NoKey(text, key, 0, nameEnd + 2) && NoKey(text, key, nameEnd + 1, nameEnd + 12)
    requires NoKey(text, key, nameEnd + 12, tsEnd) && !KeyAt(text, key, tsEnd)
    ensures NoKey(text, key, 0, tsEnd + 1)
  {
  }

  lemma NoKeyBeforeSnippet(text: string, p: PeerSummary, l: Layout, key: string)
    requires Printed(text, p, l) && FieldName(key) && key[0] != 'd' && (key[0] != 'l' || (|key| > 5 && key[5] != 't'))
    ensures NoKey(text, key, 0, l.tsEnd + 1)
  {
    TsNeedle();
    NoKeyBeforeTs(text, p, l, key);
    NoKeyInTs(text, key, l.nameEnd);
    DecRoundTrip(p.lastTs);
    NoKeyInDigits(text, key, l.nameEnd + 12, Dec(p.lastTs));
    NoKeyAtComma(text, key, l.tsEnd);
    NoKeyJoins(text, key, l.nameEnd, l.tsEnd);
  }

  lemma FindsLastSnippet(text: string, p: PeerSummary, l: Layout)
    requires Printed(text, p, l)
    ensures FirstKey(text, "last_snippet", l.tsEnd + 1)
  {
    SnippetNeedle();
    NoKeyBeforeSnippet(text, p, l, "last_snippet");
    FirstInPiece(text, l.tsEnd, SNIPPET, 1, "last_snippet");
  }

  lemma NoKeyBeforeUnread(text: string, p: PeerSummary, l: Layout, key: string)
    requires Printed(text, p, l) && FieldName(key) && key[0] == 'u'
    ensures NoKey(text, key, 0, l.snippetEnd + 2)
  {
    NoKeyBeforeSnippet(text, p, l, key);
    NoKeyInSnippet(text, key, l.tsEnd);
    NoKeyInSnippetValue(text, p, l, key);
    NoKeyMeets(text, key, l.tsEnd, l.snippetEnd);
  }

  lemma NoKeyInSnippetValue(text: string, p: PeerSummary, l: Layout, key: string)
    requires Printed(text, p, l) && FieldName(key)
    ensures NoKey(text, key, l.tsEnd + 16, l.snippetEnd + 2)
  {
    UnreadNeedle();
    NoKeyInString(text, key, l.tsEnd + 17, p.lastSnippet, UNREAD);
  }

  lemma NoKeyMeets(text: string, key: string, tsEnd: nat, snippetEnd: nat)
    requires NoKey(text, key, 0, tsEnd + 1) && NoKey(text, key, tsEnd, tsEnd + 16) && NoKey(text, key, tsEnd + 16, snippetEnd + 2)
    ensures NoKey(text, key, 0, snippetEnd + 2)
  {
  }

  lemma FindsUnread(text: string, p: PeerSummary, l: Layout)
    requires Printed(text, p, l)
    ensures FirstKey(text, "unread", l.snippetEnd + 2)
  {
    NoKeyBeforeUnread(text, p, l, "unread");
    UnreadNeedle();
    FirstInPiece(text, l.snippetEnd, UNREAD, 2, "unread");
  }

  lemma StringField(text: string, key: string, k: nat, s: string, tail: string)
    requires FirstKey(text, key, k) && k + |key| + 4 <= |text| && text[k + |key| + 3] == '"'
    requires text[k + |key| + 4..] == Escape(s) + "\"" + tail
    ensures ExtractString(text, key) == Some(Normal(s))
  {
    KeyFoundAsString(text, key, k);
    ParseEscaped(s, tail);
  }

  lemma NumberField(text: string, key: string, k: nat, n: nat, after: char, tail: string)
    requires FirstKey(text, key, k) && k + |key| + 3 <= |text| && !IsDigit(after)
    requires text[k + |key| + 3..] == Dec(n) + [after] + tail
    ensures ExtractNumber(text, key) == Some(Dec(n))
  {
    KeyFoundAsNumber(text, key, k);
    DecRoundTrip(n);
    TakeDigitsExact(Dec(n), after, tail);
  }

  lemma DisplayNameRead(text: string, p: PeerSummary, l: Layout, tail: string)
    requires Printed(text, p, l) && text[NAME_START..] == Escape(p.displayName) + ['"'] + tail
    ensures ExtractString(text, "display_name") == Some(Normal(p.displayName))
  {
    OpenNeedle();
    FindsDisplayName(text, p, l);
    assert text[16] == text[0..0 + |OPEN|][16];
    StringField(text, "display_name", 1, p.displayName, tail);
  }

  lemma SnippetRead(text: string, p: PeerSummary, l: Layout, tail: string)
    requires Printed(text, p, l) && text[l.tsEnd + 17..] == Escape(p.lastSnippet) + ['"'] + tail
    ensures ExtractString(text, "last_snippet") == Some(Normal(p.lastSnippet))
  {
    SnippetNeedle();
    FindsLastSnippet(text, p, l);
    assert text[l.tsEnd + 16] == text[l.tsEnd..l.tsEnd + |SNIPPET|][16];
    StringField(text, "last_snippet", l.tsEnd + 1, p.lastSnippet, tail);
  }

  lemma LastTsRead(text: string, p: PeerSummary, l: Layout, tail: string)
    requires Printed(text, p, l) && text[l.nameEnd + 12..] == Dec(p.lastTs) + [','] + tail
    ensures ExtractNumber(text, "last_ts") == Some(Dec(p.lastTs))
  {
    FindsLastTs(text, p, l);
    NumberField(text, "last_ts", l.nameEnd + 2, p.lastTs, ',', tail);
  }

  lemma UnreadRead(text: string, p: PeerSummary, l: Layout, tail: string)
    requires Printed(text, p, l) && l.snippetEnd + 11 <= |text| && text[l.snippetEnd + 11..] == Dec(p.unread) + ['}'] + tail
    ensures ExtractNumber(text, "unread") == Some(Dec(p.unread))
  {
    FindsUnread(text, p, l);
    NumberField(text, "unread", l.snippetEnd + 2, p.unread, '}', tail);
  }

  lemma DisplayNameOfJson(p: PeerSummary)
    ensures ExtractString(ToJson(p), "display_name") == Some(Normal(p.displayName))
  {
    ToJsonPrints(p);
    Offsets(p);
    var tail := PieceThenNext(Pieces(p), 1);
    DisplayNameRead(ToJson(p), p, LayoutOf(p), tail);
  }

  lemma SnippetOfJson(p: PeerSummary)
    ensures ExtractString(ToJson(p), "last_snippet") == Some(Normal(p.lastSnippet))
  {
    ToJsonPrints(p);
    Offsets(p);
    var tail := PieceThenNext(Pieces(p), 5);
    SnippetRead(ToJson(p), p, LayoutOf(p), tail);
  }

  lemma LastTsOfJson(p: PeerSummary)
    ensures ExtractNumber(ToJson(p), "last_ts") == Some(Dec(p.lastTs))
  {
    ToJsonPrints(p);
    Offsets(p);
    var tail := PieceThenNext(Pieces(p), 3);
    LastTsRead(ToJson(p), p, LayoutOf(p), tail);
  }

  lemma UnreadOfJson(p: PeerSummary)
    ensures ExtractNumber(ToJson(p), "unread") == Some(Dec(p.unread))
  {
    ToJsonPrints(p);
    Offsets(p);
    var ps := Pieces(p);
    var tail := PieceThenNext(ps, 7);
    assert ps[7] == Dec(p.unread) && ps[8][0] == '}';
    UnreadRead(ToJson(p), p, LayoutOf(p), tail);
  }

  /** Whatever quoted text the strings contain, each field is read from where it was printed; the
      strings come back normalised and the numbers exactly. */
  lemma ReadsWhatWasPrinted(p: PeerSummary)
    requires p.Typed()
    ensures FromJson(p.uuid, ToJson(p)) == p.(displayName := Normal(p.displayName), lastSnippet := Normal(p.lastSnippet))
  {
    DisplayNameOfJson(p);
    SnippetOfJson(p);
    LastTsOfJson(p);
    UnreadOfJson(p);
    ParseDec(p.lastTs, U64_BOUND);
    ParseDec(p.unread, U32_BOUND);
  }

  /** Printing and reading undo each other exactly when neither string holds a control character
      below 0x20 other than newline, carriage return or tab. */
  lemma RoundTripExactlyWhenClean(p: PeerSummary)
    requires p.Typed()
    ensures FromJson(p.uuid, ToJson(p)) == p <==> Clean(p.displayName) && Clean(p.lastSnippet)
  {
    ReadsWhatWasPrinted(p);
    NormalFixesExactlyClean(p.displayName);
    NormalFixesExactlyClean(p.lastSnippet);
  }

  /** After one pass a record is stable: printing and reading it again changes nothing. */
  lemma StableAfterOnePass(p: PeerSummary)
    requires p.Typed()
    ensures var q := FromJson(p.uuid, ToJson(p)); FromJson(q.uuid, ToJson(q)) == q
  {
    ReadsWhatWasPrinted(p);
    var q := FromJson(p.uuid, ToJson(p));
    NormalIsClean(p.displayName);
    NormalIsClean(p.lastSnippet);
    RoundTripExactlyWhenClean(q);
  }

  // ----- what is not there -----

  lemma {:induction false} FindNone(text: string, needle: string, from: nat)
    requires forall i: nat :: from <= i ==> !OccursAt(text, needle, i)
    ensures FindFrom(text, needle, from) == None
    decreases |text| - from
  {
    if from + |needle| <= |text| && from < |text| {
      FindNone(text, needle, from + 1);
    }
  }

  ghost predicate Lacks(text: string, key: string) {
    forall i: nat :: !KeyAt(text, key, i)
  }

  lemma LacksField(text: string, key: string)
    requires Lacks(text, key)
    ensures ExtractString(text, key) == None && ExtractNumber(text, key) == None
  {
    forall i: nat ensures !OccursAt(text, KeyNeedle(key), i) && !OccursAt(text, KeyNeedle(key) + "\"", i) {
      assert !KeyAt(text, key, i);
      LongerNeedle(text, KeyNeedle(key), "\"", i);
    }
    FindNone(text, KeyNeedle(key), 0);
    FindNone(text, KeyNeedle(key) + "\"", 0);
  }

  /** A missing field reads as the empty string or as zero, and the others are read all the same. */
  lemma MissingFieldsDefault(uuid: string, text: string)
    ensures var p := FromJson(uuid, text);
            && p.uuid == uuid
            && (Lacks(text, "display_name") ==> p.displayName == "")
            && (Lacks(text, "last_ts") ==> p.lastTs == 0)
            && (Lacks(text, "last_snippet") ==> p.lastSnippet == "")
            && (Lacks(text, "unread") ==> p.unread == 0)
  {
    if Lacks(text, "display_name") { LacksField(text, "display_name"); }
    if Lacks(text, "last_ts") { LacksField(text, "last_ts"); }
    if Lacks(text, "last_snippet") { LacksField(text, "last_snippet"); }
    if Lacks(text, "unread") { LacksField(text, "unread"); }
  }

  // ----- the loops -----

  /** `json_escape`. */
  method JsonEscape(s: string) returns (out: string)
    ensures out == Escape(s)
  {
    out := [];
    assert s[0..] == s;
    for i := 0 to |s|
      invariant out + Escape(s[i..]) == Escape(s)
    {
      assert s[i..][1..] == s[i + 1..];
      ghost var before := out;
      out := out + EscapeChar(s[i]);
      assert before + (EscapeChar(s[i]) + Escape(s[i + 1..])) == out + Escape(s[i + 1..]);
    }
  }

  ghost function Prefixed(done: string, rest: Option<string>): Option<string> {
    match rest case None => None case Some(t) => Some(done + t)
  }

  lemma PrefixedTwice(a: string, b: string, rest: Option<string>)
    ensures Prefixed(a, Prefixed(b, rest)) == Prefixed(a + b, rest)
    ensures Prefixed([], rest) == rest && Prefixed(a, Some([])) == Some(a)
  {
    assert a + [] == a;
    if rest.Some? {
      assert a + (b + rest.value) == a + b + rest.value;
      assert [] + rest.value == rest.value;
    }
  }

  /** The character loop of `extract_string_field`. */
  method ReadString(rest: string) returns (r: Option<string>)
    ensures r == ParseString(rest)
  {
    var out, i := "", 0;
    assert rest[0..] == rest;
    PrefixedTwice("", "", ParseString(rest));
    while i < |rest|
      invariant i <= |rest|
      invariant ParseString(rest) == Prefixed(out, ParseString(rest[i..]))
    {
      var c := rest[i];
      if c == '"' {
        PrefixedTwice(out, "", Some([]));
        return Some(out);
      }
      if c == '\\' {
        if i + 1 == |rest| {
          return None;
        }
        assert rest[i..][2..] == rest[i + 2..];
        PrefixedTwice(out, Unescape(rest[i + 1]), ParseString(rest[i + 2..]));
        out := out + Unescape(rest[i + 1]);
        i := i + 2;
      } else {
        assert rest[i..][1..] == rest[i + 1..];
        PrefixedTwice(out, [c], ParseString(rest[i + 1..]));
        out := out + [c];
        i := i + 1;
      }
    }
    r := None;
  }
}
