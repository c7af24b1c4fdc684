/** `parseLocation` and the coordinate strip of the SMS webhook
    (backend/server.js). Both use the case-insensitive pattern

      (?:lat:?\s*)?(-?\d+\.?\d*)[,\s]+(?:lng:?\s*)?(-?\d+\.?\d*)

    without the global flag, so both act on its leftmost match.

    The model is a scanner that takes every part of the pattern as far as it
    goes (`MatchAt`, `FindMatch`), set against a declarative reading of the
    pattern's language (`Decomposes`). Every part except the last number is
    forced: a shorter choice leaves a character that the next part cannot
    start with. The backtracking matcher therefore finds exactly the
    decomposition that the scanner builds, whose last number is the longest
    one (its quantifiers are greedy and nothing follows them). */
module Location {
  import opened Wrappers
  import opened Text

  /** A coordinate as the server receives it, before `parseFloat`: the text
      of a number (a lexeme the pattern matched, or a JSON string) or a JSON
      number. */
  datatype Coordinate = Lexeme(text: string) | Number(value: real)

  datatype Coordinates = Coordinates(latitude: Coordinate, longitude: Coordinate)

  /** New York City, used when the text holds no coordinate pair. */
  const DefaultCoordinates := Coordinates(Number(40.7128), Number(-74.0060))

  /** The characters of `[,\s]`. */
  predicate IsSeparator(c: char) {
    c == ',' || IsSpace(c)
  }

  /** A run of `p` that stops where `p` fails ends where `RunEnd` says. */
  lemma RunEndUnique(s: string, i: nat, j: nat, p: char -> bool)
    requires i <= j <= |s|
    requires AllIn(s, i, j, p)
    requires j == |s| || !p(s[j])
    ensures RunEnd(s, i, p) == j
  {
  }

  /** The three letters of `w` at `i`, ignoring ASCII case (the `i` flag
      without `u` folds ASCII letters only). */
  predicate WordAt(s: string, i: nat, w: string) {
    i + |w| <= |s| && forall k :: 0 <= k < |w| ==> LowerAscii(s[i + k]) == w[k]
  }

  /** The end of `(?:w:?\s*)?` taken as far as it goes from `i`. */
  function LabelEnd(s: string, i: nat, w: string): (j: nat)
    requires i <= |s|
    ensures i <= j <= |s|
  {
    if WordAt(s, i, w) then
      var k := i + |w|;
      RunEnd(s, if k < |s| && s[k] == ':' then k + 1 else k, IsSpace)
    else i
  }

  /** The end of `-?\d+\.?\d*` taken as far as it goes from `i`, or None
      when no digit follows the optional sign. */
  function NumberEnd(s: string, i: nat): (r: Option<nat>)
    requires i <= |s|
    ensures r.Some? ==> i < r.value <= |s|
  {
    var j := if i < |s| && s[i] == '-' then i + 1 else i;
    var k := RunEnd(s, j, IsDigit);
    if k == j then None
    else if k < |s| && s[k] == '.' then Some(RunEnd(s, k + 1, IsDigit))
    else Some(k)
  }

  /** Positions of one match: it starts at `start`; the latitude lexeme
      (group 1) is `s[latFrom..latTo]`; the separator ends at `sepEnd`; the
      longitude lexeme (group 2) is `s[lngFrom..end]`. */
  datatype Match = Match(start: nat, latFrom: nat, latTo: nat, sepEnd: nat, lngFrom: nat, end: nat)

  /** The positions of `m` are in order and inside `s`. */
  predicate InOrder(s: string, m: Match) {
    m.start <= m.latFrom < m.latTo < m.sepEnd <= m.lngFrom < m.end <= |s|
  }

  /** The match the pattern makes when tried at `st`, if any. */
  function MatchAt(s: string, st: nat): (r: Option<Match>)
    requires st <= |s|
    ensures r.Some? ==> r.value.start == st && InOrder(s, r.value)
  {
    var a := LabelEnd(s, st, "lat");
    match NumberEnd(s, a)
    case None => None
    case Some(b) =>
      var c := RunEnd(s, b, IsSeparator);
      if c == b then None
      else
        var d := LabelEnd(s, c, "lng");
        match NumberEnd(s, d)
        case None => None
        case Some(e) => Some(Match(st, a, b, c, d, e))
  }

  /** The first index from `i` on whose entry is present, or `|a|`. */
  function FirstSome<T>(a: seq<Option<T>>, i: nat): (j: nat)
    requires i <= |a|
    ensures i <= j <= |a|
    ensures j < |a| ==> a[j].Some?
    ensures forall k :: i <= k < j ==> a[k].None?
    decreases |a| - i
  {
    if i == |a| || a[i].Some? then i else FirstSome(a, i + 1)
  }

  /** What the pattern makes when tried at each start `0 <= st <= |s|`. */
  function Attempts(s: string): (a: seq<Option<Match>>)
    ensures |a| == |s| + 1
  {
    seq(|s| + 1, st requires 0 <= st <= |s| => MatchAt(s, st))
  }

  /** `text.match(coordPattern)`: the match at the first start where the
      pattern matches, trying starts left to right. */
  function FindMatch(s: string): (r: Option<Match>)
    ensures r.Some? ==> InOrder(s, r.value)
  {
    var a := Attempts(s);
    var j := FirstSome(a, 0);
    if j < |a| then a[j] else None
  }

  // ---------------------------------------------------------------------
  // The language of the pattern, stated without any scanning order.

  /** `s[i..j]` is a lexeme of `-?\d+\.?\d*`: an optional minus sign, then a
      digit, then digits with at most one decimal point among them. */
  predicate NumberSpan(s: string, i: int, j: int) {
    0 <= i < j <= |s| &&
    var f := if s[i] == '-' then i + 1 else i;
    f < j && IsDigit(s[f]) &&
    (forall k :: f <= k < j ==> IsDigit(s[k]) || s[k] == '.') &&
    (forall k1, k2 :: f <= k1 < j && f <= k2 < j && s[k1] == '.' && s[k2] == '.' ==> k1 == k2)
  }

  /** `s[i..j]` is a lexeme of `(?:w:?\s*)?`. */
  predicate LabelSpan(s: string, i: int, j: int, w: string) {
    0 <= i <= j <= |s| &&
    (j == i ||
      (WordAt(s, i, w) && i + |w| <= j &&
        (AllIn(s, i + |w|, j, IsSpace) ||
         (i + |w| < j && s[i + |w|] == ':' && AllIn(s, i + |w| + 1, j, IsSpace)))))
  }

  /** `s[i..j]` is a lexeme of `[,\s]+`. */
  predicate SeparatorSpan(s: string, i: int, j: int) {
    0 <= i < j <= |s| && AllIn(s, i, j, IsSeparator)
  }

  /** `s[st..e]` is split by `a`, `b`, `c`, `d` into the five parts of the
      pattern: the `lat` label, the first number, the separator, the `lng`
      label and the second number. */
  predicate Decomposes(s: string, st: int, a: int, b: int, c: int, d: int, e: int) {
    LabelSpan(s, st, a, "lat") && NumberSpan(s, a, b) && SeparatorSpan(s, b, c) &&
    LabelSpan(s, c, d, "lng") && NumberSpan(s, d, e)
  }

  /** The pattern can match starting at `st`. */
  ghost predicate MatchesAt(s: string, st: int) {
    exists a, b, c, d, e :: Decomposes(s, st, a, b, c, d, e)
  }

  predicate IsDecomposition(s: string, m: Match) {
    Decomposes(s, m.start, m.latFrom, m.latTo, m.sepEnd, m.lngFrom, m.end)
  }

  // ---------------------------------------------------------------------
  // The scanner against the language.

  /** What the number scanner reads is a number lexeme, and every lexeme
      starting at `i` is a prefix of it whose end, if short of the scanner's,
      sits on a digit or the decimal point. */
  lemma NumberEndCorrect(s: string, i: nat)
    requires i <= |s|
    ensures NumberEnd(s, i).Some? ==> NumberSpan(s, i, NumberEnd(s, i).value)
    ensures forall j :: NumberSpan(s, i, j) ==>
      NumberEnd(s, i).Some? && j <= NumberEnd(s, i).value &&
      (j < NumberEnd(s, i).value ==> IsDigit(s[j]) || s[j] == '.')
  {
    var f := if i < |s| && s[i] == '-' then i + 1 else i;
    var k := RunEnd(s, f, IsDigit);
    forall j | NumberSpan(s, i, j)
      ensures NumberEnd(s, i).Some? && j <= NumberEnd(s, i).value
      ensures j < NumberEnd(s, i).value ==> IsDigit(s[j]) || s[j] == '.'
    {
      assert IsDigit(s[f]);
      if k < j {
        assert s[k] == '.';
        var m := RunEnd(s, k + 1, IsDigit);
        forall q | k + 1 <= q < j ensures IsDigit(s[q]) {
          assert s[q] != '.';
        }
      }
    }
  }

  /** A label followed by a number ends where the label scanner says. */
  lemma LabelEndUnique(s: string, i: nat, j: nat, w: string)
    requires |w| > 0 && w[0] != '-' && !IsDigit(w[0])
    requires LabelSpan(s, i, j, w)
    requires j < |s| && (s[j] == '-' || IsDigit(s[j]))
    ensures LabelEnd(s, i, w) == j
  {
    if WordAt(s, i, w) {
      var k := i + |w|;
      if j == i {
      } else if k < |s| && s[k] == ':' {
        RunEndUnique(s, k + 1, j, IsSpace);
      } else {
        RunEndUnique(s, k, j, IsSpace);
      }
    }
  }

  /** Soundness: a match the scanner reports is a decomposition. */
  lemma MatchAtSound(s: string, st: nat)
    requires st <= |s|
    ensures MatchAt(s, st).Some? ==> IsDecomposition(s, MatchAt(s, st).value)
  {
    var a := LabelEnd(s, st, "lat");
    NumberEndCorrect(s, a);
    if NumberEnd(s, a).Some? {
      var b := NumberEnd(s, a).value;
      var c := RunEnd(s, b, IsSeparator);
      var d := LabelEnd(s, c, "lng");
      NumberEndCorrect(s, d);
    }
  }

  /** A `lat` label and a number followed by a separator end where the
      label scanner and the number scanner say. */
  lemma FirstHalfForced(s: string, st: nat, a: int, b: int, c: int)
    requires LabelSpan(s, st, a, "lat") && NumberSpan(s, a, b) && SeparatorSpan(s, b, c)
    ensures LabelEnd(s, st, "lat") == a && NumberEnd(s, a) == Some(b)
  {
    assert s[a] == '-' || IsDigit(s[a]);
    LabelEndUnique(s, st, a, "lat");
    NumberEndCorrect(s, a);
  }

  /** After the first number, a separator followed by a `lng` label and a
      number ends where the separator scanner says, and the label where the
      label scanner says. */
  lemma SecondHalfForced(s: string, b: nat, c: int, d: int, e: int)
    requires SeparatorSpan(s, b, c) && LabelSpan(s, c, d, "lng") && NumberSpan(s, d, e)
    ensures RunEnd(s, b, IsSeparator) == c && LabelEnd(s, c, "lng") == d
  {
    assert s[d] == '-' || IsDigit(s[d]);
    if c < d {
      assert LowerAscii(s[c + 0]) == "lng"[0];
    }
    RunEndUnique(s, b, c, IsSeparator);
    LabelEndUnique(s, c, d, "lng");
  }

  /** Completeness: whenever the pattern can match at `st`, the scanner
      finds a match there, every part but the last number is the same as in
      any other decomposition, and the last number is the longest. */
  lemma MatchAtComplete(s: string, st: nat, a: int, b: int, c: int, d: int, e: int)
    requires st <= |s|
    requires Decomposes(s, st, a, b, c, d, e)
    ensures MatchAt(s, st).Some?
    ensures var m := MatchAt(s, st).value;
      m.latFrom == a && m.latTo == b && m.sepEnd == c && m.lngFrom == d && e <= m.end
  {
    FirstHalfForced(s, st, a, b, c);
    SecondHalfForced(s, b, c, d, e);
    NumberEndCorrect(s, d);
  }

  /** The scanner reports a match at `st` exactly when the pattern can match there. */
  lemma MatchAtIff(s: string, st: nat)
    requires st <= |s|
    ensures MatchAt(s, st).Some? <==> MatchesAt(s, st)
  {
    MatchAtSound(s, st);
    if MatchAt(s, st).Some? {
      var m := MatchAt(s, st).value;
      assert Decomposes(s, st, m.latFrom, m.latTo, m.sepEnd, m.lngFrom, m.end);
    }
    if MatchesAt(s, st) {
      var a, b, c, d, e :| Decomposes(s, st, a, b, c, d, e);
      MatchAtComplete(s, st, a, b, c, d, e);
    }
  }

  /** A match that `text.match(coordPattern)` returns is a decomposition,
      and the one the scanner builds at its start. */
  lemma FindMatchSound(s: string)
    ensures var r := FindMatch(s);
      r.Some? ==> IsDecomposition(s, r.value) && MatchAt(s, r.value.start) == r
  {
    var r := FindMatch(s);
    if r.Some? {
      var j := FirstSome(Attempts(s), 0);
      assert Attempts(s)[j] == MatchAt(s, j);
      MatchAtSound(s, j);
    }
  }

  /** `text.match(coordPattern)` returns the leftmost match: no start to the
      left of the one it reports has a decomposition, and it returns None
      only when the pattern matches nowhere. */
  lemma FindMatchLeftmost(s: string)
    ensures var r := FindMatch(s);
      forall st :: 0 <= st <= |s| && (r.None? || st < r.value.start) ==> !MatchesAt(s, st)
  {
    var r := FindMatch(s);
    forall st | 0 <= st <= |s| && (r.None? || st < r.value.start)
      ensures !MatchesAt(s, st)
    {
      assert Attempts(s)[st] == MatchAt(s, st);
      MatchAtIff(s, st);
    }
  }

  /** Text with no digit holds no coordinate pair. */
  lemma NoDigitNoMatch(s: string)
    requires forall k :: 0 <= k < |s| ==> !IsDigit(s[k])
    ensures FindMatch(s).None?
  {
    FindMatchSound(s);
  }

  // ---------------------------------------------------------------------
  // The two uses of the pattern.

  /** `parseLocation(text)`: the two numbers of the leftmost match, or the
      default pair when there is none. */
  function ParseLocation(text: string): (r: Coordinates)
    ensures FindMatch(text).None? ==> r == DefaultCoordinates
    ensures FindMatch(text).Some? ==>
      var m := FindMatch(text).value;
      r == Coordinates(Lexeme(text[m.latFrom..m.latTo]), Lexeme(text[m.lngFrom..m.end]))
  {
    match FindMatch(text)
    case None => DefaultCoordinates
    case Some(m) =>
      Coordinates(Lexeme(text[m.latFrom..m.latTo]), Lexeme(text[m.lngFrom..m.end]))
  }

  /** `Body.replace(pattern, '')`: the text with the leftmost match removed. */
  function StripCoordinates(text: string): (r: string)
    ensures FindMatch(text).None? ==> r == text
    ensures FindMatch(text).Some? ==>
      var m := FindMatch(text).value;
      |r| == |text| - (m.end - m.start) && r == text[..m.start] + text[m.end..]
  {
    match FindMatch(text)
    case None => text
    case Some(m) =>
      text[..m.start] + text[m.end..]
  }

  /** The parsed coordinates are two number lexemes that lie inside the span
      that the strip removes, latitude before longitude. */
  lemma ParsedCoordinatesAreStripped(text: string)
    requires FindMatch(text).Some?
    ensures var m := FindMatch(text).value;
      && m.start <= m.latFrom < m.latTo < m.lngFrom < m.end <= |text|
      && NumberSpan(text, m.latFrom, m.latTo) && NumberSpan(text, m.lngFrom, m.end)
      && ParseLocation(text) == Coordinates(Lexeme(text[m.latFrom..m.latTo]), Lexeme(text[m.lngFrom..m.end]))
      && StripCoordinates(text) == text[..m.start] + text[m.end..]
  {
    FindMatchSound(text);
  }

  /** Text with no digit keeps the default location and loses nothing. */
  lemma NoDigitDefault(text: string)
    requires forall k :: 0 <= k < |text| ==> !IsDigit(text[k])
    ensures ParseLocation(text) == DefaultCoordinates
    ensures StripCoordinates(text) == text
  {
    NoDigitNoMatch(text);
  }
}
