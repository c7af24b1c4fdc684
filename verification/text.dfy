/** The few JavaScript string primitives the server relies on: the `\s`
    character class, `\d`, `toLowerCase`, `includes` and `trim`. */
module Text {

  /** JavaScript's `\s` class; `String.prototype.trim` strips exactly this set. */
  predicate IsSpace(c: char) {
    c == ' ' || ('\t' <= c <= '\r') || ('\U{A0}' <= c && IsWideSpace(c))
  }

  /** The white space of `\s` beyond ASCII. */
  predicate IsWideSpace(c: char) {
    c == '\U{A0}' || c == '\U{1680}' || ('\U{2000}' <= c <= '\U{200A}') ||
    c == '\U{2028}' || c == '\U{2029}' || c == '\U{202F}' || c == '\U{205F}' ||
    c == '\U{3000}' || c == '\U{FEFF}'
  }

  /** JavaScript's `\d` class: the ASCII digits only. */
  predicate IsDigit(c: char) {
    '0' <= c <= '9'
  }

  /** Every character of `s[i..j]` satisfies `p`. */
  predicate AllIn(s: string, i: int, j: int, p: char -> bool) {
    0 <= i <= j <= |s| && forall k :: i <= k < j ==> p(s[k])
  }

  /** The end of the longest run of `p`-characters starting at `i`. */
  function RunEnd(s: string, i: nat, p: char -> bool): (j: nat)
    requires i <= |s|
    ensures i <= j <= |s|
    ensures AllIn(s, i, j, p)
    ensures j == |s| || !p(s[j])
    decreases |s| - i
  {
    if i < |s| && p(s[i]) then RunEnd(s, i + 1, p) else i
  }

  /** The start of the longest run of `p`-characters ending at `j`, going
      no further left than `lo`. */
  function RunStart(s: string, lo: nat, j: nat, p: char -> bool): (i: nat)
    requires lo <= j <= |s|
    ensures lo <= i <= j
    ensures AllIn(s, i, j, p)
    ensures i == lo || !p(s[i - 1])
    decreases j
  {
    if lo < j && p(s[j - 1]) then RunStart(s, lo, j - 1, p) else j
  }

  /** `toLowerCase` restricted to ASCII: other characters are left alone. */
  function LowerAscii(c: char): char {
    if 'A' <= c <= 'Z' then (c as int + 32) as char else c
  }

  function ToLower(s: string): (r: string)
    ensures |r| == |s|
    ensures forall k :: 0 <= k < |s| ==> r[k] == LowerAscii(s[k])
  {
    seq(|s|, k requires 0 <= k < |s| => LowerAscii(s[k]))
  }

  /** A string without upper-case ASCII letters is its own lower-case form. */
  lemma ToLowerOfLower(s: string)
    requires forall k :: 0 <= k < |s| ==> !('A' <= s[k] <= 'Z')
    ensures ToLower(s) == s
  {
  }

  /** `needle` occurs in `s` at offset `i`. */
  predicate OccursAt(s: string, needle: string, i: int) {
    0 <= i && i + |needle| <= |s| && s[i..i + |needle|] == needle
  }

  /** `s.includes(needle)`: the needle occurs at some offset. */
  predicate Contains(s: string, needle: string) {
    exists i :: 0 <= i <= |s| - |needle| && OccursAt(s, needle, i)
  }

  /** `includes` holds when the needle's characters appear one after the
      other from some offset on. */
  lemma ContainsAt(s: string, needle: string, i: nat)
    requires i + |needle| <= |s|
    requires forall k :: 0 <= k < |needle| ==> s[i + k] == needle[k]
    ensures Contains(s, needle)
  {
    assert OccursAt(s, needle, i);
  }

  /** A needle holding a character the text lacks never occurs in it. */
  lemma MissingChar(s: string, needle: string, c: char)
    requires c in needle && c !in s
    ensures !Contains(s, needle)
  {
    forall i | 0 <= i <= |s| - |needle| && OccursAt(s, needle, i) ensures false {
    }
  }

  /** None of the needles occurs in `s`. */
  predicate NoneOccur(s: string, needles: seq<string>) {
    forall j :: 0 <= j < |needles| ==> !Contains(s, needles[j])
  }

  /** `MissingChar` for a list of needles, each with a character of its own
      that the text lacks. */
  lemma MissingChars(s: string, needles: seq<string>, cs: seq<char>)
    requires |needles| == |cs|
    requires forall j :: 0 <= j < |cs| ==> cs[j] in needles[j] && cs[j] !in s
    ensures NoneOccur(s, needles)
  {
    forall j | 0 <= j < |needles| ensures !Contains(s, needles[j]) {
      MissingChar(s, needles[j], cs[j]);
    }
  }

  /** A needle whose first character appears in the text only at offsets
      where the rest of the needle does not follow never occurs in it. */
  lemma NotContainsByFirstChar(s: string, needle: string)
    requires needle != []
    requires forall k :: 0 <= k < |s| && s[k] == needle[0] ==> !OccursAt(s, needle, k)
    ensures !Contains(s, needle)
  {
    forall i | 0 <= i <= |s| - |needle| && OccursAt(s, needle, i) ensures false {
    }
  }

  /** `s.trim()`: the part of `s` left after removing every leading and
      trailing white-space character. */
  function Trim(s: string): (r: string)
    ensures exists i :: (0 <= i && i + |r| <= |s| && r == s[i..i + |r|] &&
                         AllIn(s, 0, i, IsSpace) && AllIn(s, i + |r|, |s|, IsSpace))
    ensures r == [] || (!IsSpace(r[0]) && !IsSpace(r[|r| - 1]))
  {
    var i := RunEnd(s, 0, IsSpace);
    var j := RunStart(s, i, |s|, IsSpace);
    s[i..j]
  }
}
