/** The string primitives the chatbot and the page scripts rely on:
    `String.prototype.trim`, `toLowerCase` and `includes`, and the `\s`
    character class of regular expressions. */
module Text {

  /** ECMAScript WhiteSpace and LineTerminator code points: the characters
      `trim` removes and `\s` matches. */
  predicate IsWhitespace(c: char) {
    c == '\t' || c == '\n' || c == '\U{000B}' || c == '\U{000C}' || c == '\r' ||
    c == ' ' || c == '\U{00A0}' || c == '\U{1680}' ||
    ('\U{2000}' <= c <= '\U{200A}') ||
    c == '\U{2028}' || c == '\U{2029}' || c == '\U{202F}' || c == '\U{205F}' ||
    c == '\U{3000}' || c == '\U{FEFF}'
  }

  predicate IsBlank(s: string) {
    forall i :: 0 <= i < |s| ==> IsWhitespace(s[i])
  }

  /** Drops leading whitespace. */
  function TrimStart(s: string): (r: string)
    ensures |r| <= |s| && r == s[|s| - |r|..]
    ensures r == [] || !IsWhitespace(r[0])
    ensures IsBlank(s[..|s| - |r|])
  {
    if s != [] && IsWhitespace(s[0]) then TrimStart(s[1..]) else s
  }

  /** Drops trailing whitespace. */
  function TrimEnd(s: string): (r: string)
    ensures |r| <= |s| && r == s[..|r|]
    ensures r == [] || !IsWhitespace(r[|r| - 1])
    ensures IsBlank(s[|r|..])
  {
    if s != [] && IsWhitespace(s[|s| - 1]) then TrimEnd(s[..|s| - 1]) else s
  }

  /** `String.prototype.trim`. */
  function Trim(s: string): (r: string)
  {
    TrimEnd(TrimStart(s))
  }

  /** A string that neither starts nor ends with whitespace is unchanged by
      trimming. */
  lemma TrimKeepsInner(s: string)
    requires s != [] && !IsWhitespace(s[0]) && !IsWhitespace(s[|s| - 1])
    ensures Trim(s) == s
  {
  }

  /** Trimming yields the empty string exactly when every character is
      whitespace: this is the "empty input" test of the chat box. */
  lemma TrimEmptyIffBlank(s: string)
    ensures Trim(s) == "" <==> IsBlank(s)
  {
  }

  /** `toLowerCase` on one character (ASCII letters only). */
  function LowerChar(c: char): char {
    if 'A' <= c <= 'Z' then (c as int + 32) as char else c
  }

  /** `String.prototype.toLowerCase`, restricted to the ASCII case mapping. */
  function ToLower(s: string): (r: string)
    ensures |r| == |s|
    ensures forall i :: 0 <= i < |s| ==> r[i] == LowerChar(s[i])
  {
    seq(|s|, i requires 0 <= i < |s| => LowerChar(s[i]))
  }

  /** `p` occurs in `s` starting at index `i`. */
  predicate OccursAt(s: string, p: string, i: int) {
    0 <= i && i + |p| <= |s| && s[i..i + |p|] == p
  }

  /** `s.includes(p)`: `p` occurs somewhere in `s`. */
  predicate Includes(s: string, p: string) {
    exists i | 0 <= i <= |s| :: OccursAt(s, p, i)
  }

  /** `p` cannot occur where no character of `s` could begin it. */
  lemma NotIncludes(s: string, p: string)
    requires p != []
    requires forall i :: 0 <= i <= |s| - |p| ==> s[i] != p[0]
    ensures !Includes(s, p)
  {
    forall i | 0 <= i <= |s| ensures !OccursAt(s, p, i) {
      if i + |p| <= |s| {
        assert s[i..i + |p|][0] == s[i];
      }
    }
  }

  /** A string without upper-case letters is its own lower-case form. */
  lemma LowerFixed(s: string)
    requires forall i :: 0 <= i < |s| ==> !('A' <= s[i] <= 'Z')
    ensures ToLower(s) == s
  {
  }
}
