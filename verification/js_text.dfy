/**
 The part of ECMAScript's string library that the chat widget relies on:
 `String.prototype.trim`, which strips the characters of the WhiteSpace and
 LineTerminator productions of ECMA-262 from both ends of a string.

 JavaScript strings are UTF-16, but every character trim strips lies in the
 Basic Multilingual Plane, so for well-formed strings working on Unicode scalar
 values (Dafny's `char`) gives the same answer. A lone surrogate has no `char`
 and is outside this model.
 */
module JsText {

  /** The WhiteSpace (TAB, VT, FF, ZWNBSP and every Zs space separator) and
      LineTerminator (LF, CR, LS, PS) characters of ECMA-262. */
  predicate IsJsWhitespace(c: char) {
    || c == '\t' || c == '\n' || c == '\U{000B}' || c == '\U{000C}' || c == '\r'
    || c == ' ' || c == '\U{00A0}' || c == '\U{1680}'
    || ('\U{2000}' <= c <= '\U{200A}')
    || c == '\U{2028}' || c == '\U{2029}' || c == '\U{202F}' || c == '\U{205F}'
    || c == '\U{3000}' || c == '\U{FEFF}'
  }

  /** Every character of `s` is whitespace; in particular the empty string is blank. */
  predicate IsBlank(s: string) {
    forall i :: 0 <= i < |s| ==> IsJsWhitespace(s[i])
  }

  /** `s` with its leading whitespace removed: a suffix of `s`, the removed
      part is blank, and what is left does not start with whitespace. */
  function TrimStart(s: string): (r: string)
    ensures |r| <= |s| && r == s[|s| - |r|..]
    ensures IsBlank(s[..|s| - |r|])
    ensures r == [] || !IsJsWhitespace(r[0])
    decreases |s|
  {
    if |s| > 0 && IsJsWhitespace(s[0]) then
      var rest := TrimStart(s[1..]);
      assert s[..|s| - |rest|] == [s[0]] + s[1..][..|s| - 1 - |rest|];
      rest
    else
      s
  }

  /** `s` with its trailing whitespace removed: a prefix of `s`, the removed
      part is blank, and what is left does not end with whitespace. */
  function TrimEnd(s: string): (r: string)
    ensures |r| <= |s| && r == s[..|r|]
    ensures IsBlank(s[|r|..])
    ensures r == [] || !IsJsWhitespace(r[|r| - 1])
    decreases |s|
  {
    if |s| > 0 && IsJsWhitespace(s[|s| - 1]) then
      var rest := TrimEnd(s[..|s| - 1]);
      assert s[|rest|..] == s[..|s| - 1][|rest|..] + [s[|s| - 1]];
      rest
    else
      s
  }

  /** ECMAScript `s.trim()`. The result is empty exactly when `s` is blank, it
      neither starts nor ends with whitespace, and a string that already has
      no whitespace at either end is returned unchanged; `TrimIsInfix` adds
      that it is what is left of `s` once a blank prefix and a blank suffix
      are cut off. */
  function Trim(s: string): (r: string)
    ensures |r| <= |s|
    ensures r == [] <==> IsBlank(s)
    ensures r == [] || (!IsJsWhitespace(r[0]) && !IsJsWhitespace(r[|r| - 1]))
    ensures s == [] || (!IsJsWhitespace(s[0]) && !IsJsWhitespace(s[|s| - 1])) ==> r == s
  {
    var front := TrimStart(s);
    TrimEmptyIffBlank(s, front);
    TrimEnd(front)
  }

  /** `r` is an infix of `s` and what surrounds it on either side is blank. */
  predicate BetweenBlanks(s: string, r: string) {
    exists k :: 0 <= k && k + |r| <= |s| && r == s[k..k + |r|]
                && IsBlank(s[..k]) && IsBlank(s[k + |r|..])
  }

  /** `s.trim()` is an infix of `s` between a blank prefix and a blank suffix;
      as the result neither starts nor ends with whitespace, these are the
      whole whitespace runs at either end. */
  lemma TrimIsInfix(s: string)
    ensures BetweenBlanks(s, Trim(s))
  {
    var front := TrimStart(s);
    CutBothEnds(s, front, TrimEnd(front));
  }

  /** Cutting a blank prefix off `s`, which leaves `front`, and then a blank
      suffix off `front` leaves an infix of `s` between two blank ends. */
  lemma CutBothEnds(s: string, front: string, r: string)
    requires |front| <= |s| && front == s[|s| - |front|..] && IsBlank(s[..|s| - |front|])
    requires |r| <= |front| && r == front[..|r|] && IsBlank(front[|r|..])
    ensures BetweenBlanks(s, r)
  {
    var k := |s| - |front|;
    assert front[|r|..] == s[k + |r|..];
    assert r == s[k..k + |r|];
  }

  /** The two halves of `Trim` leave nothing exactly when `s` is blank. */
  lemma TrimEmptyIffBlank(s: string, front: string)
    requires front == TrimStart(s)
    ensures TrimEnd(front) == [] <==> IsBlank(s)
  {
    var cut := |s| - |front|;
    assert s == s[..cut] + front;
    if TrimEnd(front) == [] {
      assert front[0..] == front;
    }
  }
}
