/**
 * String helpers the form logic is built on: JavaScript's `trim()` and `\s`,
 * the ASCII character classes of the regular expressions, lower-casing, and
 * "the text after the last separator" (`s.split(sep).pop()`).
 *
 * Strings are sequences of Unicode code points; JavaScript counts UTF-16
 * code units instead, which only differs outside the Basic Multilingual Plane.
 */
module Text {

  /** ECMAScript WhiteSpace and LineTerminator code points: what `trim()` strips and `\s` matches. */
  predicate IsSpace(c: char) {
    || c == '\t' || c == '\n' || c == '\U{000B}' || c == '\U{000C}' || c == '\r'
    || c == ' ' || c == '\U{00A0}' || c == '\U{1680}'
    || ('\U{2000}' <= c <= '\U{200A}')
    || c == '\U{2028}' || c == '\U{2029}' || c == '\U{202F}' || c == '\U{205F}'
    || c == '\U{3000}' || c == '\U{FEFF}'
  }

  /** Regular-expression `\d` and `[0-9]`. */
  predicate IsDigit(c: char) { '0' <= c <= '9' }

  /** Regular-expression `[A-Z]`. */
  predicate IsUpper(c: char) { 'A' <= c <= 'Z' }

  /** Regular-expression `[A-Za-z0-9]`. */
  predicate IsAlphanumeric(c: char) { IsUpper(c) || ('a' <= c <= 'z') || IsDigit(c) }

  /** Some character of `s` is not whitespace. */
  predicate HasVisibleChar(s: string) {
    exists i | 0 <= i < |s| :: !IsSpace(s[i])
  }

  /** `s` with its leading whitespace removed. */
  function TrimStart(s: string): (r: string)
    ensures |r| <= |s| && r == s[|s| - |r|..]
    ensures forall i | 0 <= i < |s| - |r| :: IsSpace(s[i])
    ensures r == [] || !IsSpace(r[0])
  {
    if s != [] && IsSpace(s[0]) then TrimStart(s[1..]) else s
  }

  /** `s` with its trailing whitespace removed. */
  function TrimEnd(s: string): (r: string)
    ensures |r| <= |s| && r == s[..|r|]
    ensures forall i | |r| <= i < |s| :: IsSpace(s[i])
    ensures r == [] || !IsSpace(r[|r| - 1])
  {
    if s != [] && IsSpace(s[|s| - 1]) then TrimEnd(s[..|s| - 1]) else s
  }

  /** JavaScript's `s.trim()`. */
  function Trim(s: string): string {
    TrimEnd(TrimStart(s))
  }

  /** `Trim(s)` is a contiguous piece of `s` with only whitespace cut off
      either side, and it neither starts nor ends with whitespace. */
  lemma TrimIsSlice(s: string)
    ensures exists lo, hi | 0 <= lo <= hi <= |s| ::
      && Trim(s) == s[lo..hi]
      && (forall i | 0 <= i < lo :: IsSpace(s[i]))
      && (forall i | hi <= i < |s| :: IsSpace(s[i]))
    ensures Trim(s) == [] || (!IsSpace(Trim(s)[0]) && !IsSpace(Trim(s)[|Trim(s)| - 1]))
  {
    hide IsSpace, TrimStart, TrimEnd;
    var t := TrimStart(s);
    var u := TrimEnd(t);
    var lo := |s| - |t|;
    var hi := lo + |u|;
    assert Trim(s) == u;
    assert u == s[lo..hi];
    assert forall i | 0 <= i < lo :: IsSpace(s[i]);
    forall i | hi <= i < |s| ensures IsSpace(s[i]) {
      assert s[i] == t[i - lo];
    }
    assert u == [] || (!IsSpace(u[0]) && !IsSpace(u[|u| - 1])) by {
      if u != [] { assert u[0] == t[0]; }
    }
    assert 0 <= lo <= hi <= |s|
      && Trim(s) == s[lo..hi]
      && (forall i | 0 <= i < lo :: IsSpace(s[i]))
      && (forall i | hi <= i < |s| :: IsSpace(s[i]));
  }

  /** The trimmed value is non-empty exactly when the value holds a
      non-whitespace character; this is what every "required" check tests. */
  lemma TrimEmptyIff(s: string)
    ensures Trim(s) != [] <==> HasVisibleChar(s)
  {
    var t := TrimStart(s);
    if Trim(s) != [] {
      assert !IsSpace(Trim(s)[0]) && Trim(s)[0] == s[|s| - |t|];
    }
  }

  /** Trimming twice is trimming once. */
  lemma TrimIdempotent(s: string)
    ensures Trim(Trim(s)) == Trim(s)
  {
    var t := Trim(s);
    TrimIsSlice(s);
    assert TrimStart(t) == t;
    assert TrimEnd(t) == t;
  }

  /** ASCII lower-casing of one character. */
  function LowerChar(c: char): char {
    if IsUpper(c) then (c as int + 32) as char else c
  }

  /** JavaScript's `s.toLowerCase()`, restricted to the ASCII letters. */
  function ToLower(s: string): (r: string)
    ensures |r| == |s|
    ensures forall i | 0 <= i < |s| :: r[i] == LowerChar(s[i])
  {
    if s == [] then [] else [LowerChar(s[0])] + ToLower(s[1..])
  }

  /** `s.split(sep).pop()`: the text after the last `sep`, or all of `s` when it has none. */
  function AfterLast(s: string, sep: char): (r: string)
    ensures |r| <= |s| && r == s[|s| - |r|..]
    ensures sep !in r
    ensures |r| < |s| ==> s[|s| - |r| - 1] == sep
  {
    if s == [] then []
    else if s[|s| - 1] == sep then []
    else AfterLast(s[..|s| - 1], sep) + [s[|s| - 1]]
  }

  /** The text after the last `sep` of `prefix + [sep] + tail`, when `tail` has none, is `tail`. */
  lemma {:induction false} AfterLastOfSuffix(prefix: string, sep: char, tail: string)
    requires sep !in tail
    ensures AfterLast(prefix + [sep] + tail, sep) == tail
  {
    if tail != [] {
      var s := prefix + [sep] + tail;
      assert s[..|s| - 1] == prefix + [sep] + tail[..|tail| - 1];
      AfterLastOfSuffix(prefix, sep, tail[..|tail| - 1]);
    } else {
      assert (prefix + [sep] + tail)[|prefix|] == sep;
    }
  }
}
