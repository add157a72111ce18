/**
 * The JavaScript string primitives the storefront relies on: `toLowerCase`
 * (on ASCII letters), the `\s` / `trim` whitespace class, `trim` and `includes`.
 */
module JsString {

  /** The characters `\s` matches and `trim` strips: WhiteSpace and LineTerminator of ECMAScript. */
  predicate IsWhitespace(c: char) {
    c == ' ' || c == '\t' || c == '\n' || c == '\r' || c == '\U{B}' || c == '\U{C}'
    || c == '\U{A0}' || c == '\U{1680}' || ('\U{2000}' <= c <= '\U{200A}')
    || c == '\U{2028}' || c == '\U{2029}' || c == '\U{202F}' || c == '\U{205F}'
    || c == '\U{3000}' || c == '\U{FEFF}'
  }

  predicate IsAsciiUpper(c: char) { 'A' <= c <= 'Z' }

  /** `toLowerCase` on one character; only ASCII letters are modelled. */
  function LowerChar(c: char): (r: char)
    ensures !IsAsciiUpper(r)
    ensures IsAsciiUpper(c) ==> r != c
    ensures !IsAsciiUpper(c) ==> r == c
  {
    if IsAsciiUpper(c) then (c as int + 32) as char else c
  }

  function ToLower(s: string): (r: string)
    ensures |r| == |s|
    ensures forall i :: 0 <= i < |s| ==> r[i] == LowerChar(s[i])
  {
    seq(|s|, i requires 0 <= i < |s| => LowerChar(s[i]))
  }

  /** Lower-casing leaves a string without ASCII capitals as it is. */
  lemma ToLowerNoCapitals(s: string)
    requires forall i :: 0 <= i < |s| ==> !IsAsciiUpper(s[i])
    ensures ToLower(s) == s
  {
  }

  /** Lower-casing maps whitespace to whitespace and nothing else to whitespace. */
  lemma LowerCharWhitespace(c: char)
    ensures IsWhitespace(LowerChar(c)) <==> IsWhitespace(c)
  {
  }

  function TrimStart(s: string): (r: string)
    ensures |r| <= |s| && r == s[|s| - |r|..]
    ensures r != [] ==> !IsWhitespace(r[0])
    ensures forall i :: 0 <= i < |s| - |r| ==> IsWhitespace(s[i])
  {
    if s != [] && IsWhitespace(s[0]) then TrimStart(s[1..]) else s
  }

  function TrimEnd(s: string): (r: string)
    ensures |r| <= |s| && r == s[..|r|]
    ensures r != [] ==> !IsWhitespace(r[|r| - 1])
    ensures forall i :: |r| <= i < |s| ==> IsWhitespace(s[i])
  {
    if s != [] && IsWhitespace(s[|s| - 1]) then TrimEnd(s[..|s| - 1]) else s
  }

  /** `r` is `s[i..i + |r|]` and everything of `s` outside that slice is whitespace. */
  predicate SliceBetweenWhitespace(s: string, r: string, i: int) {
    && 0 <= i <= |s| - |r|
    && r == s[i..i + |r|]
    && (forall j :: 0 <= j < i ==> IsWhitespace(s[j]))
    && (forall j :: i + |r| <= j < |s| ==> IsWhitespace(s[j]))
  }

  /** Trimming the end and then the start leaves the slice between the whitespace at both ends. */
  lemma TrimmedIsSlice(s: string)
    ensures SliceBetweenWhitespace(s, TrimStart(TrimEnd(s)), |TrimEnd(s)| - |TrimStart(TrimEnd(s))|)
  {
    var e := TrimEnd(s);
    var r := TrimStart(e);
    SliceOfPrefix(s, e, r);
  }

  /** A suffix `r` of a prefix `e` of `s` is the slice of `s` ending where `e` ends. */
  lemma SliceOfPrefix(s: string, e: string, r: string)
    requires |e| <= |s| && e == s[..|e|]
    requires |r| <= |e| && r == e[|e| - |r|..]
    ensures r == s[|e| - |r|..|e|]
    ensures forall j :: 0 <= j < |e| - |r| ==> s[j] == e[j]
  {
  }

  /** `s.trim()`: `s` without leading and trailing whitespace. */
  function Trim(s: string): (r: string)
    ensures r != [] ==> !IsWhitespace(r[0]) && !IsWhitespace(r[|r| - 1])
    ensures |r| <= |s|
    ensures r == [] <==> forall i :: 0 <= i < |s| ==> IsWhitespace(s[i])
    ensures (forall i :: 0 <= i < |s| ==> !IsWhitespace(s[i])) ==> r == s
  {
    var e := TrimEnd(s);
    var r := TrimStart(e);
    r
  }

  /** The trimmed text is the slice of `s` left between a whitespace prefix and a whitespace suffix. */
  lemma TrimIsSlice(s: string)
    ensures exists i :: SliceBetweenWhitespace(s, Trim(s), i)
  {
    TrimmedIsSlice(s);
    assert SliceBetweenWhitespace(s, Trim(s), |TrimEnd(s)| - |Trim(s)|);
  }

  /** `s.includes(sub)`: `sub` starts at some position of `s`. */
  predicate Includes(s: string, sub: string)
    decreases |s|
  {
    sub <= s || (s != [] && Includes(s[1..], sub))
  }

  /** Text longer than `s` is never included in it. */
  lemma {:induction false} IncludesNeedsRoom(s: string, sub: string)
    requires |sub| > |s|
    ensures !Includes(s, sub)
    decreases |s|
  {
    if s != [] {
      IncludesNeedsRoom(s[1..], sub);
    }
  }

  /** `includes` finds `sub` exactly where it occurs, and never when it is longer than `s`. */
  lemma {:induction false} IncludesIff(s: string, sub: string)
    ensures Includes(s, sub) <==> exists i :: 0 <= i <= |s| - |sub| && sub <= s[i..]
  {
    if s != [] && !(sub <= s) {
      IncludesIff(s[1..], sub);
      if Includes(s, sub) {
        var i :| 0 <= i <= |s| - 1 - |sub| && sub <= s[1..][i..];
        assert s[1..][i..] == s[i + 1..];
      }
      if exists i :: 0 <= i <= |s| - |sub| && sub <= s[i..] {
        var i :| 0 <= i <= |s| - |sub| && sub <= s[i..];
        assert i != 0;
        assert s[1..][i - 1..] == s[i..];
      }
    } else if s == [] {
      if exists i :: 0 <= i <= |s| - |sub| && sub <= s[i..] {
        var i :| 0 <= i <= |s| - |sub| && sub <= s[i..];
        assert s[i..] == s;
      }
    } else {
      assert s[0..] == s;
    }
  }
}
