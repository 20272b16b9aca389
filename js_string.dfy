/**
 * The parts of JavaScript's String.prototype that the pages rely on.
 * Case mapping is modelled on ASCII letters only; every other character is
 * left as it is.
 */
module JsString {
  import opened JsArray

  predicate IsAsciiUpper(c: char) { 'A' <= c <= 'Z' }
  predicate IsAsciiLower(c: char) { 'a' <= c <= 'z' }
  predicate IsAsciiDigit(c: char) { '0' <= c <= '9' }

  /** The characters kept by `replace(/[^a-z0-9]/gi, '')`. */
  predicate IsAsciiAlnum(c: char) { IsAsciiUpper(c) || IsAsciiLower(c) || IsAsciiDigit(c) }

  /**
   * The class `\s` of JavaScript regular expressions (WhiteSpace and
   * LineTerminator); `String#trim` strips the same characters.
   */
  predicate IsJsWhitespace(c: char) {
    c == '\t' || c == '\n' || c == '\U{000B}' || c == '\U{000C}' || c == '\r' || c == ' '
    || c == '\U{00A0}' || c == '\U{1680}' || ('\U{2000}' <= c <= '\U{200A}')
    || c == '\U{2028}' || c == '\U{2029}' || c == '\U{202F}' || c == '\U{205F}'
    || c == '\U{3000}' || c == '\U{FEFF}'
  }

  predicate IsNotJsWhitespace(c: char) { !IsJsWhitespace(c) }

  function LowerChar(c: char): (r: char)
    ensures !IsAsciiUpper(r)
    ensures IsAsciiAlnum(r) <==> IsAsciiAlnum(c)
  {
    if IsAsciiUpper(c) then (c as int - 'A' as int + 'a' as int) as char else c
  }

  function UpperChar(c: char): (r: char)
    ensures !IsAsciiLower(r)
    ensures IsAsciiAlnum(r) <==> IsAsciiAlnum(c)
  {
    if IsAsciiLower(c) then (c as int - 'a' as int + 'A' as int) as char else c
  }

  /** `s.toLowerCase()`, restricted to ASCII letters. */
  function ToLower(s: string): (r: string)
    ensures |r| == |s|
    ensures forall k | 0 <= k < |s| :: r[k] == LowerChar(s[k])
  {
    if s == [] then [] else [LowerChar(s[0])] + ToLower(s[1..])
  }

  /** `s.toUpperCase()`, restricted to ASCII letters. */
  function ToUpper(s: string): (r: string)
    ensures |r| == |s|
    ensures forall k | 0 <= k < |s| :: r[k] == UpperChar(s[k])
  {
    if s == [] then [] else [UpperChar(s[0])] + ToUpper(s[1..])
  }

  lemma ToLowerHasNoUpper(s: string)
    ensures forall k | 0 <= k < |ToLower(s)| :: !IsAsciiUpper(ToLower(s)[k])
  {
  }

  lemma {:induction false} ToLowerAppend(a: string, b: string)
    ensures ToLower(a + b) == ToLower(a) + ToLower(b)
  {
    if a == [] {
      assert a + b == b;
    } else {
      assert (a + b)[0] == a[0] && (a + b)[1..] == a[1..] + b;
      ToLowerAppend(a[1..], b);
      assert ToLower(a + b) == [LowerChar(a[0])] + (ToLower(a[1..]) + ToLower(b));
    }
  }

  lemma {:induction false} ToUpperAppend(a: string, b: string)
    ensures ToUpper(a + b) == ToUpper(a) + ToUpper(b)
  {
    if a == [] {
      assert a + b == b;
    } else {
      assert (a + b)[0] == a[0] && (a + b)[1..] == a[1..] + b;
      ToUpperAppend(a[1..], b);
      assert ToUpper(a + b) == [UpperChar(a[0])] + (ToUpper(a[1..]) + ToUpper(b));
    }
  }

  /** Lower-casing is idempotent. */
  lemma ToLowerIdempotent(s: string)
    ensures ToLower(ToLower(s)) == ToLower(s)
  {
    assert forall k | 0 <= k < |s| :: ToLower(ToLower(s))[k] == ToLower(s)[k];
  }

  /** A string with no upper-case ASCII letter is its own lower-casing. */
  lemma ToLowerOfLower(s: string)
    requires forall k | 0 <= k < |s| :: !IsAsciiUpper(s[k])
    ensures ToLower(s) == s
  {
    assert forall k | 0 <= k < |s| :: ToLower(s)[k] == s[k];
  }

  /** `s.replace(/\s+/g, '')`: every whitespace character removed. */
  function RemoveWhitespace(s: string): (r: string)
    ensures forall c :: c in r <==> c in s && !IsJsWhitespace(c)
    ensures forall c :: multiset(r)[c] == if IsJsWhitespace(c) then 0 else multiset(s)[c]
    ensures IsSubsequence(r, s)
  {
    FilterIsSubsequence(s, IsNotJsWhitespace);
    FilterMultiset(s, IsNotJsWhitespace);
    Filter(s, IsNotJsWhitespace)
  }

  /** `hay.includes(needle)`. */
  predicate Includes(hay: string, needle: string) {
    exists i | 0 <= i <= |hay| - |needle| :: IncludesAt(hay, needle, i)
  }

  /** `needle` occurs in `hay` starting at position `i`. */
  predicate IncludesAt(hay: string, needle: string, i: int) {
    0 <= i <= |hay| - |needle| && hay[i..i + |needle|] == needle
  }

  lemma IncludesEmpty(hay: string)
    ensures Includes(hay, "")
  {
    assert IncludesAt(hay, "", 0);
  }

  lemma IncludesSelf(hay: string)
    ensures Includes(hay, hay)
  {
    assert IncludesAt(hay, hay, 0);
  }

  /** If `hay` contains `needle + more`, it contains `needle`. */
  lemma IncludesPrefix(hay: string, needle: string, more: string)
    requires Includes(hay, needle + more)
    ensures Includes(hay, needle)
  {
    var i :| 0 <= i <= |hay| - |needle + more| && IncludesAt(hay, needle + more, i);
    assert hay[i..i + |needle + more|] == needle + more;
    assert hay[i..i + |needle|] == (needle + more)[..|needle|] == needle;
    assert IncludesAt(hay, needle, i);
  }

  /** `s.startsWith(prefix)`. */
  predicate StartsWith(s: string, prefix: string) {
    |prefix| <= |s| && s[..|prefix|] == prefix
  }

  /** Two prefixes of one string: one of them is a prefix of the other. */
  lemma StartsWithBoth(s: string, a: string, b: string)
    requires StartsWith(s, a) && StartsWith(s, b) && |a| <= |b|
    ensures StartsWith(b, a)
  {
    assert b[..|a|] == s[..|b|][..|a|] == s[..|a|];
  }

  function TrimStart(s: string): (r: string)
    ensures |r| <= |s| && r == s[|s| - |r|..]
    ensures r == [] || !IsJsWhitespace(r[0])
    ensures forall k | 0 <= k < |s| - |r| :: IsJsWhitespace(s[k])
  {
    if s != [] && IsJsWhitespace(s[0]) then
      var r := TrimStart(s[1..]);
      assert forall k | 1 <= k < |s| - |r| :: s[k] == s[1..][k - 1];
      r
    else s
  }

  function TrimEnd(s: string): (r: string)
    ensures |r| <= |s| && r == s[..|r|]
    ensures r == [] || !IsJsWhitespace(r[|r| - 1])
    ensures forall k | |r| <= k < |s| :: IsJsWhitespace(s[k])
  {
    if s != [] && IsJsWhitespace(s[|s| - 1]) then TrimEnd(s[..|s| - 1]) else s
  }

  /** `s.trim()`: whitespace stripped from both ends. */
  function Trim(s: string): (r: string)
    ensures exists i, j | 0 <= i <= j <= |s| ::
      r == s[i..j] && (forall k | 0 <= k < i :: IsJsWhitespace(s[k])) && (forall k | j <= k < |s| :: IsJsWhitespace(s[k]))
    ensures r == [] || (!IsJsWhitespace(r[0]) && !IsJsWhitespace(r[|r| - 1]))
    ensures r == [] <==> forall k | 0 <= k < |s| :: IsJsWhitespace(s[k])
  {
    var t := TrimStart(s);
    var r := TrimEnd(t);
    assert r == s[|s| - |t|..|s| - |t| + |r|];
    r
  }

  /** Number of occurrences of `c` in `s`. */
  function Count(s: string, c: char): (n: nat)
    ensures n <= |s|
    ensures n == 0 <==> c !in s
  {
    if s == [] then 0 else (if s[0] == c then 1 else 0) + Count(s[1..], c)
  }

  lemma {:induction false} CountAppend(a: string, b: string, c: char)
    ensures Count(a + b, c) == Count(a, c) + Count(b, c)
  {
    if a == [] {
      assert a + b == b;
    } else {
      assert (a + b)[1..] == a[1..] + b;
      CountAppend(a[1..], b, c);
    }
  }
}
