/**
 * The `normalize` helper that the student list, the student form and the
 * teacher form each define identically: NFD decomposition, removal of the
 * combining marks U+0300..U+036F, removal of whitespace, and removal of every
 * character outside [A-Za-z0-9]. Case is left alone.
 *
 * NFD is modelled by the canonical decompositions of the Latin-1 letters
 * U+00C0..U+00FF (the accented letters of French and Wolof names); every
 * other character is its own decomposition.
 */
module Normalization {
  import opened JsArray
  import opened JsString

  /** A base letter of ASCII: what every decomposition in the table starts with. */
  type AsciiLetter = c: char | IsAsciiUpper(c) || IsAsciiLower(c) witness 'a'

  /** A combining diacritical mark, U+0300..U+036F. */
  type CombiningMark = c: char | IsCombiningMark(c) witness '\U{0300}'

  /**
   * The canonical decomposition of one Latin-1 letter: a base letter and one
   * combining mark, or none at all (Æ, Ð, ×, Ø, Þ, ß, æ, ð, ÷, ø, þ).
   */
  datatype Nfd = Single | Pair(base: AsciiLetter, mark: CombiningMark)

  /** NFD of U+00C0 + k for k < 64. */
  const Latin1Nfd: seq<Nfd> := [
    Pair('A', '\U{0300}'), Pair('A', '\U{0301}'), Pair('A', '\U{0302}'), Pair('A', '\U{0303}'),
    Pair('A', '\U{0308}'), Pair('A', '\U{030A}'), Single, Pair('C', '\U{0327}'),
    Pair('E', '\U{0300}'), Pair('E', '\U{0301}'), Pair('E', '\U{0302}'), Pair('E', '\U{0308}'),
    Pair('I', '\U{0300}'), Pair('I', '\U{0301}'), Pair('I', '\U{0302}'), Pair('I', '\U{0308}'),
    Single, Pair('N', '\U{0303}'), Pair('O', '\U{0300}'), Pair('O', '\U{0301}'),
    Pair('O', '\U{0302}'), Pair('O', '\U{0303}'), Pair('O', '\U{0308}'), Single,
    Single, Pair('U', '\U{0300}'), Pair('U', '\U{0301}'), Pair('U', '\U{0302}'),
    Pair('U', '\U{0308}'), Pair('Y', '\U{0301}'), Single, Single,
    Pair('a', '\U{0300}'), Pair('a', '\U{0301}'), Pair('a', '\U{0302}'), Pair('a', '\U{0303}'),
    Pair('a', '\U{0308}'), Pair('a', '\U{030A}'), Single, Pair('c', '\U{0327}'),
    Pair('e', '\U{0300}'), Pair('e', '\U{0301}'), Pair('e', '\U{0302}'), Pair('e', '\U{0308}'),
    Pair('i', '\U{0300}'), Pair('i', '\U{0301}'), Pair('i', '\U{0302}'), Pair('i', '\U{0308}'),
    Single, Pair('n', '\U{0303}'), Pair('o', '\U{0300}'), Pair('o', '\U{0301}'),
    Pair('o', '\U{0302}'), Pair('o', '\U{0303}'), Pair('o', '\U{0308}'), Single,
    Single, Pair('u', '\U{0300}'), Pair('u', '\U{0301}'), Pair('u', '\U{0302}'),
    Pair('u', '\U{0308}'), Pair('y', '\U{0301}'), Single, Pair('y', '\U{0308}')
  ]

  /** The marks removed by `replace(/[\u0300-\u036f]/g, '')`. */
  predicate IsCombiningMark(c: char) { '\U{0300}' <= c <= '\U{036F}' }

  predicate IsNotCombiningMark(c: char) { !IsCombiningMark(c) }

  function DecomposeChar(c: char): (r: string)
    ensures !('\U{00C0}' <= c <= '\U{00FF}') ==> r == [c]
  {
    if '\U{00C0}' <= c <= '\U{00FF}' && Latin1Nfd[c as int - 0xC0].Pair? then
      [Latin1Nfd[c as int - 0xC0].base, Latin1Nfd[c as int - 0xC0].mark]
    else [c]
  }

  /** `s.normalize('NFD')`, character by character. */
  function Decompose(s: string): (r: string)
  {
    if s == [] then [] else DecomposeChar(s[0]) + Decompose(s[1..])
  }

  lemma {:induction false} DecomposeAppend(a: string, b: string)
    ensures Decompose(a + b) == Decompose(a) + Decompose(b)
  {
    if a == [] {
      assert a + b == b;
    } else {
      assert (a + b)[0] == a[0] && (a + b)[1..] == a[1..] + b;
      DecomposeAppend(a[1..], b);
    }
  }

  /** Characters outside U+00C0..U+00FF (all of ASCII among them) are already decomposed. */
  lemma {:induction false} DecomposeOutsideLatin1(s: string)
    requires forall k | 0 <= k < |s| :: !('\U{00C0}' <= s[k] <= '\U{00FF}')
    ensures Decompose(s) == s
  {
    if s != [] {
      DecomposeOutsideLatin1(s[1..]);
    }
  }

  lemma AlnumIsNeither()
    ensures forall c :: IsAsciiAlnum(c) ==> IsNotCombiningMark(c) && IsNotJsWhitespace(c)
  {
  }

  /**
   * The helper itself, stage by stage. Its result holds only ASCII letters and
   * digits, and it is exactly the ASCII letters and digits of the decomposed
   * input, in order and in their original case: the two middle stages remove
   * nothing that the last stage would keep.
   */
  function Normalize(s: string): (r: string)
    ensures forall k | 0 <= k < |r| :: IsAsciiAlnum(r[k])
    ensures r == Filter(Decompose(s), IsAsciiAlnum)
    ensures IsSubsequence(r, Decompose(s))
  {
    var decomposed := Decompose(s);
    var unaccented := Filter(decomposed, IsNotCombiningMark);
    var unspaced := Filter(unaccented, IsNotJsWhitespace);
    AlnumIsNeither();
    FilterThenFilter(decomposed, IsNotCombiningMark, IsAsciiAlnum);
    FilterThenFilter(unaccented, IsNotJsWhitespace, IsAsciiAlnum);
    FilterIsSubsequence(decomposed, IsAsciiAlnum);
    Filter(unspaced, IsAsciiAlnum)
  }

  /** On input below U+00C0 the result is the letters and digits of the input, case unchanged. */
  lemma NormalizeBelowLatin1(s: string)
    requires forall k | 0 <= k < |s| :: s[k] < '\U{00C0}'
    ensures Normalize(s) == Filter(s, IsAsciiAlnum)
  {
    DecomposeOutsideLatin1(s);
  }

  lemma NormalizeIdempotent(s: string)
    ensures Normalize(Normalize(s)) == Normalize(s)
  {
    var t := Normalize(s);
    NormalizeBelowLatin1(t);
    FilterKeepsAll(t, IsAsciiAlnum);
  }

  lemma NormalizeAppend(a: string, b: string)
    ensures Normalize(a + b) == Normalize(a) + Normalize(b)
  {
    DecomposeAppend(a, b);
    FilterAppend(Decompose(a), Decompose(b), IsAsciiAlnum);
  }

  lemma NormalizeEmpty()
    ensures Normalize([]) == []
  {
  }

  /** A string of whitespace normalizes to nothing. */
  lemma NormalizeOfWhitespace(w: string)
    requires forall k | 0 <= k < |w| :: IsJsWhitespace(w[k])
    ensures Normalize(w) == []
  {
    DecomposeOutsideLatin1(w);
    FilterKeepsNone(w, IsAsciiAlnum);
  }

  lemma NormalizeDropsTrailingWhitespace(a: string, w: string)
    requires forall k | 0 <= k < |w| :: IsJsWhitespace(w[k])
    ensures Normalize(a + w) == Normalize(a)
  {
    NormalizeAppend(a, w);
    NormalizeOfWhitespace(w);
  }

  /** Inserting whitespace anywhere in a name does not change its normal form. */
  lemma NormalizeIgnoresWhitespace(a: string, w: string, b: string)
    requires forall k | 0 <= k < |w| :: IsJsWhitespace(w[k])
    ensures Normalize(a + w + b) == Normalize(a + b)
  {
    NormalizeAppend(a + w, b);
    NormalizeDropsTrailingWhitespace(a, w);
    NormalizeAppend(a, b);
  }

  /** A word of ASCII letters and digits is its own normal form. */
  lemma NormalizeAsciiWord(w: string)
    requires forall k | 0 <= k < |w| :: IsAsciiAlnum(w[k])
    ensures Normalize(w) == w
  {
    DecomposeOutsideLatin1(w);
    FilterKeepsAll(w, IsAsciiAlnum);
  }

  /**
   * Every accented letter of U+00C0..U+00FF is stripped down to its base
   * letter, in its own case ("é" to "e", "Ç" to "C").
   */
  lemma NormalizeAccentedLetter(c: char)
    requires '\U{00C0}' <= c <= '\U{00FF}' && Latin1Nfd[c as int - 0xC0].Pair?
    ensures Normalize([c]) == [Latin1Nfd[c as int - 0xC0].base]
  {
    var e := Latin1Nfd[c as int - 0xC0];
    assert Decompose([c]) == [e.base, e.mark] by {
      assert [c][0] == c && [c][1..] == [];
      assert Decompose([c]) == DecomposeChar(c) + Decompose([]);
    }
    FilterAppend([e.base], [e.mark], IsAsciiAlnum);
    assert [e.base, e.mark] == [e.base] + [e.mark];
  }

  /** The other characters of U+00C0..U+00FF have no ASCII letter in them and vanish. */
  lemma NormalizeUndecomposedLetter(c: char)
    requires '\U{00C0}' <= c <= '\U{00FF}' && Latin1Nfd[c as int - 0xC0].Single?
    ensures Normalize([c]) == []
  {
    assert Decompose([c]) == [c] by {
      assert [c][0] == c && [c][1..] == [];
      assert Decompose([c]) == DecomposeChar(c) + Decompose([]);
    }
    FilterKeepsNone([c], IsAsciiAlnum);
  }

  /** For instance, "é" becomes "e". */
  lemma NormalizeEAcute()
    ensures Normalize("\U{00E9}") == "e"
  {
    NormalizeAccentedLetter('\U{00E9}');
  }
}
