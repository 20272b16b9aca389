/**
 * The number conversions the pages rely on: `i.toString()` for the ids of
 * generated records, `parseInt(id)` for the avatar colour, and JavaScript's
 * remainder operator `%`, which truncates toward zero.
 * Numbers are unbounded integers: the loss of precision of doubles beyond
 * 2^53 is not modelled.
 */
module JsNumber {
  import opened JsArray
  import opened JsString

  function DigitChar(d: nat): (c: char)
    requires d < 10
    ensures IsAsciiDigit(c)
  {
    ('0' as int + d) as char
  }

  /**
   * `n.toString()` for a natural number: its decimal digits, most significant
   * first, without leading zeros.
   */
  function NatToString(n: nat): (r: string)
    ensures |r| >= 1
    ensures forall k | 0 <= k < |r| :: IsAsciiDigit(r[k])
    ensures r[0] == '0' <==> n == 0
    decreases n
  {
    if n < 10 then [DigitChar(n)] else NatToString(n / 10) + [DigitChar(n % 10)]
  }

  /** The value of `c` as a digit in base `radix` (10 or 16), if it is one. */
  function DigitValue(c: char, radix: nat): (r: Option<nat>)
    requires radix == 10 || radix == 16
    ensures r.Some? ==> r.value < radix
    ensures radix == 10 ==> (r.Some? <==> IsAsciiDigit(c))
  {
    if IsAsciiDigit(c) then Some(c as int - '0' as int)
    else if radix == 16 && 'a' <= c <= 'f' then Some(c as int - 'a' as int + 10)
    else if radix == 16 && 'A' <= c <= 'F' then Some(c as int - 'A' as int + 10)
    else None
  }

  /** Length of the longest prefix of `s` made of base-`radix` digits. */
  function DigitPrefixLength(s: string, radix: nat): (n: nat)
    requires radix == 10 || radix == 16
    ensures n <= |s|
    ensures forall k | 0 <= k < n :: DigitValue(s[k], radix).Some?
    ensures n < |s| ==> DigitValue(s[n], radix).None?
  {
    if s != [] && DigitValue(s[0], radix).Some? then
      var n := 1 + DigitPrefixLength(s[1..], radix);
      assert forall k | 1 <= k < n :: s[k] == s[1..][k - 1];
      n
    else 0
  }

  /** The value of a string of base-`radix` digits, most significant first. */
  function DigitsValue(ds: string, radix: nat): nat
    requires radix == 10 || radix == 16
    requires forall k | 0 <= k < |ds| :: DigitValue(ds[k], radix).Some?
  {
    if ds == [] then 0
    else DigitsValue(ds[..|ds| - 1], radix) * radix + DigitValue(ds[|ds| - 1], radix).value
  }

  /**
   * The unsigned part of `parseInt`: a `0x`/`0X` prefix switches to base 16,
   * and the longest run of digits that follows is the value. No digit at all
   * gives NaN (`None`).
   */
  function ParseUnsigned(u: string): (r: Option<nat>)
    ensures u == [] ==> r == None
    ensures u != [] && '1' <= u[0] <= '9' ==> r.Some?
  {
    var hex := |u| >= 2 && u[0] == '0' && (u[1] == 'x' || u[1] == 'X');
    var radix := if hex then 16 else 10;
    var body := if hex then u[2..] else u;
    var n := DigitPrefixLength(body, radix);
    if n == 0 then None else Some(DigitsValue(body[..n], radix))
  }

  /**
   * `parseInt(s)` with no radix: leading whitespace is skipped, one sign is
   * read, then the unsigned part.
   */
  function ParseInt(s: string): (r: Option<int>)
    ensures (forall k | 0 <= k < |s| :: IsJsWhitespace(s[k])) ==> r == None
    ensures TrimStart(s) != [] && '1' <= TrimStart(s)[0] <= '9' ==> r.Some? && r.value >= 0
    ensures r.Some? && r.value < 0 ==> TrimStart(s)[0] == '-'
  {
    var t := TrimStart(s);
    var negative := t != [] && t[0] == '-';
    var u := if t != [] && (t[0] == '-' || t[0] == '+') then t[1..] else t;
    var magnitude := ParseUnsigned(u);
    if magnitude.None? then None
    else if negative then Some(0 - magnitude.value as int)
    else Some(magnitude.value as int)
  }

  lemma {:induction false} DigitsValueOfNatToString(n: nat)
    ensures DigitsValue(NatToString(n), 10) == n
    decreases n
  {
    var s := NatToString(n);
    if n >= 10 {
      DigitsValueOfNatToString(n / 10);
      assert s[..|s| - 1] == NatToString(n / 10);
    }
  }

  /** `parseInt` reads back what `toString` wrote. */
  lemma ParseIntOfNatToString(n: nat)
    ensures ParseInt(NatToString(n)) == Some(n)
  {
    var s := NatToString(n);
    assert IsAsciiDigit(s[0]);
    assert TrimStart(s) == s;
    assert !(s[0] == '-' || s[0] == '+');
    assert !(|s| >= 2 && s[0] == '0');
    var k := DigitPrefixLength(s, 10);
    assert k == |s|;
    assert s[..k] == s;
    DigitsValueOfNatToString(n);
    assert ParseUnsigned(s) == Some(n);
  }

  /** Distinct numbers have distinct decimal strings. */
  lemma NatToStringInjective(a: nat, b: nat)
    requires NatToString(a) == NatToString(b)
    ensures a == b
  {
    ParseIntOfNatToString(a);
    ParseIntOfNatToString(b);
  }

  /**
   * JavaScript's `a % n` for a positive divisor: the remainder takes the sign
   * of the dividend, so it is negative for a negative `a` that `n` does not
   * divide.
   */
  function TruncRem(a: int, n: int): (r: int)
    requires n > 0
    ensures -n < r < n
    ensures a >= 0 ==> r == a % n
    ensures a <= 0 ==> r <= 0
    ensures exists q :: a == q * n + r
  {
    if a >= 0 then
      assert a == (a / n) * n + a % n;
      a % n
    else
      var q := (-a) / n;
      assert -a == q * n + (-a) % n;
      assert a == (-q) * n + -((-a) % n);
      -((-a) % n)
  }
}
