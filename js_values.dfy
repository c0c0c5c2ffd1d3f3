/**
 * The few JavaScript value semantics the TypeScript server relies on:
 * truthiness of an optional string, the `||` default idiom, `String.prototype.includes`,
 * `parseInt(s, 10)` and `String(n)` for an integral number.
 *
 * A number that `parseInt` returns is modelled as `Option<int>`: `None` is NaN, and
 * -0 is identified with 0 (String(-0) is "0" in JavaScript too).
 */
module JsValues {
  import opened Wrappers

  /** An optional string is truthy in JavaScript exactly when it is defined and non-empty. */
  predicate Truthy(v: Option<string>) {
    v.Some? && v.value != ""
  }

  /** `v || fallback`: the value itself when it is truthy, otherwise the fallback. */
  function Or(v: Option<string>, fallback: string): (r: string)
    ensures Truthy(v) ==> r == v.value
    ensures !Truthy(v) ==> r == fallback
    ensures fallback != "" ==> r != ""
  {
    if Truthy(v) then v.value else fallback
  }

  /** `s.includes(sub)`: `sub` occurs somewhere in `s`. */
  predicate Includes(s: string, sub: string) {
    |sub| <= |s| && (s[..|sub|] == sub || Includes(s[1..], sub))
  }

  // ---------------------------------------------------------------------------
  // Decimal digits

  predicate IsDigit(c: char) {
    '0' <= c <= '9'
  }

  predicate AllDigits(s: string) {
    forall i :: 0 <= i < |s| ==> IsDigit(s[i])
  }

  function DigitChar(d: nat): (c: char)
    requires d < 10
    ensures IsDigit(c)
  {
    ('0' as int + d) as char
  }

  function DigitValue(c: char): (d: nat)
    requires IsDigit(c)
    ensures d < 10
  {
    c as int - '0' as int
  }

  /** The value of a string of decimal digits, most significant first. */
  function DigitsValue(s: string): nat
    requires AllDigits(s)
  {
    if s == [] then 0 else 10 * DigitsValue(s[..|s| - 1]) + DigitValue(s[|s| - 1])
  }

  /** The shortest decimal spelling of a natural number. */
  function NatToDecimal(n: nat): (s: string)
    ensures |s| >= 1 && AllDigits(s)
    ensures |s| > 1 ==> s[0] != '0'
  {
    if n < 10 then [DigitChar(n)] else NatToDecimal(n / 10) + [DigitChar(n % 10)]
  }

  lemma {:induction false} DecimalRoundTrip(n: nat)
    ensures DigitsValue(NatToDecimal(n)) == n
  {
    if n >= 10 {
      var s := NatToDecimal(n / 10);
      var t := s + [DigitChar(n % 10)];
      assert t[..|t| - 1] == s;
      DecimalRoundTrip(n / 10);
    }
  }

  /** `String(n)` for the number `parseInt` produced: "NaN", or the integer in decimal. */
  function NumberToString(v: Option<int>): (s: string)
    ensures v.None? <==> s == "NaN"
    ensures v.Some? ==> |s| >= 1
    ensures v.Some? && v.value >= 0 ==> AllDigits(s) && DigitsValue(s) == v.value
    ensures v.Some? && v.value < 0 ==> |s| >= 2 && s[0] == '-' && AllDigits(s[1..]) && DigitsValue(s[1..]) == -v.value
    ensures v.Some? && v.value >= 0 && |s| > 1 ==> s[0] != '0'
    ensures v.Some? && v.value < 0 && |s| > 2 ==> s[1] != '0'
  {
    match v
    case None => "NaN"
    case Some(n) =>
      var digits := NatToDecimal(if n < 0 then -n else n);
      DecimalRoundTrip(if n < 0 then -n else n);
      if n < 0 then
        assert ("-" + digits)[1..] == digits;
        "-" + digits
      else digits
  }

  // ---------------------------------------------------------------------------
  // parseInt(s, 10)

  /** WhiteSpace and LineTerminator code points of ECMAScript, which `parseInt` skips at the start. */
  predicate IsJsSpace(c: char) {
    // TAB, LF, VT, FF, CR
    ('\t' <= c <= '\r')
    // the Unicode space separators (category Zs)
    || c == ' ' || c == '\U{A0}' || c == '\U{1680}' || ('\U{2000}' <= c <= '\U{200A}')
    || c == '\U{202F}' || c == '\U{205F}' || c == '\U{3000}'
    // LINE SEPARATOR, PARAGRAPH SEPARATOR, ZERO WIDTH NO-BREAK SPACE
    || c == '\U{2028}' || c == '\U{2029}' || c == '\U{FEFF}'
  }

  /** The string without its leading white space. */
  function TrimStart(s: string): (r: string)
    ensures |r| <= |s|
    ensures r == [] || !IsJsSpace(r[0])
    ensures s == [] || !IsJsSpace(s[0]) ==> r == s
  {
    if s != [] && IsJsSpace(s[0]) then TrimStart(s[1..]) else s
  }

  /**
   * `TrimStart` drops a prefix and only white space: the result is a suffix of `s`, and
   * every character before it is white space.
   */
  lemma {:induction false} TrimStartDropsOnlySpace(s: string)
    ensures TrimStart(s) == s[|s| - |TrimStart(s)|..]
    ensures forall i :: 0 <= i < |s| - |TrimStart(s)| ==> IsJsSpace(s[i])
  {
    if s != [] && IsJsSpace(s[0]) {
      var r := TrimStart(s[1..]);
      TrimStartDropsOnlySpace(s[1..]);
      assert TrimStart(s) == r;
      assert s[1..][|s| - 1 - |r|..] == s[|s| - |r|..];
      forall i | 0 <= i < |s| - |r| ensures IsJsSpace(s[i]) {
        if i > 0 {
          assert s[i] == s[1..][i - 1];
        }
      }
    }
  }

  /** The length of the longest prefix of `s` made of decimal digits. */
  function DigitPrefixLength(s: string): (n: nat)
    ensures n <= |s| && AllDigits(s[..n])
    ensures n < |s| ==> !IsDigit(s[n])
  {
    if s != [] && IsDigit(s[0]) then
      var n := 1 + DigitPrefixLength(s[1..]);
      assert forall i :: 1 <= i < n ==> s[..n][i] == s[1..][..n - 1][i - 1];
      n
    else 0
  }

  /** The sign a leading '-' gives. */
  function Sign(t: string): int {
    if t != [] && t[0] == '-' then -1 else 1
  }

  /** The text after an optional leading sign. */
  function Unsigned(t: string): string {
    if t != [] && (t[0] == '+' || t[0] == '-') then t[1..] else t
  }

  /**
   * `parseInt(s, 10)`: skip leading white space, take an optional sign, then the longest
   * run of decimal digits; NaN (`None`) when that run is empty. Trailing text is ignored.
   */
  function ParseInt(s: string): (r: Option<int>)
    ensures r.None? <==> var u := Unsigned(TrimStart(s)); u == [] || !IsDigit(u[0])
  {
    var t := TrimStart(s);
    var u := Unsigned(t);
    var n := DigitPrefixLength(u);
    if n == 0 then None else Some(Sign(t) * DigitsValue(u[..n]))
  }

  /** The digits of a whole string of digits are its whole digit prefix. */
  lemma {:induction false} DigitPrefixOfDigits(s: string, rest: string)
    requires AllDigits(s)
    requires rest == [] || !IsDigit(rest[0])
    ensures DigitPrefixLength(s + rest) == |s|
  {
    if s != [] {
      assert (s + rest)[1..] == s[1..] + rest;
      DigitPrefixOfDigits(s[1..], rest);
    } else {
      assert s + rest == rest;
    }
  }

  /** A string `w` that starts with a digit is read as the value `v` of its digit prefix. */
  lemma ParseIntOfDigitStart(w: string, v: nat)
    requires w != [] && IsDigit(w[0])
    requires v == DigitsValue(w[..DigitPrefixLength(w)])
    ensures ParseInt(w) == Some(v)
  {
    assert !IsJsSpace(w[0]);
    assert TrimStart(w) == w;
    assert Sign(w) == 1 && Unsigned(w) == w;
    var n := DigitPrefixLength(w);
    assert n != 0;
    assert ParseInt(w) == Some(1 * DigitsValue(w[..n]));
  }

  /** The string `w`, which is `u` behind a minus sign, is read as the negated value `v` of `u`'s digit prefix. */
  lemma ParseIntOfNegatedDigitStart(u: string, w: string, v: nat)
    requires u != [] && IsDigit(u[0]) && w == "-" + u
    requires v == DigitsValue(u[..DigitPrefixLength(u)])
    ensures ParseInt(w) == Some(0 - v)
  {
    assert w[0] == '-' && w[1..] == u;
    assert !IsJsSpace(w[0]);
    assert TrimStart(w) == w;
    assert Sign(w) == -1 && Unsigned(w) == u;
    var n := DigitPrefixLength(u);
    assert n != 0;
    assert ParseInt(w) == Some(-1 * DigitsValue(u[..n]));
  }

  /** The decimal spelling of `m` followed by a non-digit has digit prefix worth `m`. */
  lemma DecimalThenRest(m: nat, rest: string)
    requires rest == [] || !IsDigit(rest[0])
    ensures var u := NatToDecimal(m) + rest;
      u != [] && IsDigit(u[0]) && DigitsValue(u[..DigitPrefixLength(u)]) == m
  {
    var digits := NatToDecimal(m);
    var u := digits + rest;
    DecimalRoundTrip(m);
    DigitPrefixOfDigits(digits, rest);
    assert u[..|digits|] == digits;
  }

  /** How `String` spells an integer: its magnitude in decimal, behind '-' when negative. */
  lemma SpellingOfNumber(n: int, rest: string)
    ensures n >= 0 ==> NumberToString(Some(n)) + rest == NatToDecimal(n) + rest
    ensures n < 0 ==> NumberToString(Some(n)) + rest == "-" + (NatToDecimal(-n) + rest)
  {
    if n < 0 {
      assert NumberToString(Some(n)) == "-" + NatToDecimal(-n);
      assert ("-" + NatToDecimal(-n)) + rest == "-" + (NatToDecimal(-n) + rest);
    }
  }

  lemma ParseIntReadsNatural(m: nat, rest: string, w: string)
    requires rest == [] || !IsDigit(rest[0])
    requires w == NatToDecimal(m) + rest
    ensures ParseInt(w) == Some(m)
  {
    DecimalThenRest(m, rest);
    ParseIntOfDigitStart(w, m);
  }

  lemma ParseIntReadsNegative(m: nat, rest: string, w: string)
    requires rest == [] || !IsDigit(rest[0])
    requires w == "-" + (NatToDecimal(m) + rest)
    ensures ParseInt(w) == Some(0 - m)
  {
    DecimalThenRest(m, rest);
    ParseIntOfNegatedDigitStart(NatToDecimal(m) + rest, w, m);
  }

  /**
   * `parseInt` reads back what `String` wrote, and stops at the first character that is not
   * a digit: `parseInt(String(n) + rest, 10) == n` for every integer `n`.
   */
  lemma ParseIntReadsNumberToString(n: int, rest: string)
    requires rest == [] || !IsDigit(rest[0])
    ensures ParseInt(NumberToString(Some(n)) + rest) == Some(n)
  {
    var w := NumberToString(Some(n)) + rest;
    SpellingOfNumber(n, rest);
    if n < 0 {
      ParseIntReadsNegative(-n, rest, w);
    } else {
      ParseIntReadsNatural(n, rest, w);
    }
  }
}
