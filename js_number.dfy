/**
 * `Number.parseInt(string)` with no radix argument, and the decimal
 * `toString` of an integer, as ECMAScript defines them on integral values.
 * A failed parse (`NaN`) is `None`.
 */
module JsNumber {
  import opened Wrappers
  import opened JsText

  /** The value of `c` as a digit 0-9, a-f or A-F; 16 (a digit in no radix used here) otherwise. */
  function DigitValue(c: char): (d: nat)
    ensures d <= 16
  {
    if '0' <= c <= '9' then (c as int) - ('0' as int)
    else if 'a' <= c <= 'f' then (c as int) - ('a' as int) + 10
    else if 'A' <= c <= 'F' then (c as int) - ('A' as int) + 10
    else 16
  }

  predicate IsDigitIn(c: char, radix: nat) {
    DigitValue(c) < radix
  }

  predicate AllDigitsIn(s: string, radix: nat) {
    forall i :: 0 <= i < |s| ==> IsDigitIn(s[i], radix)
  }

  /** The run of digits in `radix` at the front of `s`. */
  function LeadingDigits(s: string, radix: nat): string {
    if s != [] && IsDigitIn(s[0], radix) then [s[0]] + LeadingDigits(s[1..], radix) else []
  }

  /** LeadingDigits is the longest prefix made of digits in `radix`. */
  lemma {:induction false} LeadingDigitsIsLongestRun(s: string, radix: nat)
    ensures var r := LeadingDigits(s, radix);
            r <= s && AllDigitsIn(r, radix) && (|r| == |s| || !IsDigitIn(s[|r|], radix))
  {
    if s != [] && IsDigitIn(s[0], radix) {
      LeadingDigitsIsLongestRun(s[1..], radix);
      var r := LeadingDigits(s[1..], radix);
      assert [s[0]] + r <= [s[0]] + s[1..];
      assert s == [s[0]] + s[1..];
      assert |[s[0]] + r| < |s| ==> s[|[s[0]] + r|] == s[1..][|r|];
    }
  }

  /** The number that the digit string `ds` denotes in `radix`, most significant digit first. */
  function DigitsValue(ds: string, radix: nat): nat {
    if ds == [] then 0 else DigitsValue(ds[..|ds| - 1], radix) * radix + DigitValue(ds[|ds| - 1])
  }

  /** A leading `-` makes the number negative; `+` or no sign leaves it positive. */
  predicate IsNegated(t: string) {
    t != [] && t[0] == '-'
  }

  /** `t` without its sign character, if it has one. */
  function AfterSign(t: string): string {
    if t != [] && (t[0] == '-' || t[0] == '+') then t[1..] else t
  }

  predicate HasHexPrefix(u: string) {
    |u| >= 2 && u[0] == '0' && (u[1] == 'x' || u[1] == 'X')
  }

  /** The unsigned part: radix 16 after a `0x` or `0X` prefix, else radix 10; no digits at all is `NaN`. */
  function ParseMagnitude(u: string): Option<nat> {
    var radix := if HasHexPrefix(u) then 16 else 10;
    var z := LeadingDigits(if HasHexPrefix(u) then u[2..] else u, radix);
    if z == [] then None else Some(DigitsValue(z, radix))
  }

  /** A signed number read from text that has no leading white space. */
  function ParseSigned(t: string): Option<int> {
    match ParseMagnitude(AfterSign(t))
    case None => None
    case Some(m) => Some(if IsNegated(t) then -(m as int) else m as int)
  }

  /**
   * `Number.parseInt(s)`: skip leading white space, take an optional sign,
   * then read the magnitude.
   */
  function ParseInt(s: string): Option<int> {
    ParseSigned(TrimStart(s))
  }

  function DecimalDigit(d: nat): (c: char)
    requires d < 10
    ensures IsDigitIn(c, 10) && DigitValue(c) == d
  {
    (('0' as int) + d) as char
  }

  /** The decimal numeral of `n`: digits only, no leading zero, and denoting `n`. */
  function NatToString(n: nat): (s: string)
    ensures |s| >= 1 && AllDigitsIn(s, 10)
    ensures (s[0] == '0') == (n == 0)
    ensures DigitsValue(s, 10) == n
  {
    if n < 10 then [DecimalDigit(n)]
    else
      var init := NatToString(n / 10);
      var s := init + [DecimalDigit(n % 10)];
      assert s[..|s| - 1] == init;
      s
  }

  /** `n.toString()` for an integer `n`. */
  function IntToString(n: int): string {
    if n < 0 then "-" + NatToString(-n) else NatToString(n)
  }

  /** A digit run followed by a non-digit is read up to that non-digit. */
  lemma {:induction false} LeadingDigitsStop(ds: string, t: string, radix: nat)
    requires AllDigitsIn(ds, radix)
    requires t == [] || !IsDigitIn(t[0], radix)
    ensures LeadingDigits(ds + t, radix) == ds
  {
    if ds == [] {
      assert ds + t == t;
    } else {
      assert (ds + t)[0] == ds[0];
      assert (ds + t)[1..] == ds[1..] + t;
      LeadingDigitsStop(ds[1..], t, radix);
    }
  }

  /**
   * A numeral followed by text that does not continue it parses back to its
   * number: the round trip `parseInt(n.toString() + t) == n`. The only text
   * that continues "0" is an `x` or `X`, which turns the prefix into hex.
   */
  lemma ParseIntOfNumeral(n: int, t: string)
    requires t == [] || (!IsDigitIn(t[0], 10) && (n != 0 || (t[0] != 'x' && t[0] != 'X')))
    ensures ParseInt(IntToString(n) + t) == Some(n)
  {
    NumeralStartsClean(n, t);
    SignedOfNumeral(n, t);
  }

  /** A numeral starts with `-` or a digit, so TrimStart leaves it alone. */
  lemma NumeralStartsClean(n: int, t: string)
    ensures TrimStart(IntToString(n) + t) == IntToString(n) + t
  {
    var s := IntToString(n) + t;
    var c := s[0];
    assert c == '-' || IsDigitIn(c, 10);
    assert !IsJsWhiteSpace(c);
  }

  lemma SignedOfNumeral(n: int, t: string)
    requires t == [] || (!IsDigitIn(t[0], 10) && (n != 0 || (t[0] != 'x' && t[0] != 'X')))
    ensures ParseSigned(IntToString(n) + t) == Some(n)
  {
    var m: nat := if n < 0 then -n else n;
    var ds := NatToString(m);
    MagnitudeOfNumeral(m, t);
    if n < 0 {
      assert IntToString(n) + t == "-" + (ds + t);
      SignedAfterMinus(ds + t, m);
    } else {
      assert IntToString(n) + t == ds + t;
      SignedWithoutSign(ds + t, m);
    }
  }

  lemma SignedAfterMinus(u: string, m: nat)
    requires ParseMagnitude(u) == Some(m)
    ensures ParseSigned("-" + u) == Some(-(m as int))
  {
    assert ("-" + u)[1..] == u;
  }

  lemma SignedWithoutSign(u: string, m: nat)
    requires u != [] && IsDigitIn(u[0], 10)
    requires ParseMagnitude(u) == Some(m)
    ensures ParseSigned(u) == Some(m as int)
  {
  }

  lemma MagnitudeOfNumeral(m: nat, t: string)
    requires t == [] || (!IsDigitIn(t[0], 10) && (m != 0 || (t[0] != 'x' && t[0] != 'X')))
    ensures ParseMagnitude(NatToString(m) + t) == Some(m)
  {
    var ds := NatToString(m);
    var u := ds + t;
    assert u[0] == ds[0];
    if |u| >= 2 && u[0] == '0' {
      assert m == 0 && ds == "0";
      assert u[1] == t[0];
    } else if |u| >= 2 {
      assert !HasHexPrefix(u);
    }
    LeadingDigitsStop(ds, t, 10);
  }

  /** `toString` is injective on integers, because ParseInt inverts it. */
  lemma IntToStringInjective(a: int, b: int)
    ensures IntToString(a) == IntToString(b) <==> a == b
  {
    ParseIntOfNumeral(a, []);
    ParseIntOfNumeral(b, []);
    assert IntToString(a) + [] == IntToString(a);
    assert IntToString(b) + [] == IntToString(b);
  }

  /** A numeral carries a `-` at most in front. */
  lemma IntToStringMinusOnlyFirst(n: int)
    ensures |IntToString(n)| >= 1
    ensures forall i :: 0 < i < |IntToString(n)| ==> IntToString(n)[i] != '-'
  {
    var ds := NatToString(if n < 0 then -n else n);
    assert forall i :: 0 <= i < |ds| ==> IsDigitIn(ds[i], 10);
    assert !IsDigitIn('-', 10);
  }

  /** Leading white space never changes what ParseInt reads. */
  lemma ParseIntSkipsWhiteSpace(w: string, s: string)
    requires forall i :: 0 <= i < |w| ==> IsJsWhiteSpace(w[i])
    ensures ParseInt(w + s) == ParseInt(s)
  {
    TrimStartSkips(w, s);
  }

  /** Text that does not start with white space, a sign or a digit is `NaN`. */
  lemma ParseIntNoDigits(s: string)
    requires s == [] || (!IsJsWhiteSpace(s[0]) && s[0] != '-' && s[0] != '+' && !IsDigitIn(s[0], 10))
    ensures ParseInt(s) == None
  {
    assert TrimStart(s) == s;
  }

  /**
   * Exactly when `parseInt` is `NaN`: after the leading white space and an
   * optional sign there is no digit to read, that is, the text ends, or its
   * next character is not a decimal digit, or it starts with `0x`/`0X` and
   * what follows the prefix is not a hexadecimal digit.
   */
  lemma ParseIntNaNExactly(s: string)
    ensures var u := AfterSign(TrimStart(s));
            ParseInt(s) == None <==>
              if HasHexPrefix(u) then |u| == 2 || !IsDigitIn(u[2], 16)
              else u == [] || !IsDigitIn(u[0], 10)
  {
    var u := AfterSign(TrimStart(s));
    if HasHexPrefix(u) {
      assert u[2..] == [] <==> |u| == 2;
      assert |u| > 2 ==> u[2..][0] == u[2];
    }
  }

  /**
   * With no radix argument a `0x` or `0X` prefix switches to hexadecimal:
   * `parseInt("0x" + ds + t)` is the hexadecimal value of the digit run `ds`
   * when `t` does not continue it.
   */
  lemma ParseIntHexPrefix(x: char, ds: string, t: string)
    requires x == 'x' || x == 'X'
    requires ds != [] && AllDigitsIn(ds, 16)
    requires t == [] || !IsDigitIn(t[0], 16)
    ensures ParseInt("0" + [x] + ds + t) == Some(DigitsValue(ds, 16))
  {
    var s := "0" + [x] + ds + t;
    assert s[0] == '0' && s[1] == x;
    assert TrimStart(s) == s;
    assert AfterSign(s) == s;
    assert s[2..] == ds + t;
    LeadingDigitsStop(ds, t, 16);
    assert ParseMagnitude(s) == Some(DigitsValue(ds, 16));
    assert !IsNegated(s);
  }
}
