/**
 * The integer side of JavaScript numbers as the scripts use them:
 * `Number.parseInt(s, 10)` (also `parseInt(s, 10)`), `+` with an integer
 * delta and `toString()`. A parse that finds no digits gives NaN, which
 * stays NaN under `+` and prints as "NaN".
 */
module JsNumber {

  datatype Num = Int(value: int) | NaN

  predicate IsDigit(c: char) {
    '0' <= c <= '9'
  }

  predicate AllDigits(s: string) {
    forall k :: 0 <= k < |s| ==> IsDigit(s[k])
  }

  /** The characters `parseInt` skips before the number (white space and line terminators). */
  predicate IsJsSpace(c: char) {
    c == '\t' || c == '\n' || c == '\U{000B}' || c == '\U{000C}' || c == '\r' || c == ' '
    || c == '\U{00A0}' || c == '\U{1680}' || ('\U{2000}' <= c <= '\U{200A}')
    || c == '\U{2028}' || c == '\U{2029}' || c == '\U{202F}' || c == '\U{205F}'
    || c == '\U{3000}' || c == '\U{FEFF}'
  }

  function TrimStart(s: string): (r: string)
    ensures r == [] || !IsJsSpace(r[0])
  {
    if s != [] && IsJsSpace(s[0]) then TrimStart(s[1..]) else s
  }

  /** The longest prefix of `s` made of decimal digits. */
  function LeadingDigits(s: string): (r: string)
    ensures |r| <= |s| && r == s[..|r|] && AllDigits(r)
    ensures |r| < |s| ==> !IsDigit(s[|r|])
  {
    if s != [] && IsDigit(s[0]) then [s[0]] + LeadingDigits(s[1..]) else []
  }

  function DigitValue(c: char): nat
    requires IsDigit(c)
  {
    c as int - '0' as int
  }

  function DigitChar(d: nat): (c: char)
    requires d < 10
    ensures IsDigit(c) && DigitValue(c) == d
  {
    ('0' as int + d) as char
  }

  /** The value of a string of decimal digits, most significant first. */
  function ValueOf(ds: string): nat
    requires AllDigits(ds)
  {
    if ds == [] then 0 else ValueOf(ds[..|ds| - 1]) * 10 + DigitValue(ds[|ds| - 1])
  }

  /** `Number.parseInt(s, 10)` */
  function ParseInt(s: string): Num {
    var t := TrimStart(s);
    var negative := t != [] && t[0] == '-';
    var unsigned := if t != [] && (t[0] == '-' || t[0] == '+') then t[1..] else t;
    var ds := LeadingDigits(unsigned);
    if ds == [] then NaN
    else Int(if negative then 0 - ValueOf(ds) else ValueOf(ds) as int)
  }

  /** The decimal digits of `n`, without leading zeros. */
  function Decimal(n: nat): (r: string)
    ensures r != [] && AllDigits(r) && ValueOf(r) == n
    ensures n > 0 ==> r[0] != '0'
  {
    if n < 10 then [DigitChar(n)]
    else
      var r := Decimal(n / 10) + [DigitChar(n % 10)];
      assert r[..|r| - 1] == Decimal(n / 10);
      r
  }

  /** `x.toString()` for an integral number or NaN. */
  function ToString(x: Num): string {
    match x
    case NaN => "NaN"
    case Int(v) => if v < 0 then "-" + Decimal(-v) else Decimal(v)
  }

  /** `x + d` */
  function Add(x: Num, d: int): Num {
    match x
    case NaN => NaN
    case Int(v) => Int(v + d)
  }

  /** `TrimStart(s)` is `s` with exactly its leading white space removed. */
  lemma {:induction false} TrimStartRemovesLeadingSpace(s: string)
    ensures var r := TrimStart(s);
      |r| <= |s| && r == s[|s| - |r|..]
      && (forall k :: 0 <= k < |s| - |r| ==> IsJsSpace(s[k]))
      && (r == [] || !IsJsSpace(r[0]))
  {
    if s != [] && IsJsSpace(s[0]) {
      TrimStartRemovesLeadingSpace(s[1..]);
      var r := TrimStart(s[1..]);
      assert s[1..][|s| - 1 - |r|..] == s[|s| - |r|..];
      assert forall k :: 1 <= k < |s| - |r| ==> s[k] == s[1..][k - 1];
    }
  }

  lemma AllDigitsPrefix(ds: string)
    requires AllDigits(ds)
    ensures LeadingDigits(ds) == ds
  {
    if ds != [] {
      AllDigitsPrefix(ds[1..]);
    }
  }

  lemma DigitIsNotSpace(c: char)
    requires IsDigit(c)
    ensures !IsJsSpace(c)
  {
  }

  lemma TrimStartKeeps(s: string)
    requires s != [] && !IsJsSpace(s[0])
    ensures TrimStart(s) == s
  {
  }

  lemma ParseDecimal(n: nat)
    ensures ParseInt(Decimal(n)) == Int(n)
  {
    var d := Decimal(n);
    DigitIsNotSpace(d[0]);
    TrimStartKeeps(d);
    AllDigitsPrefix(d);
  }

  lemma ParseNegativeDecimal(n: nat)
    ensures ParseInt("-" + Decimal(n)) == Int(-(n as int))
  {
    var d := Decimal(n);
    var s := "-" + d;
    TrimStartKeeps(s);
    assert s[1..] == d;
    AllDigitsPrefix(d);
  }

  /** Printing an integer and parsing it back gives the same integer. */
  lemma ParseToString(v: int)
    ensures ParseInt(ToString(Int(v))) == Int(v)
  {
    if v < 0 {
      ParseNegativeDecimal(-v);
    } else {
      ParseDecimal(v);
    }
  }

  /** `parseInt("NaN")` is NaN again. */
  lemma ParseNaN()
    ensures ParseInt(ToString(NaN)) == NaN
  {
  }
}
