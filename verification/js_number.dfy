/**
  The two number conversions the client relies on: `parseInt(s)` (radix
  omitted) and `String(n)` for integers.  `parseInt` yields `None` where
  JavaScript yields `NaN`.
*/
module JsNumber {
  import opened Wrappers
  import Text

  /** Value of `c` as a digit in any base up to 36; 36 when `c` is a digit in no base. */
  function DigitValue(c: char): nat {
    if '0' <= c <= '9' then c as int - '0' as int
    else if 'a' <= c <= 'z' then c as int - 'a' as int + 10
    else if 'A' <= c <= 'Z' then c as int - 'A' as int + 10
    else 36
  }

  /** The longest prefix of `s` made of digits of base `radix`. */
  function DigitRun(s: string, radix: nat): (r: string)
    ensures |r| <= |s| && r == s[..|r|]
    ensures forall i :: 0 <= i < |r| ==> DigitValue(r[i]) < radix
    ensures |r| < |s| ==> DigitValue(s[|r|]) >= radix
  {
    if |s| > 0 && DigitValue(s[0]) < radix then [s[0]] + DigitRun(s[1..], radix) else []
  }

  /** Positional value of a run of digits, most significant first. */
  function ValueOf(ds: string, radix: nat): nat {
    if |ds| == 0 then 0 else ValueOf(ds[..|ds| - 1], radix) * radix + DigitValue(ds[|ds| - 1])
  }

  /** Digits after the optional sign: a `0x`/`0X` prefix selects base 16, otherwise base 10;
      no digits at all is `NaN`. */
  function ParseUnsigned(u: string): Option<nat> {
    var hex := |u| >= 2 && u[0] == '0' && (u[1] == 'x' || u[1] == 'X');
    var radix := if hex then 16 else 10;
    var ds := DigitRun(if hex then u[2..] else u, radix);
    if |ds| == 0 then None else Some(ValueOf(ds, radix))
  }

  /** `parseInt(s)`: skip leading white space, read an optional sign, then the digits. */
  function ParseInt(s: string): Option<int> {
    var t := Text.TrimStart(s);
    var negative := |t| > 0 && t[0] == '-';
    var u := if |t| > 0 && (t[0] == '-' || t[0] == '+') then t[1..] else t;
    match ParseUnsigned(u)
    case None => None
    case Some(v) => var n: int := v; Some(if negative then -n else n)
  }

  function DigitChar(d: nat): (c: char)
    requires d < 10
    ensures Text.IsDigit(c) && DigitValue(c) == d
  {
    ('0' as int + d) as char
  }

  /** Decimal digits of `n`, most significant first. */
  function NatToString(n: nat): (r: string)
    ensures |r| > 0
    ensures forall i :: 0 <= i < |r| ==> Text.IsDigit(r[i])
    ensures ValueOf(r, 10) == n
  {
    if n < 10 then [DigitChar(n)]
    else
      var r := NatToString(n / 10) + [DigitChar(n % 10)];
      assert r[..|r| - 1] == NatToString(n / 10);
      r
  }

  /** `String(n)` for an integer `n` (below 10^21 in magnitude, where JavaScript
      switches to exponent notation). */
  function IntToString(n: int): string {
    if n < 0 then "-" + NatToString(-n) else NatToString(n)
  }

  lemma DigitRunOfDigits(s: string)
    requires forall i :: 0 <= i < |s| ==> Text.IsDigit(s[i])
    ensures DigitRun(s, 10) == s
  {
  }

  lemma TrimStartKeeps(s: string)
    requires |s| > 0 && !Text.IsSpace(s[0])
    ensures Text.TrimStart(s) == s
  {
  }

  lemma ParseUnsignedOfDigits(digits: string)
    requires |digits| > 0 && forall i :: 0 <= i < |digits| ==> Text.IsDigit(digits[i])
    ensures ParseUnsigned(digits) == Some(ValueOf(digits, 10))
  {
    DigitRunOfDigits(digits);
    var hex := |digits| >= 2 && digits[0] == '0' && (digits[1] == 'x' || digits[1] == 'X');
    assert !hex by {
      if |digits| >= 2 {
        assert Text.IsDigit(digits[1]);
      }
    }
  }

  /** `parseInt(String(n)) === n`: reading back a written integer gives the integer. */
  lemma ParseIntOfIntToString(n: int)
    ensures ParseInt(IntToString(n)) == Some(n)
  {
    var s := IntToString(n);
    if n < 0 {
      var digits := NatToString(-n);
      assert s == "-" + digits;
      TrimStartKeeps(s);
      assert s[1..] == digits;
      ParseUnsignedOfDigits(digits);
    } else {
      var digits := NatToString(n);
      assert Text.IsDigit(digits[0]);
      TrimStartKeeps(s);
      ParseUnsignedOfDigits(digits);
    }
  }

  /** `String(n)` never reads as a different number, so two integers with the same
      text are equal. */
  lemma IntToStringInjective(a: int, b: int)
    requires IntToString(a) == IntToString(b)
    ensures a == b
  {
    ParseIntOfIntToString(a);
    ParseIntOfIntToString(b);
  }
}
