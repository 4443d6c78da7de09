/** `parseInt(text)` on decimal ASCII input, and its inverse, decimal rendering. */
module IntParse {
  import opened Outcomes
  import opened Text

  predicate IsDigit(c: char) {
    '0' <= c <= '9'
  }

  predicate AllDigits(s: string) {
    forall i | 0 <= i < |s| :: IsDigit(s[i])
  }

  /** The number of decimal digits `s` starts with. */
  function LeadingDigits(s: string): (n: nat)
    ensures n <= |s|
    ensures AllDigits(s[..n])
    ensures n < |s| ==> !IsDigit(s[n])
  {
    if |s| > 0 && IsDigit(s[0]) then 1 + LeadingDigits(s[1..]) else 0
  }

  /** The value of a string of decimal digits, most significant digit first. */
  function DigitsValue(ds: string): nat
    requires AllDigits(ds)
  {
    if |ds| == 0 then 0
    else 10 * DigitsValue(ds[..|ds| - 1]) + (ds[|ds| - 1] as int - '0' as int)
  }

  /** The value of the digit run `body` starts with; `None` when it starts with no digit. */
  function ReadDigits(body: string): Option<int> {
    var n := LeadingDigits(body);
    if n == 0 then None else Some(DigitsValue(body[..n]))
  }

  /**
   * `parseInt(s)`: skip leading blanks, read an optional sign, then the longest run of digits.
   * `None` stands for `NaN`, the result when no digit follows.
   */
  function ParseInt(s: string): Option<int> {
    var t := s[LeadingSpaces(s)..];
    if |t| > 0 && t[0] == '-' then
      match ReadDigits(t[1..])
      case None => None
      case Some(v) => Some(-v)
    else if |t| > 0 && t[0] == '+' then
      match ReadDigits(t[1..])
      case None => None
      case Some(v) => Some(v)
    else
      match ReadDigits(t)
      case None => None
      case Some(v) => Some(v)
  }

  function DigitChar(d: nat): (c: char)
    requires d < 10
    ensures IsDigit(c) && c as int - '0' as int == d
  {
    (d + '0' as int) as char
  }

  /** The decimal digits of `n`, without leading zeros. */
  function NatDigits(n: nat): (r: string)
    ensures |r| > 0 && AllDigits(r)
    ensures DigitsValue(r) == n
    ensures r[0] == '0' ==> n == 0
  {
    if n < 10 then [DigitChar(n)]
    else
      var r := NatDigits(n / 10) + [DigitChar(n % 10)];
      assert r[..|r| - 1] == NatDigits(n / 10);
      r
  }

  /** `String(n)` for an integer `n`. */
  function Decimal(n: int): (r: string)
    ensures |r| > 0 && !IsSpace(r[0]) && r[0] != '+'
  {
    if n < 0 then "-" + NatDigits(-n) else NatDigits(n)
  }

  /** Reading back the decimal form of `n`, after any blanks and before any non-digit text, gives `n`. */
  lemma ParseDecimal(pre: string, n: int, rest: string)
    requires AllSpace(pre)
    requires |rest| == 0 || !IsDigit(rest[0])
    ensures ParseInt(pre + Decimal(n) + rest) == Some(n)
  {
    ParseAfterBlanks(pre, Decimal(n), rest);
    ParseDecimalAlone(n, rest);
  }

  /** The decimal form of `n` followed by non-digit text parses as `n`. */
  lemma ParseDecimalAlone(n: int, rest: string)
    requires |rest| == 0 || !IsDigit(rest[0])
    ensures ParseInt(Decimal(n) + rest) == Some(n)
  {
    if n < 0 {
      var ds := NatDigits(-n);
      assert Decimal(n) + rest == ['-'] + (ds + rest);
      ParseNegative(ds, rest, -n);
    } else {
      ParseUnsigned(NatDigits(n), rest);
    }
  }

  /** Leading blanks do not change what `parseInt` reads. */
  lemma ParseAfterBlanks(pre: string, d: string, rest: string)
    requires AllSpace(pre) && |d| > 0 && !IsSpace(d[0])
    ensures ParseInt(pre + d + rest) == ParseInt(d + rest)
  {
    var t := d + rest;
    var s := pre + d + rest;
    assert s == pre + t;
    assert s[|pre|] == t[0];
    assert LeadingSpaces(s) == |pre|;
    assert s[|pre|..] == t;
    assert LeadingSpaces(t) == 0;
    assert t[0..] == t;
  }

  /** A digit run followed by a non-digit reads as its value. */
  lemma ReadDigitRun(ds: string, rest: string)
    requires |ds| > 0 && AllDigits(ds)
    requires |rest| == 0 || !IsDigit(rest[0])
    ensures ReadDigits(ds + rest) == Some(DigitsValue(ds))
  {
    LeadingDigitsOf(ds, rest);
    assert (ds + rest)[..|ds|] == ds;
  }

  /** An unsigned digit run followed by a non-digit parses as its value. */
  lemma ParseUnsigned(ds: string, rest: string)
    requires |ds| > 0 && AllDigits(ds)
    requires |rest| == 0 || !IsDigit(rest[0])
    ensures ParseInt(ds + rest) == Some(DigitsValue(ds))
  {
    var t := ds + rest;
    assert t[0] == ds[0];
    assert t[0..] == t;
    ReadDigitRun(ds, rest);
  }

  /** A minus sign before a digit run negates its value. */
  lemma ParseNegative(ds: string, rest: string, v: int)
    requires |ds| > 0 && AllDigits(ds) && v == DigitsValue(ds)
    requires |rest| == 0 || !IsDigit(rest[0])
    ensures ParseInt(['-'] + (ds + rest)) == Some(-v)
  {
    var t := ['-'] + (ds + rest);
    ReadDigitRun(ds, rest);
    assert t[1..] == ds + rest;
    ParseMinus(t, v);
  }

  /** After a minus sign, `parseInt` negates what the digits read. */
  lemma ParseMinus(t: string, v: int)
    requires |t| > 0 && t[0] == '-' && ReadDigits(t[1..]) == Some(v)
    ensures ParseInt(t) == Some(-v)
  {
    assert LeadingSpaces(t) == 0;
    assert t[0..] == t;
  }

  /** The digit run at the front of `ds + rest` is exactly `ds` when `rest` does not start with a digit. */
  lemma {:induction false} LeadingDigitsOf(ds: string, rest: string)
    requires AllDigits(ds)
    requires |rest| == 0 || !IsDigit(rest[0])
    ensures LeadingDigits(ds + rest) == |ds|
  {
    if |ds| > 0 {
      LeadingDigitsOf(ds[1..], rest);
      assert (ds + rest)[1..] == ds[1..] + rest;
    } else {
      assert ds + rest == rest;
    }
  }

  /** Text with no digit at all parses to `NaN`. */
  lemma ParseNoDigits(s: string)
    requires forall i | 0 <= i < |s| :: !IsDigit(s[i])
    ensures ParseInt(s) == None
  {
    var t := s[LeadingSpaces(s)..];
    assert forall i | 0 <= i < |t| :: t[i] == s[LeadingSpaces(s) + i];
  }
}
