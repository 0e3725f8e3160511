/** Decimal text of 64-bit integers: fmt.Sprintf("%d", _), strconv.FormatInt(_, 10) and strconv.ParseInt(_, 10, 64). */
module Decimal {
  import opened Common

  function DigitChar(d: nat): (c: char)
    requires d < 10
    ensures IsDigit(c) && DigitValue(c) == d
  {
    ('0' as int + d) as char
  }

  predicate IsDigit(c: char) {
    '0' <= c <= '9'
  }

  function DigitValue(c: char): nat
    requires IsDigit(c)
  {
    c as int - '0' as int
  }

  function Digits(n: nat): string {
    if n < 10 then [DigitChar(n)] else Digits(n / 10) + [DigitChar(n % 10)]
  }

  function FormatInt(n: int): string {
    if n < 0 then ['-'] + Digits(-n) else Digits(n)
  }

  predicate AllDigits(s: string) {
    forall i :: 0 <= i < |s| ==> IsDigit(s[i])
  }

  function Magnitude(s: string): nat
    requires AllDigits(s)
  {
    if s == [] then 0 else 10 * Magnitude(s[..|s| - 1]) + DigitValue(s[|s| - 1])
  }

  /** The magnitude after the sign: None stands for the syntax and range errors, which make every caller give up. */
  function ParseMagnitude(negative: bool, body: string): Option<int> {
    if body == [] || !AllDigits(body) then
      None
    else
      var m: int := Magnitude(body);
      if negative then
        if m > TWO_TO_63 then None else Some(-m)
      else
        if m >= TWO_TO_63 then None else Some(m)
  }

  function ParseInt(s: string): Option<int> {
    if s == [] then None
    else if s[0] == '-' then ParseMagnitude(true, s[1..])
    else if s[0] == '+' then ParseMagnitude(false, s[1..])
    else ParseMagnitude(false, s)
  }

  lemma {:induction false} DigitsRoundTrip(n: nat)
    ensures Digits(n) != [] && AllDigits(Digits(n)) && Magnitude(Digits(n)) == n
  {
    if n < 10 {
      assert Digits(n)[..0] == [];
    } else {
      DigitsRoundTrip(n / 10);
      assert Digits(n)[..|Digits(n)| - 1] == Digits(n / 10);
    }
  }

  /** Parsing undoes formatting exactly on the int64 range; from 2^63 up it fails. */
  lemma {:induction false} ParseFormat(n: int)
    ensures ParseInt(FormatInt(n)) == if -TWO_TO_63 <= n < TWO_TO_63 then Some(n) else None
  {
    hide Digits, Magnitude;
    if n < 0 {
      DigitsRoundTrip(-n);
      assert FormatInt(n)[1..] == Digits(-n);
    } else {
      DigitsRoundTrip(n);
      assert IsDigit(Digits(n)[0]);
    }
  }

  lemma {:induction false} FormatInjective(a: int, b: int)
    requires FormatInt(a) == FormatInt(b)
    ensures a == b
  {
    DigitsRoundTrip(if a < 0 then -a else a);
    DigitsRoundTrip(if b < 0 then -b else b);
    assert FormatInt(a)[0] == '-' <==> a < 0;
    assert FormatInt(b)[0] == '-' <==> b < 0;
    if a < 0 {
      assert FormatInt(a)[1..] == Digits(-a);
      assert FormatInt(b)[1..] == Digits(-b);
    }
  }

  // ---- Which text a number has ----

  /** No leading zero, except in "0" itself. */
  predicate Canonical(s: string) {
    s != [] && AllDigits(s) && (s[0] == '0' ==> |s| == 1)
  }

  lemma {:induction false} DigitsCanonical(n: nat)
    ensures Canonical(Digits(n)) && (n > 0 ==> Digits(n)[0] != '0')
  {
    DigitsRoundTrip(n);
    if n >= 10 {
      DigitsCanonical(n / 10);
      assert Digits(n)[0] == Digits(n / 10)[0];
    }
  }

  /** The text of a natural number: decimal digits without a leading zero, one digit per power of ten. */
  lemma {:induction false} FormatPositional(n: nat, d: nat)
    requires d < 10
    ensures Canonical(FormatInt(n))
    ensures FormatInt(d) == ["0123456789"[d]]
    ensures n > 0 ==> FormatInt(10 * n + d) == FormatInt(n) + ["0123456789"[d]]
  {
    DigitsCanonical(n);
    DigitOf(d);
    if n > 0 {
      assert (10 * n + d) / 10 == n && (10 * n + d) % 10 == d;
    }
  }

  lemma {:induction false} DigitOf(d: nat)
    requires d < 10
    ensures DigitChar(d) == "0123456789"[d]
  {
    assert DigitChar(d) as int == '0' as int + d;
  }

  lemma {:induction false} LeadingDigit(s: string)
    requires AllDigits(s) && s != [] && s[0] != '0'
    ensures Magnitude(s) > 0
  {
    if |s| > 1 {
      LeadingDigit(s[..|s| - 1]);
    } else {
      assert s[..0] == [] && DigitValue(s[0]) > 0;
    }
  }

  /** There is no other such text. */
  lemma {:induction false} CanonicalUnique(s: string)
    requires Canonical(s)
    ensures s == FormatInt(Magnitude(s))
  {
    var front := s[..|s| - 1];
    assert s == front + [s[|s| - 1]];
    assert DigitChar(DigitValue(s[|s| - 1])) == s[|s| - 1];
    if front != [] {
      LeadingDigit(front);
      CanonicalUnique(front);
    }
  }

  predicate ReadableUpTo(body: string, limit: int) {
    body != "" && AllDigits(body) && Magnitude(body) <= limit
  }

  /** Parsing accepts digits after at most one sign, within the int64 range, and reads them in base ten. */
  lemma {:induction false} ParseExactly(body: string, d: char)
    ensures ParseInt("-" + body) == if ReadableUpTo(body, TWO_TO_63) then Some(0 - Magnitude(body)) else None
    ensures ParseInt("+" + body) == if ReadableUpTo(body, TWO_TO_63 - 1) then Some(Magnitude(body)) else None
    ensures body != "" && body[0] !in {'-', '+'}
      ==> ParseInt(body) == if ReadableUpTo(body, TWO_TO_63 - 1) then Some(Magnitude(body)) else None
    ensures AllDigits(body) && '0' <= d <= '9'
      ==> AllDigits(body + [d]) && Magnitude(body + [d]) == 10 * Magnitude(body) + (d as int - '0' as int)
    ensures ParseInt("") == None && Magnitude("") == 0
  {
    assert ("-" + body)[1..] == body == ("+" + body)[1..];
    assert (body + [d])[..|body|] == body;
  }
}
