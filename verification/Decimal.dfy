/** Base-10 numerals as strconv.FormatUint and fmt's %d write them, and their value. */
module Decimal {
  predicate IsDigit(c: char) {
    '0' <= c <= '9'
  }

  predicate AllDigits(s: string) {
    forall i | 0 <= i < |s| :: IsDigit(s[i])
  }

  function Digit(d: nat): (c: char)
    requires d < 10
    ensures IsDigit(c)
  {
    '0' + d as char
  }

  function Format(n: nat): string {
    if n < 10 then [Digit(n)] else Format(n / 10) + [Digit(n % 10)]
  }

  /** The value of a string of digits, leading zeros allowed. */
  function Value(s: string): nat
    requires AllDigits(s)
  {
    if s == "" then 0
    else 10 * Value(s[..|s| - 1]) + (s[|s| - 1] - '0') as nat
  }

  lemma {:induction false} FormatRoundTrip(n: nat)
    ensures Format(n) != "" && AllDigits(Format(n)) && Value(Format(n)) == n
  {
    if n < 10 {
      assert Value([Digit(n)]) == 10 * Value("") + n;
    } else {
      FormatRoundTrip(n / 10);
      assert Format(n)[..|Format(n)| - 1] == Format(n / 10);
    }
  }

  lemma FormatIsInjective(m: nat, n: nat)
    requires Format(m) == Format(n)
    ensures m == n
  {
    FormatRoundTrip(m);
    FormatRoundTrip(n);
  }

  /** Written without leading zeros: the only numeral that starts with 0 is that of 0. */
  predicate Canonical(s: string) {
    s != "" && AllDigits(s) && (s[0] == '0' ==> |s| == 1)
  }

  lemma {:induction false} FormatIsCanonical(n: nat)
    ensures Canonical(Format(n)) && (Format(n)[0] == '0' <==> n == 0)
  {
    if n >= 10 {
      FormatRoundTrip(n);
      FormatIsCanonical(n / 10);
    }
  }

  lemma {:induction false} LeadingDigitCounts(s: string)
    requires AllDigits(s) && s != "" && s[0] != '0'
    ensures Value(s) > 0
  {
    if |s| > 1 {
      LeadingDigitCounts(s[..|s| - 1]);
    } else {
      assert s[..0] == "";
    }
  }

  /** And the other way round: every numeral without leading zeros is what its value is written as. */
  lemma {:induction false} CanonicalIsFormat(s: string)
    requires Canonical(s)
    ensures Format(Value(s)) == s
  {
    var init, d := s[..|s| - 1], (s[|s| - 1] - '0') as nat;
    assert Digit(d) == s[|s| - 1];
    if |s| == 1 {
      assert init == "" && Value(init) == 0;
      assert s == [s[0]];
    } else {
      CanonicalIsFormat(init);
      LeadingDigitCounts(init);
      assert Value(s) / 10 == Value(init) && Value(s) % 10 == d;
      assert s == init + [s[|s| - 1]];
    }
  }

  /** What a number is written as: the digits of that value without leading zeros, and nothing else. */
  lemma FormatExactly(n: nat, s: string)
    ensures s == Format(n) <==> s != "" && AllDigits(s) && Value(s) == n && (s[0] == '0' ==> |s| == 1)
  {
    FormatRoundTrip(n);
    FormatIsCanonical(n);
    if Canonical(s) { CanonicalIsFormat(s); }
  }
}
