/** The status line of index.js (`getText`): the mode and, in interactive
    mode, the number of orbit links, as a string. */
module Status {

  /** The decimal digit character for d. */
  function DigitChar(d: nat): char
    requires d < 10
  {
    "0123456789"[d]
  }

  /** The value of a decimal digit character. */
  function DigitValue(c: char): nat {
    if '0' <= c <= '9' then (c as int - '0' as int) else 0
  }

  /** A string of decimal digits only. */
  predicate IsDigits(s: string) {
    forall i :: 0 <= i < |s| ==> '0' <= s[i] <= '9'
  }

  /** The decimal numeral of n, as a JavaScript template literal prints a
      non-negative integer: digits only, no leading zero. */
  function Decimal(n: nat): (r: string)
    ensures |r| >= 1 && IsDigits(r)
    ensures r[0] == '0' <==> n == 0
  {
    if n < 10 then [DigitChar(n)] else Decimal(n / 10) + [DigitChar(n % 10)]
  }

  /** Reads a string of decimal digits back as a number. */
  function ParseDecimal(s: string): nat {
    if s == [] then 0 else ParseDecimal(s[..|s| - 1]) * 10 + DigitValue(s[|s| - 1])
  }

  /** Reading the numeral gives the number back, so different counts print
      differently. */
  lemma {:induction false} DecimalRoundTrip(n: nat)
    ensures ParseDecimal(Decimal(n)) == n
  {
    if n >= 10 {
      DecimalRoundTrip(n / 10);
      var s := Decimal(n / 10) + [DigitChar(n % 10)];
      assert s[..|s| - 1] == Decimal(n / 10);
    }
  }

  /** `getText`: "Interactive: true, <n> iterations" in interactive mode,
      "Interactive: false" otherwise. */
  function StatusText(interactiveMode: bool, numLinks: nat): string {
    if interactiveMode then "Interactive: true, " + Decimal(numLinks) + " iterations"
    else "Interactive: false"
  }

  /** The status line tells the mode apart and, in interactive mode, the
      number of links; in still mode it does not depend on the count. */
  lemma StatusTextDistinguishes(a: bool, n: nat, b: bool, m: nat)
    ensures StatusText(a, n) == StatusText(b, m) <==> a == b && (a ==> n == m)
  {
    if a && b && StatusText(a, n) == StatusText(b, m) {
      var s := StatusText(a, n);
      assert s[19..|s| - 11] == Decimal(n);
      assert s[19..|s| - 11] == Decimal(m);
      DecimalRoundTrip(n);
      DecimalRoundTrip(m);
    }
    if a != b {
      assert |StatusText(a, n)| != |StatusText(b, m)|;
    }
  }
}
