/** Decimal rendering of counters, used for the proxy names `v<n>` of the
    boolean abstraction and the names `v<n>`, `g<n>` of the BC-S1.2 writer
    (Python f-strings `f"v{n}"`). */
module Names {

  function Digit(d: nat): (c: char)
    requires d < 10
    ensures '0' <= c <= '9'
  {
    "0123456789"[d]
  }

  function DigitValue(c: char): nat
  {
    if '0' <= c <= '9' then (c - '0') as nat else 0
  }

  /** The decimal representation of n, without leading zeros. */
  function Decimal(n: nat): (s: string)
    ensures |s| > 0
    ensures forall i :: 0 <= i < |s| ==> '0' <= s[i] <= '9'
    decreases n
  {
    if n < 10 then [Digit(n)] else Decimal(n / 10) + [Digit(n % 10)]
  }

  /** Reads a string of decimal digits back as a number. */
  function ParseDecimal(s: string): nat
  {
    if s == [] then 0 else ParseDecimal(s[..|s| - 1]) * 10 + DigitValue(s[|s| - 1])
  }

  lemma {:induction false} ParseDecimalRoundTrip(n: nat)
    ensures ParseDecimal(Decimal(n)) == n
    decreases n
  {
    var s := Decimal(n);
    if n < 10 {
      assert s == [Digit(n)];
      assert s[..|s| - 1] == [];
    } else {
      ParseDecimalRoundTrip(n / 10);
      assert s[..|s| - 1] == Decimal(n / 10);
      assert s[|s| - 1] == Digit(n % 10);
    }
  }

  /** Distinct numbers get distinct decimal strings. */
  lemma DecimalInjective(m: nat, n: nat)
    ensures Decimal(m) == Decimal(n) ==> m == n
  {
    ParseDecimalRoundTrip(m);
    ParseDecimalRoundTrip(n);
  }

  /** `f"{prefix}{n}"`: a prefix followed by the decimal digits of n. */
  function Numbered(prefix: char, n: nat): (s: string)
    ensures |s| >= 2 && s[0] == prefix
  {
    [prefix] + Decimal(n)
  }

  /** Two numbered names with the same prefix are equal only for equal numbers. */
  lemma NumberedInjective(prefix: char, m: nat, n: nat)
    ensures Numbered(prefix, m) == Numbered(prefix, n) ==> m == n
  {
    if Numbered(prefix, m) == Numbered(prefix, n) {
      assert Decimal(m) == Numbered(prefix, m)[1..];
      assert Decimal(n) == Numbered(prefix, n)[1..];
      DecimalInjective(m, n);
    }
  }
}
