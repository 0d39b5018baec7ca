/** Decimal numerals, as Python prints them. */
module Numerals {
  function Digit(d: nat): char
    requires d < 10
  {
    '0' + d as char
  }

  /** `f"{n}"`. */
  function Decimal(n: nat): string {
    if n < 10 then [Digit(n)] else Decimal(n / 10) + [Digit(n % 10)]
  }

  predicate IsDecimal(ch: char) {
    '0' <= ch <= '9'
  }

  /** What a row of digits stands for. */
  function Numeral(s: string): nat
    requires forall i :: 0 <= i < |s| ==> IsDecimal(s[i])
  {
    if s == "" then 0
    else
      var last := s[|s| - 1];
      assert IsDecimal(last);
      10 * Numeral(s[..|s| - 1]) + (last - '0') as nat
  }

  lemma {:induction false} DecimalShape(n: nat)
    ensures Decimal(n) != "" && forall i :: 0 <= i < |Decimal(n)| ==> IsDecimal(Decimal(n)[i])
  {
    if n >= 10 { DecimalShape(n / 10); }
  }

  lemma {:induction false} DecimalIsNumeral(n: nat)
    ensures Decimal(n) != "" && (forall i :: 0 <= i < |Decimal(n)| ==> IsDecimal(Decimal(n)[i]))
    ensures Numeral(Decimal(n)) == n && (Decimal(n)[0] == '0' ==> n == 0)
  {
    DecimalShape(n);
    if n >= 10 {
      DecimalIsNumeral(n / 10);
      assert Decimal(n)[..|Decimal(n)| - 1] == Decimal(n / 10);
    } else {
      assert Decimal(n)[..0] == "" && Numeral("") == 0;
    }
  }

  lemma {:induction false} NumeralIsDecimal(s: string)
    requires s != "" && (forall i :: 0 <= i < |s| ==> IsDecimal(s[i])) && (s[0] == '0' ==> |s| == 1)
    ensures s == Decimal(Numeral(s))
    decreases |s|
  {
    var init, last := s[..|s| - 1], s[|s| - 1];
    assert IsDecimal(last) && s == init + [last];
    if init == "" {
      assert Numeral(init) == 0;
    } else {
      assert init[0] == s[0];
      NotZero(init);
      NumeralIsDecimal(init);
      TensAndOnes(Numeral(init), (last - '0') as nat, Numeral(s));
    }
  }

  /** The decimal numeral of a number is the one row of digits that stands for it and has no leading zero. */
  lemma DecimalIsExact(s: string, n: nat)
    requires s != "" && forall i :: 0 <= i < |s| ==> IsDecimal(s[i])
    ensures s == Decimal(n) <==> Numeral(s) == n && (s[0] == '0' ==> |s| == 1)
  {
    DecimalIsNumeral(n);
    if s[0] == '0' ==> |s| == 1 { NumeralIsDecimal(s); }
  }

  lemma TensAndOnes(m: nat, d: nat, n: nat)
    requires n == 10 * m + d && d < 10 && m > 0
    ensures n >= 10 && n / 10 == m && n % 10 == d
  {
  }

  /** A row of digits without a leading zero stands for a positive number. */
  lemma {:induction false} NotZero(s: string)
    requires s != "" && (forall i :: 0 <= i < |s| ==> IsDecimal(s[i])) && s[0] != '0'
    ensures Numeral(s) > 0
  {
    if |s| > 1 {
      NotZero(s[..|s| - 1]);
    } else {
      assert s[..0] == "" && Numeral("") == 0;
    }
  }
}
