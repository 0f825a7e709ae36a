/** Decimal numerals: written from a number, read as one. */
module Decimals {

  function Digit(d: nat): char
    requires d < 10
  {
    "0123456789"[d]
  }

  function Decimal(n: nat): string {
    if n < 10 then [Digit(n)] else Decimal(n / 10) + [Digit(n % 10)]
  }

  predicate IsNumeral(s: string) {
    s != "" && forall i :: 0 <= i < |s| ==> '0' <= s[i] <= '9'
  }

  function NumeralValue(s: string): nat
    requires forall i :: 0 <= i < |s| ==> '0' <= s[i] <= '9'
  {
    if s == "" then 0 else 10 * NumeralValue(s[..|s| - 1]) + (s[|s| - 1] as int - '0' as int)
  }

  /** What is written for a number is read as that number, ... */
  lemma {:induction false} DecimalRead(n: nat)
    ensures IsNumeral(Decimal(n)) && NumeralValue(Decimal(n)) == n
    ensures Decimal(n)[0] == '0' ==> n == 0
  {
    var s, d := Decimal(n), n % 10;
    DigitRead(d, Digit(d));
    if n < 10 {
      assert s[..0] == "" && n % 10 == n;
    } else {
      DecimalRead(n / 10);
      assert s[..|s| - 1] == Decimal(n / 10);
    }
  }

  lemma DigitRead(d: nat, c: char)
    requires d < 10
    ensures Digit(d) == c <==> c as int == '0' as int + d
  {
  }

  lemma WriteLast(v: nat, d: nat)
    requires v > 0 && d < 10
    ensures Decimal(10 * v + d) == Decimal(v) + [Digit(d)]
  {
    var n := 10 * v + d;
    assert n / 10 == v && n % 10 == d;
  }

  lemma WrittenLast(t: string, c: char, d: nat)
    requires IsNumeral(t) && '0' <= c <= '9' && d == c as int - '0' as int && NumeralValue(t) > 0
    ensures IsNumeral(t + [c]) && Decimal(NumeralValue(t + [c])) == Decimal(NumeralValue(t)) + [c]
  {
    var s := t + [c];
    assert s[..|s| - 1] == t && s[|s| - 1] == c;
    assert NumeralValue(s) == 10 * NumeralValue(t) + d;
    DigitRead(d, c);
    WriteLast(NumeralValue(t), d);
  }

  /** ... a numeral without leading zeros is what is written for its value, ... */
  lemma {:induction false} NumeralWritten(s: string)
    requires IsNumeral(s) && (|s| > 1 ==> s[0] != '0')
    ensures Decimal(NumeralValue(s)) == s
  {
    var n := |s| - 1;
    var t, c := s[..n], s[n];
    var d := c as int - '0' as int;
    if n == 0 {
      DigitRead(d, c);
      assert t == "" && s == [c];
    } else {
      NumeralWritten(t);
      ValuePositive(t);
      WrittenLast(t, c, d);
      assert s == t + [c];
    }
  }

  lemma {:induction false} ValuePositive(s: string)
    requires IsNumeral(s) && s[0] != '0'
    ensures NumeralValue(s) > 0
  {
    if |s| > 1 { ValuePositive(s[..|s| - 1]); }
  }

  /** ... and leading zeros do not count. */
  lemma {:induction false} LeadingZero(s: string)
    requires IsNumeral(s)
    ensures IsNumeral("0" + s) && NumeralValue("0" + s) == NumeralValue(s)
  {
    var n, z := |s| - 1, "0" + s;
    assert z[..|z| - 1] == "0" + s[..n] && z[|z| - 1] == s[n];
    if n > 0 {
      LeadingZero(s[..n]);
    } else {
      assert "0" + s[..0] == "0" && "0"[..0] == "";
    }
  }
}
