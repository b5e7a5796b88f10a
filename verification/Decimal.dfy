// Decimal numbers as text: the printing of printf and the digit loops that
// read it back.
module Decimal {
  function Digit(v: nat): char
    requires v < 10
  {
    ('0' as int + v) as char
  }

  predicate IsDigit(c: char) {
    '0' <= c <= '9'
  }

  function DigitValue(c: char): (v: nat)
    requires IsDigit(c)
    ensures v < 10
  {
    c as int - '0' as int
  }

  predicate AllDigits(s: string) {
    forall c <- s :: IsDigit(c)
  }

  // The number a string of digits stands for.
  function NumberOf(s: string): nat
    requires AllDigits(s)
  {
    if s == [] then 0 else 10 * NumberOf(s[..|s| - 1]) + DigitValue(s[|s| - 1])
  }

  function Pow10(n: nat): (p: nat)
    ensures p > 0
  {
    if n == 0 then 1 else 10 * Pow10(n - 1)
  }

  // A number with at least "width" digits, padded with zeros.
  function Padded(v: nat, width: nat): (s: string)
    ensures s != []
    decreases v + width
  {
    if v < 10 && width <= 1 then [Digit(v)]
    else Padded(v / 10, if width == 0 then 0 else width - 1) + [Digit(v % 10)]
  }

  function Decimal(v: nat): string {
    Padded(v, 0)
  }

  // What is printed is made of digits and reads back as the same number.
  lemma {:induction false} PaddedReads(v: nat, width: nat)
    ensures AllDigits(Padded(v, width)) && NumberOf(Padded(v, width)) == v
    decreases v + width
  {
    var s := Padded(v, width);
    if v < 10 && width <= 1 {
      assert s[..|s| - 1] == [];
    } else {
      PaddedReads(v / 10, if width == 0 then 0 else width - 1);
      assert s[..|s| - 1] == Padded(v / 10, if width == 0 then 0 else width - 1);
    }
  }

  // A number that fits its field has exactly the width of the field.
  lemma {:induction false} PaddedWidth(v: nat, width: nat)
    requires width >= 1 && v < Pow10(width)
    ensures |Padded(v, width)| == width
    decreases width
  {
    if width == 1 {
      assert Pow10(1) == 10 * Pow10(0);
    } else {
      PaddedWidth(v / 10, width - 1);
    }
  }

  lemma {:induction false} DecimalLength(v: nat, n: nat)
    requires n >= 1 && v < Pow10(n)
    ensures |Decimal(v)| <= n
    decreases n
  {
    if v >= 10 {
      assert Pow10(1) == 10 * Pow10(0);
      DecimalLength(v / 10, n - 1);
    }
  }

  // A number without padding starts with a zero only if it is zero.
  lemma {:induction false} DecimalHead(v: nat)
    ensures v > 0 ==> Decimal(v)[0] != '0'
    ensures v == 0 ==> Decimal(v) == "0"
    decreases v
  {
    if v >= 10 {
      DecimalHead(v / 10);
    }
  }

  lemma {:induction false} NumberBound(s: string)
    requires AllDigits(s)
    ensures NumberOf(s) < Pow10(|s|)
  {
    if s != [] {
      NumberBound(s[..|s| - 1]);
    }
  }

  lemma TakeOneMore(s: string, i: nat)
    requires i < |s| && AllDigits(s[..i + 1])
    ensures AllDigits(s[..i])
    ensures NumberOf(s[..i + 1]) == 10 * NumberOf(s[..i]) + DigitValue(s[i])
  {
    assert s[..i + 1][..i] == s[..i];
    forall c | c in s[..i]
      ensures IsDigit(c)
    {
      assert c in s[..i + 1];
    }
  }
}
