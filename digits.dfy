/** ASCII decimal digits, decimal numerals, and the subset of Python's
    int() that the edit flow uses to read a task number. */
module Digits {
  import opened Wrappers

  /** The regex class [0-9]: an ASCII decimal digit. */
  predicate IsDigit(c: char) {
    '0' <= c <= '9'
  }

  predicate AllDigits(s: string) {
    forall i | 0 <= i < |s| :: IsDigit(s[i])
  }

  function DigitValue(c: char): (d: nat)
    requires IsDigit(c)
    ensures d < 10
  {
    c as int - '0' as int
  }

  function DigitChar(d: nat): (c: char)
    requires d < 10
    ensures IsDigit(c) && DigitValue(c) == d
  {
    ('0' as int + d) as char
  }

  /** The value of a run of decimal digits, most significant digit first. */
  function DigitsValue(s: string): nat
    requires AllDigits(s)
  {
    if s == [] then 0 else DigitsValue(s[..|s| - 1]) * 10 + DigitValue(s[|s| - 1])
  }

  lemma DigitsValueShort(s: string)
    requires AllDigits(s) && 1 <= |s| <= 2
    ensures |s| == 1 ==> DigitsValue(s) == DigitValue(s[0])
    ensures |s| == 2 ==> DigitsValue(s) == DigitValue(s[0]) * 10 + DigitValue(s[1])
  {
    assert s[..1] == [s[0]];
    assert [s[0]][..0] == [];
    if |s| == 1 {
      assert s[..|s| - 1] == [];
    }
  }

  /** The decimal numeral of n without leading zeros, as the edit menu
      prints the 1-based position of each task. */
  function Numeral(n: nat): (s: string)
    ensures s != [] && AllDigits(s)
  {
    if n < 10 then [DigitChar(n)] else Numeral(n / 10) + [DigitChar(n % 10)]
  }

  /** int(text) on the inputs this model covers: an optional sign followed
      by at least one ASCII digit. None stands for the ValueError that
      int() raises on anything else. */
  function ParseInt(text: string): (r: Option<int>)
    ensures r.Some? <==> text != [] && (AllDigits(text) || (|text| > 1 && (text[0] == '+' || text[0] == '-') && AllDigits(text[1..])))
    ensures text != [] && AllDigits(text) ==> r == Some(DigitsValue(text))
  {
    if text != [] && AllDigits(text) then
      Some(DigitsValue(text))
    else if |text| > 1 && text[0] == '-' && AllDigits(text[1..]) then
      var magnitude: int := DigitsValue(text[1..]);
      Some(-magnitude)
    else if |text| > 1 && text[0] == '+' && AllDigits(text[1..]) then
      Some(DigitsValue(text[1..]))
    else
      None
  }

  lemma {:induction false} NumeralValue(n: nat)
    ensures DigitsValue(Numeral(n)) == n
  {
    if n >= 10 {
      var s := Numeral(n / 10) + [DigitChar(n % 10)];
      assert s[..|s| - 1] == Numeral(n / 10);
      NumeralValue(n / 10);
    }
  }

  /** Reading back the number the menu shows gives the number itself. */
  lemma ParseNumeral(n: nat)
    ensures ParseInt(Numeral(n)) == Some(n)
  {
    NumeralValue(n);
  }

  /** A signed number parses to its negation; text that is not a numeral
      is refused. */
  lemma ParseIntExamples()
    ensures ParseInt("-1") == Some(-1)
    ensures ParseInt("+2") == Some(2)
    ensures ParseInt("007") == Some(7)
    ensures ParseInt("") == None && ParseInt("-") == None && ParseInt("1a") == None
  {
    assert DigitsValue("0") == 0;
    assert DigitsValue("00") == 0 by { assert "00"[..1] == "0"; }
    assert "007"[..2] == "00";
    assert "1a"[1] == 'a';
  }
}
