/** Decimal rendering of numbers as JavaScript's `String(n)` and template
    literals produce it, `padStart(2, '0')`, and the reading of a digit
    string back into its value (the inverse used to state round trips). */
module Text {

  predicate IsDigit(c: char) {
    '0' <= c <= '9'
  }

  predicate AllDigits(s: string) {
    forall i :: 0 <= i < |s| ==> IsDigit(s[i])
  }

  function DigitChar(d: nat): (c: char)
    requires d < 10
    ensures IsDigit(c) && c as int - '0' as int == d
  {
    ('0' as int + d) as char
  }

  function DigitValue(c: char): nat
    requires IsDigit(c)
  {
    c as int - '0' as int
  }

  /** `String(n)` for a non-negative integer: its decimal digits, most
      significant first, without leading zeros. */
  function Decimal(n: nat): (r: string)
    ensures |r| >= 1 && AllDigits(r)
    ensures r[0] == '0' ==> n == 0
    ensures n < 10 <==> |r| == 1
    ensures n < 100 <==> |r| <= 2
    decreases n
  {
    if n < 10 then [DigitChar(n)] else Decimal(n / 10) + [DigitChar(n % 10)]
  }

  /** `String(i)` for any integer: a minus sign before the digits of a
      negative number. */
  function IntToString(i: int): (r: string)
    ensures |r| >= 1
    ensures r[0] == '-' <==> i < 0
    ensures i >= 0 ==> AllDigits(r) && NoLeadingZero(r) && Value(r) == i
    ensures i < 0 ==> AllDigits(r[1..]) && NoLeadingZero(r[1..]) && Value(r[1..]) == -i
  {
    if i < 0 then
      DecimalValue(-i);
      assert ("-" + Decimal(-i))[1..] == Decimal(-i);
      "-" + Decimal(-i)
    else
      DecimalValue(i);
      Decimal(i)
  }

  /** A digit field as `String(n)` writes it: not empty, and no leading
      zero unless the field is the single digit `0`. */
  predicate NoLeadingZero(d: string) {
    d != [] && (d[0] == '0' ==> |d| == 1)
  }

  /** The number a digit string denotes (leading zeros allowed). */
  function Value(s: string): nat
    requires AllDigits(s)
  {
    if s == [] then 0 else Value(s[..|s| - 1]) * 10 + DigitValue(s[|s| - 1])
  }

  /** `s.padStart(2, '0')`: zeros in front up to length two; a longer
      string is left as it is. */
  function PadTwo(s: string): (r: string)
    ensures |r| == if |s| >= 2 then |s| else 2
    ensures |s| >= 2 ==> r == s
    ensures |s| < 2 ==> r == seq(2 - |s|, _ => '0') + s
  {
    if |s| >= 2 then s
    else if |s| == 1 then
      assert seq(1, _ => '0') == "0";
      "0" + s
    else
      assert seq(2, _ => '0') + s == "00";
      "00"
  }

  /** Splits a string into its longest prefix of digits and the rest. */
  function SplitDigits(s: string): (p: (string, string))
    ensures AllDigits(p.0) && p.0 + p.1 == s
  {
    if s == [] || !IsDigit(s[0]) then ([], s)
    else
      var (d, rest) := SplitDigits(s[1..]);
      ([s[0]] + d, rest)
  }

  /** Reading back what `Decimal` wrote gives the number. */
  lemma {:induction false} DecimalValue(n: nat)
    ensures Value(Decimal(n)) == n
    decreases n
  {
    if n >= 10 {
      DecimalValue(n / 10);
      var d := Decimal(n);
      assert d[..|d| - 1] == Decimal(n / 10);
    }
  }

  /** A leading zero does not change the value of a digit string. */
  lemma {:induction false} LeadingZeroValue(s: string)
    requires AllDigits(s)
    ensures AllDigits("0" + s) && Value("0" + s) == Value(s)
    decreases |s|
  {
    if s != [] {
      var t := "0" + s;
      assert t[..|t| - 1] == "0" + s[..|s| - 1];
      LeadingZeroValue(s[..|s| - 1]);
    }
  }

  /** Padding keeps a digit string's value. */
  lemma PadTwoValue(s: string)
    requires AllDigits(s)
    ensures AllDigits(PadTwo(s)) && Value(PadTwo(s)) == Value(s)
  {
    if |s| == 1 {
      LeadingZeroValue(s);
    }
  }

  /** Splitting a digit string followed by a non-digit recovers exactly
      that digit string and the tail. */
  lemma {:induction false} SplitDigitsAt(d: string, t: string)
    requires AllDigits(d)
    requires t == [] || !IsDigit(t[0])
    ensures SplitDigits(d + t) == (d, t)
    decreases |d|
  {
    if d != [] {
      var s := d + t;
      assert s[0] == d[0] && IsDigit(s[0]);
      assert s[1..] == d[1..] + t;
      SplitDigitsAt(d[1..], t);
      assert [d[0]] + d[1..] == d;
    } else {
      assert d + t == t;
    }
  }

  lemma SplitDigitsAll(d: string)
    requires AllDigits(d)
    ensures SplitDigits(d) == (d, [])
  {
    SplitDigitsAt(d, []);
    assert d + [] == d;
  }

  /** A digit string that starts with a non-zero digit denotes a positive
      number. */
  lemma {:induction false} LeadingDigitPositive(s: string)
    requires AllDigits(s) && s != [] && s[0] != '0'
    ensures Value(s) > 0
    decreases |s|
  {
    var init := s[..|s| - 1];
    if |s| > 1 {
      assert init[0] == s[0];
      LeadingDigitPositive(init);
    } else {
      assert init == [];
    }
  }

  /** A digit field without a leading zero is exactly what `String(n)`
      writes for the number it denotes: no other text reads back as `n`. */
  lemma {:induction false} NoLeadingZeroIsDecimal(d: string)
    requires AllDigits(d) && NoLeadingZero(d)
    ensures d == Decimal(Value(d))
    decreases |d|
  {
    var init, last := d[..|d| - 1], d[|d| - 1];
    if |d| == 1 {
      assert init == [];
      assert DigitChar(DigitValue(last)) == last;
      assert d == [last];
    } else {
      assert init[0] == d[0];
      NoLeadingZeroIsDecimal(init);
      LeadingDigitPositive(init);
      var v := Value(d);
      assert v == Value(init) * 10 + DigitValue(last);
      assert v / 10 == Value(init) && v % 10 == DigitValue(last);
      assert DigitChar(DigitValue(last)) == last;
      assert d == init + [last];
    }
  }
}
