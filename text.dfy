/** String helpers used where the source concatenates numbers into text. */
module Text {

  predicate IsDigit(c: char) {
    '0' <= c <= '9'
  }

  /** The decimal digit for 0 <= d < 10. */
  function Digit(d: nat): (c: char)
    requires d < 10
    ensures IsDigit(c) && DigitValue(c) == d
  {
    ('0' as int + d) as char
  }

  /** The value of a decimal digit. */
  function DigitValue(c: char): nat
    requires IsDigit(c)
  {
    c as int - '0' as int
  }

  /** The number a string of decimal digits denotes, most significant digit first (the empty string denotes 0). */
  function DecimalValue(s: string): nat
    requires forall i :: 0 <= i < |s| ==> IsDigit(s[i])
  {
    if s == [] then 0 else 10 * DecimalValue(s[..|s| - 1]) + DigitValue(s[|s| - 1])
  }

  /** Decimal text of a non-negative number: digits that denote `n`, at least one, no leading zero. */
  function NatToString(n: nat): (s: string)
    ensures |s| >= 1
    ensures forall i :: 0 <= i < |s| ==> IsDigit(s[i])
    ensures DecimalValue(s) == n
    ensures |s| > 1 ==> s[0] != '0'
    decreases n
  {
    if n < 10 then [Digit(n)]
    else
      var front := NatToString(n / 10);
      var s := front + [Digit(n % 10)];
      assert s[..|s| - 1] == front;
      s
  }

  /**
   * What C#'s `int.ToString()` yields for an integer (invariant culture): the digits of the magnitude,
   * after a minus sign when the number is negative.
   */
  function IntToString(i: int): (s: string)
    ensures i >= 0 ==> |s| >= 1 && (forall k :: 0 <= k < |s| ==> IsDigit(s[k])) && DecimalValue(s) == i
    ensures i < 0 ==> |s| >= 2 && s[0] == '-' && (forall k :: 1 <= k < |s| ==> IsDigit(s[k]))
                      && DecimalValue(s[1..]) == -i
    ensures |s| > 1 && s[0] != '-' ==> s[0] != '0'
    ensures |s| > 2 && s[0] == '-' ==> s[1] != '0'
  {
    if i < 0 then
      var digits := NatToString(-i);
      assert ("-" + digits)[1..] == digits;
      "-" + digits
    else NatToString(i)
  }

  /** Number of occurrences of `c` in `s`. */
  function CountChar(c: char, s: string): nat
  {
    if s == [] then 0 else (if s[0] == c then 1 else 0) + CountChar(c, s[1..])
  }

  lemma {:induction false} CountCharConcat(c: char, a: string, b: string)
    ensures CountChar(c, a + b) == CountChar(c, a) + CountChar(c, b)
  {
    if a == [] {
      assert a + b == b;
    } else {
      assert (a + b)[1..] == a[1..] + b;
      CountCharConcat(c, a[1..], b);
    }
  }

  lemma {:induction false} CountCharAbsent(c: char, s: string)
    requires forall i :: 0 <= i < |s| ==> s[i] != c
    ensures CountChar(c, s) == 0
  {
    if s != [] {
      CountCharAbsent(c, s[1..]);
    }
  }

  /** Appending two pieces adds their counts and keeps the front as a prefix. */
  lemma CountCharAppend2(c: char, front: string, a: string, b: string)
    ensures CountChar(c, front + a + b) == CountChar(c, front) + CountChar(c, a) + CountChar(c, b)
    ensures (front + a + b)[..|front|] == front
  {
    CountCharConcat(c, front, a);
    CountCharConcat(c, front + a, b);
  }
}
