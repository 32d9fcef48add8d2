/** Decimal numbers as text: how integers are formatted and how unsigned integers are parsed. */
module Decimal {
  import opened Common
  import opened Text

  predicate IsDigit(c: char) {
    '0' <= c <= '9'
  }

  function DigitChar(d: nat): (c: char)
    requires d < 10
    ensures IsDigit(c) && DigitValue(c) == d
  {
    ('0' as int + d) as char
  }

  function DigitValue(c: char): (d: nat)
    requires IsDigit(c)
    ensures d < 10
  {
    c as int - '0' as int
  }

  predicate AllDigits(s: string) {
    forall i :: 0 <= i < |s| ==> IsDigit(s[i])
  }

  /** The number as formatted: no sign, no leading zero. */
  function Digits(n: nat): (s: string)
    ensures s != "" && AllDigits(s)
    ensures n != 0 ==> s[0] != '0'
  {
    if n < 10 then [DigitChar(n)] else Digits(n / 10) + [DigitChar(n % 10)]
  }

  function Value(s: string): nat
    requires AllDigits(s)
  {
    if s == "" then 0 else Value(s[..|s| - 1]) * 10 + DigitValue(s[|s| - 1])
  }

  /** Parsing into an unsigned type with the given largest value; a leading plus is accepted. */
  function ParseUnsigned(s: string, max: nat): Option<nat> {
    var digits := if s != "" && s[0] == '+' then s[1..] else s;
    if digits == "" || !AllDigits(digits) || Value(digits) > max then None else Some(Value(digits))
  }

  /** Exactly the texts that parse: digits, after a plus or not, whose value fits. Anything else is refused. */
  lemma ParsesExactly(s: string, max: nat, n: nat)
    ensures ParseUnsigned(s, max) == Some(n)
            <==> n <= max && exists d :: IsNumeral(d) && (s == d || s == "+" + d) && Value(d) == n
  {
    if ParseUnsigned(s, max) == Some(n) {
      var d := if s[0] == '+' then s[1..] else s;
      assert s[0] == '+' ==> s == "+" + d;
      assert IsNumeral(d) && Value(d) == n;
    }
    if d :| IsNumeral(d) && (s == d || s == "+" + d) && Value(d) == n && n <= max {
      assert IsDigit(d[0]);
      assert ("+" + d)[1..] == d;
    }
  }

  predicate IsNumeral(d: string) {
    d != "" && AllDigits(d)
  }

  /** Text with a character that is no digit, other than a plus at its start, does not parse. */
  lemma GarbageDoesNotParse(s: string, max: nat, i: nat)
    requires i < |s| && !IsDigit(s[i]) && (i > 0 || s[0] != '+')
    ensures ParseUnsigned(s, max) == None
  {
  }

  function PowerOfTen(n: nat): nat {
    if n == 0 then 1 else PowerOfTen(n - 1) * 10
  }

  lemma {:induction false} ValueOfDigits(n: nat)
    ensures Value(Digits(n)) == n
  {
    if n < 10 {
      assert Digits(n)[..0] == "";
    } else {
      var s := Digits(n);
      assert s[..|s| - 1] == Digits(n / 10);
      ValueOfDigits(n / 10);
    }
  }

  /** A number parses back from its own formatting when it fits the type. */
  lemma ParseOfDigits(n: nat, max: nat)
    ensures ParseUnsigned(Digits(n), max) == if n <= max then Some(n) else None
  {
    ValueOfDigits(n);
    assert IsDigit(Digits(n)[0]);
  }

  lemma {:induction false} ValueBelow(s: string)
    requires AllDigits(s)
    ensures Value(s) < PowerOfTen(|s|)
  {
    if s != "" {
      ValueBelow(s[..|s| - 1]);
    }
  }

  /** A number has at most k digits exactly when it is below the k-th power of ten. */
  lemma {:induction false} DigitsFit(n: nat, k: nat)
    requires k > 0
    ensures |Digits(n)| <= k <==> n < PowerOfTen(k)
  {
    if k == 1 {
      assert PowerOfTen(1) == 10;
    } else if n < 10 {
      PowerIsPositive(k - 1);
    } else {
      DigitsFit(n / 10, k - 1);
    }
  }

  lemma {:induction false} PowerIsPositive(k: nat)
    ensures PowerOfTen(k) >= 1
  {
    if k > 0 {
      PowerIsPositive(k - 1);
    }
  }

  /** Text that the formatter could have written: digits without a leading zero, or zero itself. */
  predicate IsCanonical(s: string) {
    s != "" && AllDigits(s) && (s[0] == '0' ==> |s| == 1)
  }

  lemma {:induction false} DigitsOfValue(s: string)
    requires IsCanonical(s)
    ensures Digits(Value(s)) == s
    ensures s[0] != '0' ==> Value(s) > 0
  {
    var front, last := s[..|s| - 1], s[|s| - 1];
    assert s == front + [last];
    if |s| == 1 {
      assert Value(front) == 0;
    } else {
      assert front[0] == s[0];
      DigitsOfValue(front);
    }
  }
}
