/** Decimal text of integers, as fmt's %d writes it and strconv reads it. */
module Decimal {

  function DigitChar(d: nat): (c: char)
    requires d < 10
    ensures '0' <= c <= '9' && c as int - '0' as int == d
  {
    (('0' as int) + d) as char
  }

  predicate IsDigit(c: char) {
    '0' <= c <= '9'
  }

  predicate AllDigits(s: string) {
    forall i :: 0 <= i < |s| ==> IsDigit(s[i])
  }

  function Digits(n: nat): (s: string)
    ensures AllDigits(s) && s != ""
  {
    if n < 10 then [DigitChar(n)] else Digits(n / 10) + [DigitChar(n % 10)]
  }

  /** The value of a string of digits, leading zeros allowed. */
  function ValueOf(s: string): nat
    requires AllDigits(s)
  {
    if s == "" then 0
    else 10 * ValueOf(s[..|s| - 1]) + (s[|s| - 1] as int - '0' as int)
  }

  lemma {:induction false} ValueOfDigits(n: nat)
    ensures ValueOf(Digits(n)) == n
  {
    var s := Digits(n);
    if n < 10 {
      assert s[..|s| - 1] == "";
    } else {
      assert s[..|s| - 1] == Digits(n / 10);
      ValueOfDigits(n / 10);
    }
  }

  function PowerOfTen(k: nat): (r: nat)
    ensures r >= 1
  {
    if k == 0 then 1 else 10 * PowerOfTen(k - 1)
  }

  /** `k` digits suffice exactly for the numbers below ten to the `k`. */
  lemma {:induction false} DigitCount(n: nat, k: nat)
    requires k >= 1
    ensures |Digits(n)| <= k <==> n < PowerOfTen(k)
  {
    if n < 10 {
      assert PowerOfTen(k) >= 10;
    } else if k == 1 {
      assert PowerOfTen(1) == 10;
      assert |Digits(n / 10)| >= 1;
    } else {
      DigitCount(n / 10, k - 1);
    }
  }

  function Text(i: int): string {
    if i < 0 then "-" + Digits(-i) else Digits(i)
  }

  /** A decimal with no more digits than it needs. */
  predicate NoLeadingZero(s: string) {
    |s| == 1 || (s != "" && s[0] != '0')
  }

  /** Writing the value of a digit string back gives that string exactly when it has no leading zero,
      and otherwise a shorter one. */
  lemma {:induction false} WrittenBack(s: string)
    requires AllDigits(s) && s != ""
    ensures |Digits(ValueOf(s))| <= |s|
    ensures Digits(ValueOf(s)) == s <==> NoLeadingZero(s)
    ensures |Digits(ValueOf(s))| == |s| <==> NoLeadingZero(s)
  {
    var front, last := s[..|s| - 1], s[|s| - 1];
    var d := last as int - '0' as int;
    assert s == front + [last] && DigitChar(d) == last;
    if front == "" {
      assert ValueOf(s) == d;
    } else {
      WrittenBack(front);
      var v := ValueOf(front);
      assert ValueOf(s) == 10 * v + d;
      if v == 0 {
        ZeroHasLeadingZero(front);
        assert |Digits(d)| == 1;
      } else {
        AppendDigit(v, d);
        assert front != "0" by {
          assert "0"[..0] == "";
        }
      }
    }
  }

  lemma AppendDigit(v: nat, d: nat)
    requires v > 0 && d < 10
    ensures Digits(10 * v + d) == Digits(v) + [DigitChar(d)]
  {
  }

  lemma {:induction false} ZeroHasLeadingZero(s: string)
    requires AllDigits(s) && s != "" && ValueOf(s) == 0
    ensures s[0] == '0'
  {
    if |s| > 1 {
      ZeroHasLeadingZero(s[..|s| - 1]);
    }
  }

  /** Among digit strings of one value, the length tells them apart. */
  lemma {:induction false} LengthDecides(s: string, t: string)
    requires AllDigits(s) && AllDigits(t) && ValueOf(s) == ValueOf(t)
    ensures s == t <==> |s| == |t|
  {
    if |s| == |t| && s != "" {
      var n := |s| - 1;
      assert s == s[..n] + [s[n]] && t == t[..n] + [t[n]];
      LengthDecides(s[..n], t[..n]);
    }
  }
}
