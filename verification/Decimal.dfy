/** Decimal text as printf's %d, %u and %lld write it and as the readers read it. */
module Decimal {

  predicate IsDigit(c: char) { '0' <= c <= '9' }

  predicate AllDigits(s: string) { forall i :: 0 <= i < |s| ==> IsDigit(s[i]) }

  function DigitValue(c: char): nat
    requires IsDigit(c)
  {
    c as int - '0' as int
  }

  function DigitChar(d: nat): char
    requires d < 10
  {
    ('0' as int + d) as char
  }

  /** The number a run of digits denotes, leading zeros allowed; "" denotes 0. */
  function Value(s: string): nat
    requires AllDigits(s)
  {
    if s == "" then 0 else 10 * Value(s[..|s| - 1]) + DigitValue(s[|s| - 1])
  }

  /** The digits printf writes for a non-negative number. */
  function Text(n: nat): string
  {
    if n < 10 then [DigitChar(n)] else Text(n / 10) + [DigitChar(n % 10)]
  }

  function IntText(n: int): string
  {
    if n < 0 then "-" + Text(-n) else Text(n)
  }

  /** Printing then reading gives the number back, and the print has no needless zero. */
  lemma {:induction false} ReadPrinted(n: nat)
    ensures AllDigits(Text(n)) && Text(n) != ""
    ensures Value(Text(n)) == n
    ensures |Text(n)| > 1 ==> Text(n)[0] != '0'
  {
    if n < 10 {
      var s := Text(n);
      assert s[..|s| - 1] == "";
    } else {
      ReadPrinted(n / 10);
      var s := Text(n);
      assert s[..|s| - 1] == Text(n / 10);
      assert Text(n)[0] == Text(n / 10)[0];
      if |Text(n / 10)| == 1 {
        assert Text(n / 10) == [DigitChar(Value(Text(n / 10)))] by {
          assert Text(n / 10)[..0] == "";
        }
      }
    }
  }

  /** Only canonical text prints back to itself. */
  lemma {:induction false} PrintRead(s: string)
    requires AllDigits(s) && s != "" && (|s| > 1 ==> s[0] != '0')
    ensures Text(Value(s)) == s
    ensures |s| > 1 ==> Value(s) >= 10
  {
    var init := s[..|s| - 1];
    if |s| == 1 {
      assert init == "";
      assert Value(init) == 0;
    } else {
      if |init| > 1 {
        assert init[0] == s[0];
        PrintRead(init);
      } else {
        assert init == [s[0]];
        assert init[..0] == "";
        PrintRead(init);
      }
      assert Value(init) >= 1;
      assert s == init + [s[|s| - 1]];
    }
  }

  /** A number below 10^k prints with at most k digits. */
  lemma {:induction false} PrintedLength(n: nat, bound: nat, k: nat)
    requires k >= 1 && bound == Power10(k) && n < bound
    ensures |Text(n)| <= k
  {
    if n >= 10 {
      assert Power10(k) == 10 * Power10(k - 1);
      PrintedLength(n / 10, Power10(k - 1), k - 1);
    }
  }

  function Power10(k: nat): nat
  {
    if k == 0 then 1 else 10 * Power10(k - 1)
  }
}
