/** Decimal numerals: reading, printing and zero padding. */
module Decimal {

  predicate IsDigit(c: char) { '0' <= c <= '9' }

  /** str.isdigit() on ASCII text. */
  predicate IsNumber(s: string) { s != "" && forall i :: 0 <= i < |s| ==> IsDigit(s[i]) }

  function DigitValue(c: char): (d: nat)
    requires IsDigit(c)
  {
    c as int - '0' as int
  }

  function ValueOf(s: string): (n: nat)
    requires forall i :: 0 <= i < |s| ==> IsDigit(s[i])
  {
    if s == "" then 0 else 10 * ValueOf(s[..|s| - 1]) + DigitValue(s[|s| - 1])
  }

  function Digit(d: nat): (c: char)
    requires d < 10
    ensures IsDigit(c) && DigitValue(c) == d
  {
    ('0' as int + d) as char
  }

  function Digits(n: nat): (s: string)
    ensures IsNumber(s)
  {
    if n < 10 then [Digit(n)] else Digits(n / 10) + [Digit(n % 10)]
  }

  lemma {:induction false} ReadingInvertsPrinting(n: nat)
    ensures ValueOf(Digits(n)) == n
  {
    if n >= 10 {
      ReadingInvertsPrinting(n / 10);
      assert Digits(n)[..|Digits(n)| - 1] == Digits(n / 10);
    }
  }

  /** The last digit counts once, what is before it ten times. */
  lemma ReadsPositionally(s: string, c: char)
    requires (forall i :: 0 <= i < |s| ==> IsDigit(s[i])) && c in "0123456789"
    ensures forall i :: 0 <= i < |s + [c]| ==> IsDigit((s + [c])[i])
    ensures ValueOf(s + [c]) == 10 * ValueOf(s) + (c as int - 48)
  {
    var k :| 0 <= k < 10 && "0123456789"[k] == c;
    assert (s + [c])[..|s|] == s;
  }

  lemma {:induction false} NoLeadingZero(n: nat)
    ensures n > 0 ==> Digits(n)[0] != '0'
    ensures n == 0 ==> Digits(n) == "0"
  {
    if n >= 10 { NoLeadingZero(n / 10); }
  }

  /** f"{n:0{width}d}" */
  function Padded(n: nat, width: nat): (s: string)
    ensures IsNumber(s) && |s| >= width
  {
    Zeros(width - |Digits(n)|) + Digits(n)
  }

  function Zeros(k: int): (s: string)
    ensures |s| == (if k > 0 then k else 0) && forall i :: 0 <= i < |s| ==> s[i] == '0'
  {
    seq(if k > 0 then k else 0, i => '0')
  }

  lemma {:induction false} LeadingZeros(z: string, s: string)
    requires forall i :: 0 <= i < |z| ==> z[i] == '0'
    requires forall i :: 0 <= i < |s| ==> IsDigit(s[i])
    ensures ValueOf(z + s) == ValueOf(s)
    decreases |z| + |s|
  {
    if s != "" {
      LeadingZeros(z, s[..|s| - 1]);
      assert (z + s)[..|z + s| - 1] == z + s[..|s| - 1];
    } else if z != "" {
      LeadingZeros(z[..|z| - 1], "");
      assert z + s == z && z[..|z| - 1] + "" == z[..|z| - 1];
    }
  }

  /** A padded number reads as the number, is at least as wide as asked, and wider only when its own digits are. */
  lemma PaddedReads(n: nat, width: nat)
    ensures ValueOf(Padded(n, width)) == n && |Padded(n, width)| >= width
    ensures |Padded(n, width)| > width && |Padded(n, width)| > 1 ==> Padded(n, width)[0] != '0'
  {
    ReadingInvertsPrinting(n);
    LeadingZeros(Zeros(width - |Digits(n)|), Digits(n));
    NoLeadingZero(n);
  }

  /** Padding never makes two numbers look alike. */
  lemma PaddedIsInjective(a: nat, b: nat, width: nat)
    ensures Padded(a, width) == Padded(b, width) <==> a == b
  {
    ReadingInvertsPrinting(a);
    ReadingInvertsPrinting(b);
    LeadingZeros(Zeros(width - |Digits(a)|), Digits(a));
    LeadingZeros(Zeros(width - |Digits(b)|), Digits(b));
  }
}
