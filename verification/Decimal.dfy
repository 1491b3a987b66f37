/** Decimal numerals, as str() writes and int() reads them. */
module Decimal {

  predicate IsDigit(c: char) {
    '0' <= c <= '9'
  }

  predicate IsNumeral(s: string) {
    s != [] && forall i :: 0 <= i < |s| ==> IsDigit(s[i])
  }

  function DigitChar(d: nat): char
    requires d < 10
  {
    '0' + d as char
  }

  function DigitValue(c: char): nat
    requires IsDigit(c)
  {
    (c - '0') as nat
  }

  function Str(n: nat): (s: string)
    ensures IsNumeral(s)
  {
    if n < 10 then [DigitChar(n)] else Str(n / 10) + [DigitChar(n % 10)]
  }

  function Val(s: string): nat
    requires forall i :: 0 <= i < |s| ==> IsDigit(s[i])
  {
    if s == [] then 0 else 10 * Val(s[..|s| - 1]) + DigitValue(s[|s| - 1])
  }

  /** Reading a printed number gives the number back. */
  lemma {:induction false} ValStr(n: nat)
    ensures Val(Str(n)) == n
  {
    if n >= 10 {
      ValStr(n / 10);
      var s := Str(n);
      assert s[..|s| - 1] == Str(n / 10);
    }
  }

  lemma {:induction false} StrLength(a: nat, b: nat)
    requires a <= b
    ensures |Str(a)| <= |Str(b)|
  {
    if a >= 10 { StrLength(a / 10, b / 10); }
  }

  function Zeros(n: nat): (s: string)
    ensures |s| == n && forall i :: 0 <= i < n ==> s[i] == '0'
  {
    seq(n, _ => '0')
  }

  /** Padding with zeros on the left, as zfill does. */
  function ZFill(s: string, width: nat): string {
    if |s| < width then Zeros(width - |s|) + s else s
  }

  lemma {:induction false} ValZeros(n: nat, s: string)
    requires forall i :: 0 <= i < |s| ==> IsDigit(s[i])
    ensures Val(Zeros(n) + s) == Val(s)
  {
    if s == [] {
      assert Zeros(n) + s == Zeros(n);
      ValAllZeros(n);
    } else {
      assert (Zeros(n) + s)[..|Zeros(n) + s| - 1] == Zeros(n) + s[..|s| - 1];
      ValZeros(n, s[..|s| - 1]);
    }
  }

  lemma {:induction false} ValAllZeros(n: nat)
    ensures Val(Zeros(n)) == 0
  {
    if n > 0 {
      assert Zeros(n)[..n - 1] == Zeros(n - 1);
      ValAllZeros(n - 1);
    }
  }

  /** Zero-filling to a width that is not smaller keeps the value and gives that width. */
  lemma ZFillFacts(s: string, width: nat)
    requires IsNumeral(s) && |s| <= width
    ensures |ZFill(s, width)| == width && IsNumeral(ZFill(s, width))
    ensures Val(ZFill(s, width)) == Val(s)
  {
    ValZeros(width - |s|, s);
  }
}
