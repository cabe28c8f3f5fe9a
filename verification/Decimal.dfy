/** Decimal numbers as the PDF writer prints them and as a reader takes them back. */
module Decimal {

  predicate IsDigit(c: char) {
    '0' <= c <= '9'
  }

  predicate AllDigits(s: string) {
    forall i | 0 <= i < |s| :: IsDigit(s[i])
  }

  function DigitChar(d: nat): (c: char)
    requires d < 10
    ensures IsDigit(c) && c as int - '0' as int == d
  {
    ('0' as int + d) as char
  }

  /** `str(n)`. */
  function Digits(n: nat): (s: string)
    ensures s != "" && AllDigits(s)
  {
    if n < 10 then [DigitChar(n)] else Digits(n / 10) + [DigitChar(n % 10)]
  }

  function Power10(k: nat): (p: nat)
    ensures p >= 1
  {
    if k == 0 then 1 else 10 * Power10(k - 1)
  }

  function Zeros(k: nat): (s: string)
    ensures |s| == k && AllDigits(s)
  {
    if k == 0 then "" else Zeros(k - 1) + "0"
  }

  /** `f"{n:0{width}d}"`: at least `width` digits. */
  function Padded(n: nat, width: nat): (s: string)
    ensures AllDigits(s)
  {
    var s := Digits(n);
    if |s| < width then Zeros(width - |s|) + s else s
  }

  /** The number that digits stand for. */
  function Number(s: string): nat
    requires AllDigits(s)
  {
    if s == "" then 0
    else
      assert IsDigit(s[|s| - 1]);
      10 * Number(s[..|s| - 1]) + (s[|s| - 1] as int - '0' as int)
  }

  lemma {:induction false} NumberOfDigits(n: nat)
    ensures Number(Digits(n)) == n
  {
    if n < 10 {
      assert Digits(n)[..0] == "";
    } else {
      NumberOfDigits(n / 10);
      assert Digits(n)[..|Digits(n)| - 1] == Digits(n / 10);
    }
  }

  lemma {:induction false} NumberAfterZeros(k: nat, s: string)
    requires AllDigits(s)
    ensures AllDigits(Zeros(k) + s) && Number(Zeros(k) + s) == Number(s)
  {
    if s == "" {
      assert Zeros(k) + s == Zeros(k);
      ZerosAreZero(k);
    } else {
      var front := s[..|s| - 1];
      NumberAfterZeros(k, front);
      assert (Zeros(k) + s)[..k + |s| - 1] == Zeros(k) + front;
    }
  }

  lemma {:induction false} ZerosAreZero(k: nat)
    ensures Number(Zeros(k)) == 0
  {
    if k > 0 {
      ZerosAreZero(k - 1);
      assert Zeros(k)[..k - 1] == Zeros(k - 1);
    }
  }

  lemma {:induction false} DigitsWidth(n: nat, width: nat)
    requires width >= 1
    ensures |Digits(n)| <= width <==> n < Power10(width)
  {
    if width == 1 {
      assert Power10(1) == 10 * Power10(0);
    } else if n >= 10 {
      DigitsWidth(n / 10, width - 1);
    }
  }

  /** A padded number reads back. */
  lemma PaddedReadsBack(n: nat, width: nat)
    ensures Number(Padded(n, width)) == n
  {
    NumberOfDigits(n);
    if |Digits(n)| < width {
      NumberAfterZeros(width - |Digits(n)|, Digits(n));
    }
  }

  /** A padded number takes exactly its width while it fits. */
  lemma PaddedFits(n: nat, width: nat)
    requires width >= 1
    ensures |Padded(n, width)| == width <==> n < Power10(width)
  {
    DigitsWidth(n, width);
  }
}
