/** Decimal printing with zero padding, and `int()` of a digit string. */
module Decimals {

  function Digit(d: nat): char
    requires d < 10
  {
    "0123456789"[d]
  }

  predicate IsDigit(c: char) { '0' <= c <= '9' }

  predicate AllDigits(s: string) {
    forall i :: 0 <= i < |s| ==> IsDigit(s[i])
  }

  function DigitValue(c: char): nat
    requires IsDigit(c)
  {
    (c - '0') as nat
  }

  /** `str(n)` for a natural number. */
  function Decimal(n: nat): string {
    if n < 10 then [Digit(n)] else Decimal(n / 10) + [Digit(n % 10)]
  }

  function Zeros(k: nat): string {
    if k == 0 then "" else "0" + Zeros(k - 1)
  }

  /** `f"{n:0{width}d}"` */
  function Padded(n: nat, width: nat): string {
    Filled(Decimal(n), width)
  }

  /** `s` filled up with zeros on the left. */
  function Filled(s: string, width: nat): string {
    if |s| < width then Zeros(width - |s|) + s else s
  }

  /** `int(s)` of a string of digits. */
  function Parse(s: string): nat
    requires AllDigits(s)
  {
    if s == "" then 0 else Parse(s[..|s| - 1]) * 10 + DigitValue(s[|s| - 1])
  }

  lemma {:induction false} DecimalParses(n: nat)
    ensures AllDigits(Decimal(n)) && Decimal(n) != "" && Parse(Decimal(n)) == n
  {
    if n >= 10 {
      DecimalParses(n / 10);
      assert Decimal(n)[..|Decimal(n)| - 1] == Decimal(n / 10);
    }
  }

  lemma {:induction false} LeadingZeros(k: nat, s: string)
    requires AllDigits(s)
    ensures AllDigits(Zeros(k) + s) && Parse(Zeros(k) + s) == Parse(s) && |Zeros(k)| == k
  {
    if k == 0 {
      assert Zeros(0) + s == s;
    } else {
      LeadingZeros(k - 1, s);
      assert Zeros(k) + s == "0" + (Zeros(k - 1) + s);
      LeadingZero(Zeros(k - 1) + s);
    }
  }

  lemma {:induction false} LeadingZero(s: string)
    requires AllDigits(s)
    ensures AllDigits("0" + s) && Parse("0" + s) == Parse(s)
  {
    if s != "" {
      assert ("0" + s)[..|"0" + s| - 1] == "0" + s[..|s| - 1];
      LeadingZero(s[..|s| - 1]);
    }
  }

  /** Padded printing parses back, so it is injective. */
  lemma PaddedParses(n: nat, width: nat)
    ensures AllDigits(Padded(n, width)) && Parse(Padded(n, width)) == n
    ensures |Padded(n, width)| >= width
  {
    hide Decimal, Zeros, Parse, AllDigits;
    DecimalParses(n);
    if |Decimal(n)| < width {
      LeadingZeros(width - |Decimal(n)|, Decimal(n));
    }
  }

  lemma {:induction false} DecimalLength(n: nat, width: nat)
    requires width >= 1 && n < Pow10(width)
    ensures |Decimal(n)| <= width
  {
    if n >= 10 {
      assert width >= 2 by { assert Pow10(1) == 10; }
      DecimalLength(n / 10, width - 1);
    }
  }

  function Pow10(k: nat): nat {
    if k == 0 then 1 else 10 * Pow10(k - 1)
  }

  lemma PaddedLength(n: nat, width: nat)
    requires width >= 1 && n < Pow10(width)
    ensures |Padded(n, width)| == width
  {
    hide Decimal, Pow10, Zeros, Parse;
    DecimalLength(n, width);
    if |Decimal(n)| < width { LeadingZeros(width - |Decimal(n)|, ""); }
  }

  /** Printing what a full-width digit string parses to gives the string back. */
  lemma {:induction false} ParsePads(s: string)
    requires AllDigits(s) && s != ""
    ensures Parse(s) < Pow10(|s|) && Padded(Parse(s), |s|) == s
  {
    if |s| == 1 {
      assert s[..0] == "";
      assert Digit(DigitValue(s[0])) == s[0];
      assert Decimal(Parse(s)) == s;
      assert Pow10(1) == 10;
    } else {
      var init, d := s[..|s| - 1], DigitValue(s[|s| - 1]);
      ParsePads(init);
      var n := Parse(s);
      assert n / 10 == Parse(init) && n % 10 == d;
      assert Digit(d) == s[|s| - 1];
      PadShift(Parse(init), |init|, d);
      assert init + [s[|s| - 1]] == s;
    }
  }

  /** Appending a digit to a padded number. */
  lemma PadShift(m: nat, width: nat, d: nat)
    requires d < 10 && width >= 1 && m < Pow10(width)
    ensures Padded(m * 10 + d, width + 1) == Padded(m, width) + [Digit(d)]
  {
    hide Decimal, Pow10, Zeros, Digit;
    DecimalLength(m, width);
    if m == 0 {
      PadZero(width, d);
    } else {
      DecimalShift(m, d);
      PadGrows(Decimal(m), Digit(d), width);
    }
  }

  lemma PadGrows(s: string, c: char, width: nat)
    requires |s| <= width
    ensures Filled(s + [c], width + 1) == Filled(s, width) + [c]
  {
    hide Zeros;
    if |s| < width {
      assert Zeros(width - |s|) + (s + [c]) == (Zeros(width - |s|) + s) + [c];
    }
  }

  lemma DecimalShift(m: nat, d: nat)
    requires d < 10 && m > 0
    ensures Decimal(m * 10 + d) == Decimal(m) + [Digit(d)]
  {
    assert (m * 10 + d) / 10 == m && (m * 10 + d) % 10 == d;
  }

  lemma PadZero(width: nat, d: nat)
    requires d < 10 && width >= 1
    ensures Padded(d, width + 1) == Padded(0, width) + [Digit(d)]
  {
    assert Decimal(0) == "0" && Decimal(d) == [Digit(d)];
    ZerosEnd(width - 1);
    assert Padded(0, width) == Zeros(width) by {
      if width == 1 { assert Zeros(1) == "0" + Zeros(0); }
    }
  }

  lemma {:induction false} ZerosEnd(k: nat)
    ensures Zeros(k) + "0" == Zeros(k + 1)
  {
    if k > 0 {
      ZerosEnd(k - 1);
      assert Zeros(k) + "0" == "0" + (Zeros(k - 1) + "0");
    } else {
      assert Zeros(0) + "0" == "0" && Zeros(1) == "0" + Zeros(0);
    }
  }
}
