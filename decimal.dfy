/**
 * Decimal rendering of natural numbers: Python's `str(n)` for the port
 * numbers that the watcher prints, and the zero padding that `strftime`
 * applies to date and time fields. `ParseNat` reads a digit string back.
 */
module Decimal {
  import opened Options

  predicate IsDigit(c: char) {
    '0' <= c <= '9'
  }

  predicate AllDigits(s: string) {
    forall i :: 0 <= i < |s| ==> IsDigit(s[i])
  }

  function DigitChar(d: nat): (c: char)
    requires d < 10
    ensures IsDigit(c) && c as int - '0' as int == d
  {
    (d + '0' as int) as char
  }

  /** The canonical decimal form of `n`: at least one digit and no leading zero. */
  function Digits(n: nat): (s: string)
    ensures |s| >= 1 && AllDigits(s)
    ensures |s| > 1 ==> s[0] != '0'
    decreases n
  {
    if n < 10 then [DigitChar(n)] else Digits(n / 10) + [DigitChar(n % 10)]
  }

  /** The number a string of digits denotes (leading zeros allowed). */
  function Value(s: string): nat
    requires AllDigits(s)
  {
    if s == [] then 0 else Value(s[..|s| - 1]) * 10 + (s[|s| - 1] as int - '0' as int)
  }

  /** Reads a non-empty digit string; anything else is rejected. */
  function ParseNat(s: string): (r: Option<nat>)
    ensures r.Some? <==> |s| > 0 && AllDigits(s)
  {
    if |s| > 0 && AllDigits(s) then Some(Value(s)) else None
  }

  function Zeros(k: nat): (s: string)
    ensures |s| == k && forall i :: 0 <= i < k ==> s[i] == '0'
  {
    if k == 0 then [] else Zeros(k - 1) + ['0']
  }

  /** `Digits(n)` padded on the left with zeros to at least `width` characters. */
  function ZeroPad(n: nat, width: nat): (s: string)
    ensures AllDigits(s)
    ensures |s| == if |Digits(n)| < width then width else |Digits(n)|
  {
    var d := Digits(n);
    var z := Zeros(if |d| < width then width - |d| else 0);
    assert AllDigits(z + d) by {
      forall i | 0 <= i < |z + d| ensures IsDigit((z + d)[i]) {
        if i >= |z| { assert (z + d)[i] == d[i - |z|]; }
      }
    }
    z + d
  }

  /** Powers of ten; the bound is a solver aid for the division lemmas. */
  function Pow10(k: nat): (p: nat)
    ensures p >= 1
  {
    if k == 0 then 1 else 10 * Pow10(k - 1)
  }

  /** Reading back the decimal form of `n` gives `n`. */
  lemma {:induction false} ValueOfDigits(n: nat)
    ensures Value(Digits(n)) == n
    decreases n
  {
    var s := Digits(n);
    if n < 10 {
      assert s[..0] == [];
    } else {
      ValueOfDigits(n / 10);
      assert s[..|s| - 1] == Digits(n / 10);
    }
  }

  lemma ParseDigits(n: nat)
    ensures ParseNat(Digits(n)) == Some(n)
  {
    ValueOfDigits(n);
  }

  /** Leading zeros do not change the value of a digit string. */
  lemma {:induction false} ValueOfZerosThen(k: nat, s: string)
    requires AllDigits(s)
    ensures AllDigits(Zeros(k) + s) && Value(Zeros(k) + s) == Value(s)
    decreases |s|, k
  {
    var z := Zeros(k);
    assert AllDigits(z + s) by {
      forall i | 0 <= i < |z + s| ensures IsDigit((z + s)[i]) {
        if i >= |z| { assert (z + s)[i] == s[i - |z|]; }
      }
    }
    if s == [] {
      assert z + s == z;
      if k > 0 {
        ValueOfZerosThen(k - 1, []);
        assert z[..|z| - 1] == Zeros(k - 1) + [];
      }
    } else {
      var init := s[..|s| - 1];
      assert (z + s)[..|z + s| - 1] == z + init;
      ValueOfZerosThen(k, init);
    }
  }

  /** A number below 10^w has at most w digits. */
  lemma {:induction false} DigitsFit(n: nat, w: nat)
    requires 1 <= w && n < Pow10(w)
    ensures |Digits(n)| <= w
    decreases w
  {
    if n >= 10 {
      assert w > 1;
      DigitsFit(n / 10, w - 1);
    }
  }

  /** A zero-padded number below 10^w is exactly w characters wide and reads back as itself. */
  lemma ZeroPadRoundTrip(n: nat, w: nat)
    requires 1 <= w && n < Pow10(w)
    ensures |ZeroPad(n, w)| == w
    ensures ParseNat(ZeroPad(n, w)) == Some(n)
  {
    DigitsFit(n, w);
    ValueOfDigits(n);
    ValueOfZerosThen(w - |Digits(n)|, Digits(n));
  }

  /** A character that is not a digit never occurs in a rendered number. */
  lemma NotInDigits(n: nat, c: char)
    requires !IsDigit(c)
    ensures c !in Digits(n)
  {
  }
}
