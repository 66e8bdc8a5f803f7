/** Whole numbers in decimal, as strconv.Atoi reads them on a 64-bit machine. */
module Decimal {
  import opened Wrappers

  predicate IsDigit(c: char) { '0' <= c <= '9' }

  predicate AllDigits(s: string) { forall i | 0 <= i < |s| :: IsDigit(s[i]) }

  function Value(s: string): nat
    requires AllDigits(s)
  {
    if s == "" then 0 else 10 * Value(s[..|s| - 1]) + (s[|s| - 1] - '0') as nat
  }

  const MAX_INT := 0x7FFF_FFFF_FFFF_FFFF

  /** strconv.Atoi: an optional sign and digits, within 64 bits. */
  function Atoi(s: string): Option<int> {
    var digits := if s != "" && (s[0] == '-' || s[0] == '+') then s[1..] else s;
    if digits == "" || !AllDigits(digits) then None
    else
      var v: int := Value(digits);
      var n := if s[0] == '-' then -v else v;
      if -MAX_INT - 1 <= n <= MAX_INT then Some(n) else None
  }

  /** The decimal digits of a number. */
  function Digits(n: nat): (s: string)
    ensures s != "" && AllDigits(s)
    decreases n
  {
    if n < 10 then [DigitOf(n)] else Digits(n / 10) + [DigitOf(n % 10)]
  }

  function DigitOf(d: nat): (c: char)
    requires d < 10
    ensures IsDigit(c) && (c - '0') as nat == d
  {
    '0' + d as char
  }

  function Zeros(k: nat): string { seq(k, _ => '0') }

  lemma {:induction false} ValueOfZeros(k: nat)
    ensures AllDigits(Zeros(k)) && Value(Zeros(k)) == 0
  {
    if k > 0 {
      ValueOfZeros(k - 1);
      assert Zeros(k)[..k - 1] == Zeros(k - 1);
    }
  }

  /** Digits read back as the number they write, whatever zeros stand before them. */
  lemma {:induction false} ValueOfDigits(k: nat, n: nat)
    ensures AllDigits(Zeros(k) + Digits(n)) && Value(Zeros(k) + Digits(n)) == n
    decreases n
  {
    var s := Zeros(k) + Digits(n);
    if n < 10 {
      assert s[..|s| - 1] == Zeros(k);
      ValueOfZeros(k);
    } else {
      assert s[..|s| - 1] == Zeros(k) + Digits(n / 10);
      ValueOfDigits(k, n / 10);
    }
  }

  /** So Atoi reads a written number back, exactly when it fits. */
  lemma AtoiOfDigits(k: nat, n: nat)
    ensures Atoi(Zeros(k) + Digits(n)) == if n <= MAX_INT then Some(n) else None
  {
    ValueOfDigits(k, n);
    var s := Zeros(k) + Digits(n);
    assert IsDigit(s[0]);
  }
}
