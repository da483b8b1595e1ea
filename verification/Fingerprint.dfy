/** The text a request's fingerprint hashes, "%d:%d:%d:%s", names one request only. */
module Fingerprint {
  import opened Schema

  /** transferRequest: the body of POST /transfers. */
  datatype TransferRequest = TransferRequest(from: Int64, to: Int64, amount: Int64, currency: string)

  function Digit(d: int): char
    requires 0 <= d < 10
  {
    ['0', '1', '2', '3', '4', '5', '6', '7', '8', '9'][d]
  }

  function Digits(n: nat): string {
    if n < 10 then [Digit(n)] else Digits(n / 10) + [Digit(n % 10)]
  }

  /** The verb %d. */
  function Decimal(n: int): string {
    if n < 0 then "-" + Digits(-n) else Digits(n)
  }

  function FingerprintText(r: TransferRequest): string {
    Decimal(r.from) + ":" + (Decimal(r.to) + ":" + (Decimal(r.amount) + ":" + r.currency))
  }

  /** requestFingerprint, over a collision-free hash. */
  function FingerprintOf(r: TransferRequest): Digest {
    Sha256(FingerprintText(r))
  }

  lemma {:induction false} DigitsAreDigits(n: nat)
    ensures Digits(n) != [] && forall i :: 0 <= i < |Digits(n)| ==> '0' <= Digits(n)[i] <= '9'
  {
    if n >= 10 {
      DigitsAreDigits(n / 10);
    }
  }

  lemma {:induction false} DigitsInjective(m: nat, n: nat)
    requires Digits(m) == Digits(n)
    ensures m == n
  {
    var s := Digits(m);
    assert s[|s| - 1] == Digit(m % 10) && s[|s| - 1] == Digit(n % 10);
    if m >= 10 {
      DigitsAreDigits(m / 10);
    }
    if n >= 10 {
      DigitsAreDigits(n / 10);
    }
    if m >= 10 && n >= 10 {
      assert s[..|s| - 1] == Digits(m / 10) && s[..|s| - 1] == Digits(n / 10);
      DigitsInjective(m / 10, n / 10);
    }
  }

  predicate AllDigits(s: string) {
    forall i :: 0 <= i < |s| ==> '0' <= s[i] <= '9'
  }

  /** The number a decimal numeral stands for. */
  function Value(s: string): int
    requires AllDigits(s)
  {
    if s == [] then 0 else Value(s[..|s| - 1]) * 10 + (s[|s| - 1] as int - '0' as int)
  }

  /** The digits of a number stand for it, and do not begin with a needless zero. */
  lemma {:induction false} DigitsDenote(n: nat)
    ensures AllDigits(Digits(n)) && Value(Digits(n)) == n
    ensures Digits(n) != [] && (Digits(n)[0] == '0' <==> n == 0)
  {
    DigitsAreDigits(n);
    if n >= 10 {
      DigitsAreDigits(n / 10);
      DigitsDenote(n / 10);
      assert Digits(n)[..|Digits(n)| - 1] == Digits(n / 10);
    }
  }

  lemma SignShows(n: int)
    ensures Decimal(n) != [] && (Decimal(n)[0] == '-' <==> n < 0)
  {
    DigitsAreDigits(if n < 0 then -n else n);
  }

  lemma DecimalInjective(m: int, n: int)
    requires Decimal(m) == Decimal(n)
    ensures m == n
  {
    SignShows(m);
    SignShows(n);
    if m < 0 {
      assert Decimal(m)[1..] == Digits(-m) && Decimal(n)[1..] == Digits(-n);
      DigitsInjective(-m, -n);
    } else {
      DigitsInjective(m, n);
    }
  }

  lemma DecimalHasNoColon(n: int)
    ensures ':' !in Decimal(n)
  {
    DigitsAreDigits(if n < 0 then -n else n);
  }

  /** A text splits at its first colon in one way. */
  lemma FirstColon(x: string, u: string, y: string, v: string)
    requires ':' !in x && ':' !in y
    requires x + ":" + u == y + ":" + v
    ensures x == y && u == v
  {
    var s := x + ":" + u;
    assert s[|x|] == ':' && s[|y|] == ':';
    assert forall i :: 0 <= i < |x| ==> s[i] == x[i];
    assert forall i :: 0 <= i < |y| ==> s[i] == y[i];
    assert |x| == |y|;
    assert x == s[..|x|] && y == s[..|y|];
    assert u == s[|x| + 1..] && v == s[|y| + 1..];
  }

  /** Two requests have the same text only if all four fields are equal, for all 64-bit values
      and any currency, colons included. */
  lemma FingerprintTextInjective(q: TransferRequest, r: TransferRequest)
    requires FingerprintText(q) == FingerprintText(r)
    ensures q == r
  {
    DecimalHasNoColon(q.from);
    DecimalHasNoColon(r.from);
    DecimalHasNoColon(q.to);
    DecimalHasNoColon(r.to);
    DecimalHasNoColon(q.amount);
    DecimalHasNoColon(r.amount);
    var q2, r2 := Decimal(q.amount) + ":" + q.currency, Decimal(r.amount) + ":" + r.currency;
    var q1, r1 := Decimal(q.to) + ":" + q2, Decimal(r.to) + ":" + r2;
    FirstColon(Decimal(q.from), q1, Decimal(r.from), r1);
    FirstColon(Decimal(q.to), q2, Decimal(r.to), r2);
    FirstColon(Decimal(q.amount), q.currency, Decimal(r.amount), r.currency);
    DecimalInjective(q.from, r.from);
    DecimalInjective(q.to, r.to);
    DecimalInjective(q.amount, r.amount);
  }

  /** Equal stored hashes mean equal requests. */
  lemma SameHashSameRequest(q: TransferRequest, r: TransferRequest)
    ensures FingerprintOf(q) == FingerprintOf(r) <==> q == r
  {
    if FingerprintOf(q) == FingerprintOf(r) {
      FingerprintTextInjective(q, r);
    }
  }
}
