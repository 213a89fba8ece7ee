/** `itoa` (internal/procapi/procapi.go) over Go's 64-bit int, and the process ids built from it. */
module Decimal {

  const TWO_63: int := 0x8000_0000_0000_0000
  const TWO_64: int := 0x1_0000_0000_0000_0000

  /** The value a 64-bit counter holds after counting to `k`. */
  function Wrap(k: nat): (r: int)
    ensures -TWO_63 <= r < TWO_63
    ensures k < TWO_63 ==> r == k
  {
    if k < TWO_63 then k else if k < TWO_64 then k - TWO_64 else Wrap(k - TWO_64)
  }

  predicate IsDigit(c: char) {
    '0' <= c <= '9'
  }

  function DigitValue(c: char): (d: nat)
    requires IsDigit(c)
    ensures d < 10 && DigitOf(d) == c
  {
    c as int - '0' as int
  }

  function DigitOf(d: nat): (c: char)
    requires d < 10
    ensures IsDigit(c) && c as int == d + '0' as int
  {
    '0' + d as char
  }

  /** The digits of a positive number; nothing for zero and below, where the loop does not run. */
  function Digits(n: int): string
    decreases if n < 0 then 0 else n
  {
    if n <= 0 then "" else Digits(n / 10) + [DigitOf(n % 10)]
  }

  function ItoaSpec(n: int): string {
    if n == 0 then "0" else Digits(n)
  }

  /** The number a string of digits denotes. */
  function Parse(s: string): nat
    requires forall c :: c in s ==> IsDigit(c)
  {
    if s == "" then 0 else 10 * Parse(s[..|s| - 1]) + DigitValue(s[|s| - 1])
  }

  /** Digits only, at least one, and no leading zero except in "0" itself. */
  predicate Canonical(s: string) {
    && (forall c :: c in s ==> IsDigit(c))
    && s != ""
    && (s[0] == '0' ==> s == "0")
  }

  ghost function Pow10(e: nat): nat {
    if e == 0 then 1 else 10 * Pow10(e - 1)
  }

  /** Fills a 20-byte buffer from the right; no 64-bit value overruns it. Negative values give the empty string. */
  method Itoa(n: int) returns (s: string)
    requires -TWO_63 <= n < TWO_63
    ensures s == ItoaSpec(n)
  {
    if n == 0 {
      return "0";
    }
    var buf := new char[20];
    var i, m := buf.Length, n;
    assert TWO_63 < Pow10(19) by { Pow10Of19(); }
    while m > 0
      invariant 1 <= i <= 20
      invariant m < Pow10(i - 1)
      invariant Digits(n) == Digits(m) + buf[i..]
    {
      ghost var written := buf[i..];
      i := i - 1;
      buf[i] := DigitOf(m % 10);
      assert buf[i..] == [DigitOf(m % 10)] + written;
      assert Digits(m) + written == Digits(m / 10) + ([DigitOf(m % 10)] + written);
      m := m / 10;
    }
    s := buf[i..];
  }

  lemma Pow10Of19()
    ensures Pow10(19) == 10_000_000_000_000_000_000
  {
    assert Pow10(5) == 100_000;
    assert Pow10(10) == 10_000_000_000;
    assert Pow10(15) == 1_000_000_000_000_000;
  }

  lemma ParseSnoc(front: string, last: char)
    requires (forall c :: c in front ==> IsDigit(c)) && IsDigit(last)
    ensures forall c :: c in front + [last] ==> IsDigit(c)
    ensures Parse(front + [last]) == 10 * Parse(front) + DigitValue(last)
  {
    assert (front + [last])[..|front|] == front;
  }

  lemma {:induction false} DigitsParse(n: nat)
    ensures forall c :: c in Digits(n) ==> IsDigit(c)
    ensures Parse(Digits(n)) == n
    ensures n > 0 ==> Digits(n) != "" && Digits(n)[0] != '0'
  {
    if n > 0 {
      DigitsParse(n / 10);
      var front, last := Digits(n / 10), DigitOf(n % 10);
      ParseSnoc(front, last);
      if front != "" {
        assert Digits(n)[0] == front[0];
      }
    }
  }

  /** Round trip: every non-negative value is written canonically and reads back as itself. */
  lemma ItoaRoundTrip(n: nat)
    ensures Canonical(ItoaSpec(n)) && Parse(ItoaSpec(n)) == n
  {
    DigitsParse(n);
    if n == 0 {
      assert "0"[..0] == "";
    }
  }

  lemma {:induction false} CanonicalUnique(s: string)
    requires (forall c :: c in s ==> IsDigit(c)) && (s == "" || s[0] != '0')
    ensures Digits(Parse(s)) == s
    ensures s != "" ==> Parse(s) > 0
  {
    if s != "" {
      var front, d := s[..|s| - 1], DigitValue(s[|s| - 1]);
      CanonicalUnique(front);
      assert Parse(s) == 10 * Parse(front) + d;
      assert s == front + [s[|s| - 1]];
    }
  }

  /** And every canonical decimal is what `itoa` writes for its value, so `itoa` is a bijection onto them. */
  lemma ItoaOfParse(s: string)
    requires Canonical(s)
    ensures ItoaSpec(Parse(s)) == s
  {
    if s == "0" {
      assert "0"[..0] == "";
    } else {
      CanonicalUnique(s);
    }
  }

  // Process ids

  /** The id of the k-th process started, counting from 1. */
  function IdOf(k: nat): string {
    "p" + ItoaSpec(Wrap(k))
  }

  /** Two starts get the same id exactly when the 64-bit counter repeats or has gone negative both times. */
  lemma IdsCollide(i: nat, j: nat)
    ensures IdOf(i) == IdOf(j) <==> Wrap(i) == Wrap(j) || (Wrap(i) < 0 && Wrap(j) < 0)
  {
    var a, b := Wrap(i), Wrap(j);
    if IdOf(i) == IdOf(j) {
      assert ItoaSpec(a) == IdOf(i)[1..] && ItoaSpec(b) == IdOf(j)[1..];
    }
    if a >= 0 { ItoaRoundTrip(a); } else { assert ItoaSpec(a) == ""; }
    if b >= 0 { ItoaRoundTrip(b); } else { assert ItoaSpec(b) == ""; }
  }

  /** So the first 2^63 starts get distinct ids. */
  lemma IdsUnique(i: nat, j: nat)
    requires 1 <= i < j <= TWO_63
    ensures IdOf(i) != IdOf(j)
  {
    IdsCollide(i, j);
  }

  /** And that bound is tight: the start after those repeats an id. */
  lemma IdsRepeatAfterOverflow(k: nat)
    requires k == TWO_63
    ensures IdOf(k) == IdOf(k + 1) == "p"
  {
    assert Wrap(k) < 0 && Wrap(k + 1) < 0;
  }
}
