/**
 Identifier generation. The source builds an id from the current time and a
 random number; the model draws ids from a counter instead and renders it in
 decimal. What the store relies on is kept: an id is never empty and is never
 handed out twice.
 */
module Ids {
  import opened JsCore

  predicate IsDigit(c: char)
  {
    '0' <= c <= '9'
  }

  function Digit(d: nat): (c: char)
    requires d < 10
    ensures IsDigit(c)
  {
    ('0' as int + d) as char
  }

  function DigitValue(c: char): (d: nat)
    requires IsDigit(c)
    ensures d < 10 && Digit(d) == c
  {
    c as int - '0' as int
  }

  predicate AllDigits(s: string)
  {
    forall i :: 0 <= i < |s| ==> IsDigit(s[i])
  }

  /** The decimal rendering of `n`, most significant digit first. */
  function DecimalDigits(n: nat): (s: string)
    ensures |s| >= 1 && AllDigits(s)
    ensures n >= 10 ==> |s| >= 2
  {
    if n < 10 then [Digit(n)] else DecimalDigits(n / 10) + [Digit(n % 10)]
  }

  /** Reads a string of decimal digits back as a number. */
  function ParseDecimal(s: string): nat
    requires AllDigits(s)
  {
    if s == [] then 0 else 10 * ParseDecimal(s[..|s| - 1]) + DigitValue(s[|s| - 1])
  }

  /** Parsing undoes rendering, so the rendering is injective. */
  lemma {:induction false} ParseDecimalDigits(n: nat)
    ensures ParseDecimal(DecimalDigits(n)) == n
  {
    var s := DecimalDigits(n);
    if n < 10 {
      assert s[..|s| - 1] == [];
    } else {
      assert s[..|s| - 1] == DecimalDigits(n / 10);
      ParseDecimalDigits(n / 10);
    }
  }

  /** The id that the `n`-th call of the generator returns. */
  function IdOf(n: nat): Id
  {
    DecimalDigits(n)
  }

  /** `k` is one of the ids handed out before the counter reached `bound`. */
  predicate IssuedBefore(k: Id, bound: nat)
  {
    |k| > 0 && AllDigits(k) && ParseDecimal(k) < bound
  }

  /** The `n`-th id is non-empty, was not handed out before step `n`, and has been after it. */
  lemma IdOfFresh(n: nat)
    ensures IdOf(n) != ""
    ensures !IssuedBefore(IdOf(n), n)
    ensures IssuedBefore(IdOf(n), n + 1)
  {
    ParseDecimalDigits(n);
  }

  lemma IdOfInjective(m: nat, n: nat)
    ensures IdOf(m) == IdOf(n) ==> m == n
  {
    ParseDecimalDigits(m);
    ParseDecimalDigits(n);
  }

  /** An id drawn at step `m` or later was not issued before step `bound`. */
  lemma IdOfNotIssued(m: nat, bound: nat)
    requires bound <= m
    ensures !IssuedBefore(IdOf(m), bound)
  {
    ParseDecimalDigits(m);
  }

  /** An id drawn before step `bound` counts as issued before `bound`. */
  lemma IdOfIssued(m: nat, bound: nat)
    requires m < bound
    ensures IssuedBefore(IdOf(m), bound)
  {
    ParseDecimalDigits(m);
  }
}
