/** Python's `'%d' % n` for a natural number, the way the core spells fresh
    names (`hint0`, `hint1`, ... and `temp_0`, `temp_1`, ...), together with
    its inverse. The inverse exists only to prove that different counters
    give different names. */
module Decimal {

  predicate IsDigit(c: char) {
    '0' <= c <= '9'
  }

  predicate AllDigits(s: string) {
    forall i :: 0 <= i < |s| ==> IsDigit(s[i])
  }

  function DigitChar(d: nat): (c: char)
    requires d < 10
    ensures IsDigit(c)
  {
    (48 + d) as char
  }

  function DigitValue(c: char): (d: nat)
    requires IsDigit(c)
    ensures d < 10
  {
    (c as int) - 48
  }

  /** The decimal spelling of `n`, most significant digit first, no sign. */
  function Show(n: nat): (s: string)
    ensures |s| > 0
    ensures AllDigits(s)
  {
    if n < 10 then [DigitChar(n)] else Show(n / 10) + [DigitChar(n % 10)]
  }

  /** Reads a digit string back as a number. */
  function Parse(s: string): nat
    requires AllDigits(s)
  {
    if |s| == 0 then 0 else Parse(s[..|s| - 1]) * 10 + DigitValue(s[|s| - 1])
  }

  /** Reading back what `Show` printed gives the number again. */
  lemma {:induction false} ParseShow(n: nat)
    ensures Parse(Show(n)) == n
  {
    if n >= 10 {
      var s := Show(n);
      assert s[..|s| - 1] == Show(n / 10);
      ParseShow(n / 10);
    }
  }

  /** Different numbers are printed differently. */
  lemma ShowInjective(m: nat, n: nat)
    ensures Show(m) == Show(n) ==> m == n
  {
    ParseShow(m);
    ParseShow(n);
  }

  /** A fixed prefix followed by a number determines the number. */
  lemma SuffixInjective(prefix: string, m: nat, n: nat)
    ensures prefix + Show(m) == prefix + Show(n) ==> m == n
  {
    if prefix + Show(m) == prefix + Show(n) {
      assert Show(m) == (prefix + Show(m))[|prefix|..];
      assert Show(n) == (prefix + Show(n))[|prefix|..];
      ShowInjective(m, n);
    }
  }
}
