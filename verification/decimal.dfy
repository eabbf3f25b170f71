/**
  Decimal text of non-negative integers, as Python's `str()` writes a
  variable's offset, together with a reader for the same text.
 */
module Decimal {
  import opened Wrappers

  predicate IsDigit(c: char) {
    '0' <= c <= '9'
  }

  predicate AllDigits(s: string) {
    forall i :: 0 <= i < |s| ==> IsDigit(s[i])
  }

  /** Text `str()` can produce for a non-negative int: digits, no leading zero but in "0". */
  predicate IsCanonical(s: string) {
    |s| >= 1 && AllDigits(s) && (s[0] == '0' ==> |s| == 1)
  }

  function DigitChar(d: nat): char
    requires d < 10
  {
    ('0' as int + d) as char
  }

  function DigitValue(c: char): nat
    requires IsDigit(c)
  {
    c as int - '0' as int
  }

  /** `str(n)` for a non-negative `n`. */
  function Show(n: nat): (s: string)
    ensures |s| >= 1 && AllDigits(s)
    ensures n > 0 ==> s[0] != '0'
    decreases n
  {
    if n < 10 then [DigitChar(n)] else Show(n / 10) + [DigitChar(n % 10)]
  }

  /** The number a string of digits denotes. */
  function Value(s: string): nat
    requires AllDigits(s)
    decreases |s|
  {
    if s == [] then 0 else Value(s[..|s| - 1]) * 10 + DigitValue(s[|s| - 1])
  }

  /** Reads canonical decimal text back; anything else is rejected. */
  function Read(s: string): Option<nat> {
    if IsCanonical(s) then Some(Value(s)) else None
  }

  lemma {:induction false} ValueOfShow(n: nat)
    ensures Value(Show(n)) == n
    decreases n
  {
    if n >= 10 {
      var s := Show(n);
      assert s[..|s| - 1] == Show(n / 10);
      ValueOfShow(n / 10);
    }
  }

  lemma {:induction false} ValuePositive(s: string)
    requires |s| >= 1 && AllDigits(s) && s[0] != '0'
    ensures Value(s) > 0
    decreases |s|
  {
    if |s| > 1 {
      ValuePositive(s[..|s| - 1]);
    }
  }

  lemma {:induction false} ShowOfValue(s: string)
    requires IsCanonical(s)
    ensures Show(Value(s)) == s
    decreases |s|
  {
    var init := s[..|s| - 1];
    var d := DigitValue(s[|s| - 1]);
    if |s| == 1 {
      assert init == [];
      assert DigitChar(d) == s[0];
    } else {
      assert IsCanonical(init);
      ValuePositive(init);
      ShowOfValue(init);
      var n := Value(s);
      assert n / 10 == Value(init) && n % 10 == d;
      assert DigitChar(d) == s[|s| - 1];
      assert s == init + [s[|s| - 1]];
    }
  }

  /** Writing a number and reading it back gives the number. */
  lemma ReadShow(n: nat)
    ensures Read(Show(n)) == Some(n)
  {
    ValueOfShow(n);
  }

  /** Only the text `Show` writes is read as a number. */
  lemma ShowRead(s: string, n: nat)
    requires Read(s) == Some(n)
    ensures Show(n) == s
  {
    ShowOfValue(s);
  }

  /** Distinct offsets are written differently. */
  lemma ShowInjective(m: nat, n: nat)
    ensures Show(m) == Show(n) ==> m == n
  {
    ValueOfShow(m);
    ValueOfShow(n);
  }
}
