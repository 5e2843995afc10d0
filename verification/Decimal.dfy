/// Decimal numerals, as `String(n)` and `Number(s)` treat non-negative integers.
module Decimal {
  import opened Common

  predicate IsDigit(c: char) {
    '0' <= c <= '9'
  }

  function Digit(d: nat): (c: char)
    requires d < 10
    ensures IsDigit(c)
  {
    ('0' as int + d) as char
  }

  function DigitValue(c: char): (d: nat)
    requires IsDigit(c)
    ensures d < 10 && Digit(d) == c
  {
    c as int - '0' as int
  }

  predicate AllDigits(s: string) {
    forall i | 0 <= i < |s| :: IsDigit(s[i])
  }

  function Show(n: nat): (s: string)
    ensures |s| >= 1 && AllDigits(s)
  {
    if n < 10 then [Digit(n)] else Show(n / 10) + [Digit(n % 10)]
  }

  function Read(s: string): nat
    requires AllDigits(s)
  {
    if s == [] then 0 else 10 * Read(s[..|s| - 1]) + DigitValue(s[|s| - 1])
  }

  lemma {:induction false} ReadShow(n: nat)
    ensures Read(Show(n)) == n
  {
    if n < 10 {
      assert Show(n)[..0] == [];
    } else {
      ReadShow(n / 10);
      assert Show(n)[..|Show(n)| - 1] == Show(n / 10);
    }
  }

  lemma ShowInjective(m: nat, n: nat)
    ensures Show(m) == Show(n) ==> m == n
  {
    ReadShow(m);
    ReadShow(n);
  }

  lemma FirstSeparator(a: string, b: string, sep: char, s: string)
    requires sep !in a && s == a + [sep] + b
    ensures |a| < |s| && s[|a|] == sep && forall i | 0 <= i < |a| :: s[i] != sep
    ensures a == s[..|a|] && b == s[|a| + 1..]
  {
    assert forall i | 0 <= i < |a| :: s[i] == a[i];
  }

  /// Cutting at a separator that the heads do not contain is unambiguous.
  lemma CutUnique(a: string, b: string, c: string, d: string, sep: char)
    requires sep !in a && sep !in c && a + [sep] + b == c + [sep] + d
    ensures a == c && b == d
  {
    FirstSeparator(a, b, sep, a + [sep] + b);
    FirstSeparator(c, d, sep, a + [sep] + b);
  }

  lemma LastSeparator(a: string, b: string, sep: char, s: string)
    requires sep !in b && s == a + [sep] + b
    ensures |a| < |s| && s[|a|] == sep && forall i | |a| < i < |s| :: s[i] != sep
    ensures a == s[..|a|] && b == s[|a| + 1..]
  {
    assert forall i | |a| < i < |s| :: s[i] == b[i - |a| - 1];
  }

  /// Cutting at the last separator, when the tails do not contain it.
  lemma CutUniqueAtEnd(a: string, b: string, c: string, d: string, sep: char)
    requires sep !in b && sep !in d && a + [sep] + b == c + [sep] + d
    ensures a == c && b == d
  {
    LastSeparator(a, b, sep, a + [sep] + b);
    LastSeparator(c, d, sep, a + [sep] + b);
  }
}
