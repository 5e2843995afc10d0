/// Shared vocabulary: optional values and results.
module Common {
  datatype Option<+T> = None | Some(value: T)

  datatype Result<+T, +E> = Ok(value: T) | Err(error: E)

  /// A number as a check with `Number.isInteger` sees it: an integer, or a fraction, an infinity or NaN.
  datatype Number = Whole(n: int) | NotWhole

  function Max(a: int, b: int): int {
    if a < b then b else a
  }

  function Min(a: int, b: int): int {
    if a < b then a else b
  }

  /// Upper case of ASCII letters.
  function Upper(s: string): string {
    seq(|s|, i requires 0 <= i < |s| =>
      if 'a' <= s[i] <= 'z' then (s[i] as int - 'a' as int + 'A' as int) as char else s[i])
  }

  lemma UpperIs(s: string)
    ensures |Upper(s)| == |s|
    ensures forall i | 0 <= i < |s| :: Upper(s)[i] as int == s[i] as int - if 'a' <= s[i] <= 'z' then 32 else 0
  {
  }

  /// A number above all those in use.
  lemma {:induction false} UnusedNumber(used: set<nat>) returns (n: nat)
    ensures n !in used && forall m | m in used :: m < n
    decreases |used|
  {
    if used == {} {
      n := 0;
    } else {
      var m :| m in used;
      var above := UnusedNumber(used - {m});
      n := if m < above then above else m + 1;
      assert forall k | k in used :: k == m || k in used - {m};
    }
  }
}
