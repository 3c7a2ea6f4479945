/** What several modules share. */
module Common {

  /** Go's (value, ok) and (value, error) results. */
  datatype Option<+T> = None | Some(value: T)

  /** Go's white space, what strings.TrimSpace removes. */
  predicate IsSpace(c: char) {
    var n := c as int;
    9 <= n <= 13 || 0x2000 <= n <= 0x200a || n in {0x20, 0x85, 0xa0, 0x1680, 0x2028, 0x2029, 0x202f, 0x205f, 0x3000}
  }

  /** Nothing is left after strings.TrimSpace. */
  predicate IsBlank(s: string) {
    forall i :: 0 <= i < |s| ==> IsSpace(s[i])
  }

  lemma AtMostTheQuotient(n: int, d: int, t: int)
    requires d > 0 && n * d <= t
    ensures n <= t / d
  {
    var q := t / d;
    assert t == q * d + t % d;
    var x := n - q - 1;
    assert x * d == n * d - (q + 1) * d < 0;
    assert x >= 0 ==> x * d >= 0;
  }
}
