/**
 * The three JavaScript string operations the dispatcher relies on, for a
 * string (not regular-expression) pattern: `s.indexOf(p)`, `s.includes(p)`
 * and `s.replace(p, rep)`. Matching is exact and case-sensitive, and an empty
 * pattern matches at index 0, as in JavaScript. Indices count characters, not
 * UTF-16 code units, and a replacement is inserted literally: the `$&`, `$$`,
 * `` $` `` and `$'` patterns of JavaScript's `replace` are not interpreted
 * (the driver's only replacement is the empty string).
 */
module Strings {
  import opened Wrappers

  /** `p` occurs in `s` starting at index `i`. */
  predicate OccursAt(s: string, p: string, i: int) {
    0 <= i && i + |p| <= |s| && s[i..i + |p|] == p
  }

  /** `i` is the leftmost index at which `p` occurs in `s`. */
  predicate FirstAt(s: string, p: string, i: int) {
    OccursAt(s, p, i) && forall j :: 0 <= j < i ==> !OccursAt(s, p, j)
  }

  /** An occurrence past index 0 of `s` is an occurrence in its tail, one place earlier. */
  lemma OccursInTail(s: string, p: string)
    requires |s| > 0
    ensures forall j :: 1 <= j ==> (OccursAt(s, p, j) <==> OccursAt(s[1..], p, j - 1))
  {
    forall j | 1 <= j ensures OccursAt(s, p, j) <==> OccursAt(s[1..], p, j - 1) {
      if j + |p| <= |s| {
        assert s[1..][j - 1..j - 1 + |p|] == s[j..j + |p|];
      }
    }
  }

  /** An occurrence of `p` at `i` puts its `k`-th character at `i + k`, inside `s[m..]` for `m <= i + k`. */
  lemma OccurrenceChar(s: string, p: string, i: int, k: int, m: int)
    requires OccursAt(s, p, i) && 0 <= k < |p| && 0 <= m <= i + k
    ensures s[i + k] == p[k] && p[k] in s[m..]
  {
    assert s[i..i + |p|][k] == s[m..][i + k - m];
  }

  /** A character of `p` missing from `s[m..]` rules out every occurrence that would place it there. */
  lemma Absent(s: string, p: string, k: int, m: int)
    requires 0 <= k < |p| && 0 <= m <= |s|
    requires p[k] !in s[m..]
    ensures forall i :: m <= i + k ==> !OccursAt(s, p, i)
  {
    forall i | m <= i + k && OccursAt(s, p, i) ensures false {
      OccurrenceChar(s, p, i, k, m);
    }
  }

  /** Cutting `n` characters out at `i` moves an occurrence past the cut `n` places earlier. */
  lemma OccursAfterCut(s: string, p: string, i: int, n: int, j: int)
    requires 0 <= i && 0 <= n && i + n <= j && OccursAt(s, p, j)
    ensures OccursAt(s[..i] + s[i + n..], p, j - n)
  {
    var a, b := s[..i], s[i + n..];
    assert (a + b)[j - n..j - n + |p|] == b[j - n - i..j - n - i + |p|];
    assert b[j - n - i..j - n - i + |p|] == s[j..j + |p|];
  }

  /** `s.indexOf(p)`: the leftmost occurrence of `p` in `s`, or `None` (JavaScript's -1). */
  function IndexOf(s: string, p: string): (r: Option<nat>)
    ensures r.Some? ==> FirstAt(s, p, r.value)
    ensures r.None? ==> forall j :: !OccursAt(s, p, j)
    decreases |s|
  {
    if |s| < |p| then None
    else if s[..|p|] == p then (assert s[0..|p|] == s[..|p|]; Some(0))
    else
      OccursInTail(s, p);
      assert !OccursAt(s, p, 0) by { assert s[0..|p|] == s[..|p|]; }
      match IndexOf(s[1..], p)
      case Some(i) => Some(i + 1)
      case None => None
  }

  /** `s.includes(p)`: `p` occurs somewhere in `s`. */
  function Contains(s: string, p: string): (r: bool)
    ensures r <==> exists i :: OccursAt(s, p, i)
  {
    IndexOf(s, p).Some?
  }

  /**
   * `s.replace(p, rep)` for a string pattern and a replacement without `$`:
   * only the leftmost occurrence of `p` is replaced; without one, `s` comes
   * back unchanged.
   */
  function ReplaceFirst(s: string, p: string, rep: string): (r: string)
    ensures (forall i :: !OccursAt(s, p, i)) ==> r == s
    ensures forall i :: FirstAt(s, p, i) ==> r == s[..i] + rep + s[i + |p|..]
    ensures Contains(s, p) ==> |r| == |s| - |p| + |rep|
  {
    match IndexOf(s, p)
    case None => s
    case Some(i) => s[..i] + rep + s[i + |p|..]
  }
}
