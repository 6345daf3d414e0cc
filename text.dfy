/** String operations the scanner and the severity model borrow from Python's
    `str`: lower-casing, prefix and substring tests, `rstrip` and `find`. */
module Text {

  /** Lower-cases one ASCII letter and leaves every other character alone. */
  function LowerChar(c: char): (d: char)
    ensures 'A' <= c <= 'Z' ==> 'a' <= d <= 'z'
    ensures !('A' <= c <= 'Z') ==> d == c
    ensures !('A' <= d <= 'Z')
  {
    if 'A' <= c <= 'Z' then (c as int + 32) as char else c
  }

  /** `s.lower()` on ASCII: the result has no upper-case letter, each upper-case
      letter becomes its lower-case partner, and nothing else changes. */
  function Lower(s: string): (r: string)
    ensures |r| == |s|
    ensures forall i :: 0 <= i < |s| ==> !('A' <= r[i] <= 'Z')
    ensures forall i :: 0 <= i < |s| && 'A' <= s[i] <= 'Z' ==> r[i] as int == s[i] as int + 32
    ensures forall i :: 0 <= i < |s| && !('A' <= s[i] <= 'Z') ==> r[i] == s[i]
  {
    seq(|s|, i requires 0 <= i < |s| => LowerChar(s[i]))
  }

  /** Lower-casing a second time changes nothing. */
  lemma LowerIdempotent(s: string)
    ensures Lower(Lower(s)) == Lower(s)
  {
    var once := Lower(s);
    assert forall i :: 0 <= i < |s| ==> Lower(once)[i] == once[i];
  }

  /** A string without upper-case ASCII letters is its own lower-case form. */
  lemma LowerNoUpper(s: string)
    requires forall i :: 0 <= i < |s| ==> !('A' <= s[i] <= 'Z')
    ensures Lower(s) == s
  {
    assert forall i :: 0 <= i < |s| ==> Lower(s)[i] == s[i];
  }

  /** `s.startswith(p)`. */
  predicate IsPrefix(p: string, s: string) {
    |p| <= |s| && s[..|p|] == p
  }

  /** p occurs in s starting at position i. */
  predicate OccursAt(s: string, p: string, i: int) {
    0 <= i <= |s| - |p| && s[i..i + |p|] == p
  }

  /** `p in s` for strings: p occurs in s at some position. */
  predicate Contains(s: string, p: string) {
    exists i :: 0 <= i <= |s| - |p| && OccursAt(s, p, i)
  }

  /** Every string occurs in itself. */
  lemma ContainsSelf(s: string)
    ensures Contains(s, s)
  {
    assert OccursAt(s, s, 0);
  }

  /** A non-empty p that is not a prefix of s, and whose first character
      appears nowhere after position 0 of s, does not occur in s. */
  lemma NotContainedHead(s: string, p: string)
    requires |p| > 0 && !IsPrefix(p, s)
    requires forall i :: 0 < i < |s| ==> s[i] != p[0]
    ensures !Contains(s, p)
  {
    forall i | 0 <= i <= |s| - |p| ensures !OccursAt(s, p, i) {
      if i > 0 {
        assert s[i..i + |p|][0] == s[i];
      }
    }
  }

  /** Index of the first c in s, or |s| when s has none (`s.find(c)`, with
      |s| standing in for -1). */
  function IndexOf(s: string, c: char): (k: nat)
    ensures k <= |s|
    ensures forall j :: 0 <= j < k ==> s[j] != c
    ensures k < |s| ==> s[k] == c
  {
    if s == [] then 0
    else if s[0] == c then 0
    else 1 + IndexOf(s[1..], c)
  }

  /** `find` on a prefix of s sees the first c of s if it lies inside the prefix. */
  lemma IndexOfPrefix(s: string, c: char, n: nat)
    requires n <= |s|
    ensures IndexOf(s[..n], c) == if IndexOf(s, c) < n then IndexOf(s, c) else n
  {
    assert forall j :: 0 <= j < n ==> s[..n][j] == s[j];
  }

  /** `s.rstrip(c)`: removes every trailing c. */
  function RStrip(s: string, c: char): (r: string)
    ensures IsPrefix(r, s)
    ensures r == [] || r[|r| - 1] != c
    ensures forall j :: |r| <= j < |s| ==> s[j] == c
  {
    if |s| > 0 && s[|s| - 1] == c then RStrip(s[..|s| - 1], c) else s
  }

  /** `rstrip` keeps every prefix that ends in a character other than c. */
  lemma {:induction false} RStripKeepsPrefix(s: string, c: char, p: string)
    requires IsPrefix(p, s) && |p| > 0 && p[|p| - 1] != c
    ensures IsPrefix(p, RStrip(s, c))
    decreases |s|
  {
    if |s| > 0 && s[|s| - 1] == c {
      assert |p| < |s|;
      assert s[..|s| - 1][..|p|] == s[..|p|];
      RStripKeepsPrefix(s[..|s| - 1], c, p);
    }
  }
}
