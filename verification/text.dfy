/**
 * Case folding and substring containment, as the network page uses them:
 * `comment.lower()` followed by the Python test `word in comment_lower`.
 * Lower-casing is ASCII only (see README).
 */
module Text {

  predicate IsUpperChar(c: char) {
    'A' <= c <= 'Z'
  }

  /** ASCII lower-casing of one character; every other character is kept. */
  function LowerChar(c: char): (d: char)
    ensures !IsUpperChar(d)
    ensures IsUpperChar(c) ==> d as int == c as int + 32
    ensures !IsUpperChar(c) ==> d == c
  {
    if IsUpperChar(c) then (c as int + 32) as char else c
  }

  /** `s.lower()`. */
  function Lower(s: string): string {
    seq(|s|, i requires 0 <= i < |s| => LowerChar(s[i]))
  }

  /** A string with no upper-case letter. */
  predicate IsLower(s: string) {
    forall i :: 0 <= i < |s| ==> !IsUpperChar(s[i])
  }

  /** Lower-casing changes exactly the strings that hold an upper-case letter. */
  lemma LowerFixesExactlyLower(s: string)
    ensures IsLower(Lower(s))
    ensures Lower(s) == s <==> IsLower(s)
  {
  }

  /** `w` occurs in `s` starting at index `i`. */
  predicate OccursAt(s: string, w: string, i: int) {
    0 <= i && i + |w| <= |s| && s[i..i + |w|] == w
  }

  /** Python's `w in s` on strings: substring containment (the empty string is in every string). */
  predicate Contains(s: string, w: string) {
    exists i | 0 <= i <= |s| - |w| :: OccursAt(s, w, i)
  }
}
