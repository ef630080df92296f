/**
 * Strings as the Python code compares and assembles them: `<=` on `str` is
 * lexicographic by code point (a proper prefix sorts first) and `replace`
 * substitutes one character for another. `IsSubstring` is what "a text
 * contains another" means in the properties proved about the HTML report.
 */
module Text {

  /** Python's `a <= b` on two strings. */
  predicate TextLe(a: string, b: string)
    ensures |a| <= |b| && a == b[..|a|] ==> TextLe(a, b)
    decreases |a|
  {
    a == [] || (b != [] && (a[0] < b[0] || (a[0] == b[0] && TextLe(a[1..], b[1..]))))
  }

  /** Follows from the prefix clause of `TextLe`: every string is a prefix of itself. */
  lemma TextLeReflexive(a: string)
    ensures TextLe(a, a)
  {
  }

  lemma {:induction false} TextLeTransitive(a: string, b: string, c: string)
    requires TextLe(a, b) && TextLe(b, c)
    ensures TextLe(a, c)
    decreases |a|
  {
    if a != [] && a[0] == b[0] && b[0] == c[0] {
      TextLeTransitive(a[1..], b[1..], c[1..]);
    }
  }

  lemma {:induction false} TextLeTotal(a: string, b: string)
    ensures TextLe(a, b) || TextLe(b, a)
    decreases |a|
  {
    if a != [] && b != [] && a[0] == b[0] {
      TextLeTotal(a[1..], b[1..]);
    }
  }

  lemma {:induction false} TextLeAntisymmetric(a: string, b: string)
    requires TextLe(a, b) && TextLe(b, a)
    ensures a == b
    decreases |a|
  {
    if a != [] {
      TextLeAntisymmetric(a[1..], b[1..]);
    }
  }

  /** `whole` contains `part` as a contiguous piece. */
  predicate IsSubstring(part: string, whole: string) {
    exists i, j :: 0 <= i <= j <= |whole| && whole[i..j] == part
  }

  /** A substring of `whole` is a substring of anything that contains `whole`. */
  lemma SubstringWithin(part: string, whole: string, before: string, after: string)
    requires IsSubstring(part, whole)
    ensures IsSubstring(part, before + whole + after)
  {
    var i, j :| 0 <= i <= j <= |whole| && whole[i..j] == part;
    var bigger := before + whole + after;
    assert bigger[|before| + i..|before| + j] == whole[i..j];
  }

  /** The second and the fourth of five joined texts are pieces of the whole. */
  lemma SubstringsOfFive(a: string, b: string, c: string, d: string, e: string)
    ensures IsSubstring(b, a + b + c + d + e) && IsSubstring(d, a + b + c + d + e)
  {
    var whole := a + b + c + d + e;
    assert whole[|a|..|a| + |b|] == b;
    assert whole[|a + b + c|..|a + b + c| + |d|] == d;
  }

  /** The two halves of a concatenation are its prefix and its suffix. */
  lemma ConcatParts(a: string, b: string)
    ensures (a + b)[..|a|] == a && (a + b)[|a|..] == b
  {
  }

  lemma ConcatAssociates(a: string, b: string, c: string)
    ensures (a + b) + c == a + (b + c)
    ensures a + "" == a
  {
  }

  /** Python's `s.replace(from, to)` for one-character `from` and `to`. */
  function ReplaceChar(s: string, from: char, to: char): (r: string)
    ensures |r| == |s|
    ensures forall i :: 0 <= i < |s| ==> r[i] == (if s[i] == from then to else s[i])
  {
    if s == [] then [] else [if s[0] == from then to else s[0]] + ReplaceChar(s[1..], from, to)
  }

  lemma ReplaceAbsentChar(s: string, from: char, to: char)
    requires from !in s
    ensures ReplaceChar(s, from, to) == s
  {
  }
}
