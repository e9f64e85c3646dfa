/** Case-insensitive substring matching, the meaning of a `contains` filter in
    `insensitive` mode. Case folding covers the ASCII letters only. */
module Text {

  function LowerChar(c: char): char {
    if 'A' <= c <= 'Z' then (c as int - 'A' as int + 'a' as int) as char else c
  }

  /** `s` with every ASCII upper-case letter replaced by its lower-case form. */
  function Lower(s: string): (r: string)
    ensures |r| == |s|
    ensures forall i :: 0 <= i < |s| ==> r[i] == LowerChar(s[i])
  {
    if s == [] then [] else [LowerChar(s[0])] + Lower(s[1..])
  }

  /** `needle` occurs as a contiguous run of `hay`. */
  predicate IsSubstring(needle: string, hay: string)
    decreases |hay|
  {
    needle <= hay || (hay != [] && IsSubstring(needle, hay[1..]))
  }

  /** `hay` contains `needle`, ignoring case. */
  predicate ContainsInsensitive(hay: string, needle: string) {
    IsSubstring(Lower(needle), Lower(hay))
  }

  lemma LowerPrefix(a: string, b: string)
    requires a <= b
    ensures Lower(a) <= Lower(b)
  {
  }

  lemma LowerIdempotent(s: string)
    ensures Lower(Lower(s)) == Lower(s)
  {
  }

  /** Folding both sides keeps every occurrence. */
  lemma {:induction false} LowerKeepsSubstring(needle: string, hay: string)
    requires IsSubstring(needle, hay)
    ensures IsSubstring(Lower(needle), Lower(hay))
    decreases |hay|
  {
    if needle <= hay {
      LowerPrefix(needle, hay);
    } else {
      LowerKeepsSubstring(needle, hay[1..]);
      assert Lower(hay)[1..] == Lower(hay[1..]);
    }
  }

  /** An exact occurrence is also a case-insensitive one. */
  lemma ExactOccurrenceMatches(hay: string, needle: string)
    requires IsSubstring(needle, hay)
    ensures ContainsInsensitive(hay, needle)
  {
    LowerKeepsSubstring(needle, hay);
  }

  /** The case of either side does not change the outcome. */
  lemma CaseIsIgnored(hay: string, needle: string)
    ensures ContainsInsensitive(hay, Lower(needle)) == ContainsInsensitive(hay, needle)
    ensures ContainsInsensitive(Lower(hay), needle) == ContainsInsensitive(hay, needle)
  {
    LowerIdempotent(needle);
    LowerIdempotent(hay);
  }
}
