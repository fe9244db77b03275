/**
 The two string operations the search uses: `toLowerCase`, approximated on the
 ASCII letters only, and `includes`, with an index-based reference definition.
 */
module Text {

  /** Upper-case ASCII letters map to lower case; every other character is kept. */
  function LowerChar(c: char): char
  {
    if 'A' <= c <= 'Z' then (c as int - 'A' as int + 'a' as int) as char else c
  }

  /** Two characters that are equal, or the same ASCII letter in the two cases. */
  ghost predicate CaseVariants(c: char, d: char)
  {
    || c == d
    || ('A' <= c <= 'Z' && d as int == c as int + ('a' as int - 'A' as int))
    || ('a' <= c <= 'z' && c as int == d as int + ('a' as int - 'A' as int))
  }

  /** `a` and `b` differ at most in the ASCII case of their letters. */
  ghost predicate SameUpToCase(a: string, b: string)
  {
    |a| == |b| && forall i :: 0 <= i < |a| ==> CaseVariants(a[i], b[i])
  }

  /** `toLowerCase`: a case variant of the input with no upper-case ASCII letter left. */
  function Lower(s: string): (r: string)
    ensures SameUpToCase(s, r)
    ensures forall i :: 0 <= i < |r| ==> !('A' <= r[i] <= 'Z')
  {
    seq(|s|, i requires 0 <= i < |s| => LowerChar(s[i]))
  }

  /** Lower-casing erases every difference of case: case variants lower-case alike. */
  lemma LowerFoldsCase(a: string, b: string)
    requires SameUpToCase(a, b)
    ensures Lower(a) == Lower(b)
  {
    forall i | 0 <= i < |a|
      ensures Lower(a)[i] == Lower(b)[i]
    {
      assert CaseVariants(a[i], b[i]);
    }
  }

  /** `needle` sits in `hay` starting at index `i`. */
  ghost predicate OccursAt(hay: string, needle: string, i: int)
  {
    0 <= i && i + |needle| <= |hay| && hay[i..i + |needle|] == needle
  }

  ghost predicate IsSubstring(needle: string, hay: string)
  {
    exists i :: OccursAt(hay, needle, i)
  }

  lemma TailSlice(hay: string, a: int, b: int)
    requires 0 <= a <= b < |hay|
    ensures hay[1..][a..b] == hay[a + 1..b + 1]
  {
  }

  /** An occurrence in the tail is an occurrence one index further on. */
  lemma OccursInTail(hay: string, needle: string, i: int)
    requires |hay| > 0 && OccursAt(hay[1..], needle, i)
    ensures OccursAt(hay, needle, i + 1)
  {
    TailSlice(hay, i, i + |needle|);
  }

  /** When `needle` is not a prefix of `hay`, it occurs in `hay` exactly when it
      occurs in `hay` without its first character. */
  lemma SubstringOfTail(hay: string, needle: string)
    requires |needle| <= |hay| && hay[..|needle|] != needle
    ensures IsSubstring(needle, hay) <==> IsSubstring(needle, hay[1..])
  {
    if IsSubstring(needle, hay[1..]) {
      var i :| OccursAt(hay[1..], needle, i);
      OccursInTail(hay, needle, i);
    }
    if IsSubstring(needle, hay) {
      var i :| OccursAt(hay, needle, i);
      TailSlice(hay, i - 1, i - 1 + |needle|);
      assert OccursAt(hay[1..], needle, i - 1);
    }
  }

  /** `hay.includes(needle)`: try every start position from the left. It holds
      exactly when `needle` occurs at some index of `hay`. */
  function Includes(hay: string, needle: string): (b: bool)
    ensures b <==> IsSubstring(needle, hay)
    decreases |hay|
  {
    if |needle| > |hay| then false
    else if hay[..|needle|] == needle then
      assert OccursAt(hay, needle, 0);
      true
    else
      SubstringOfTail(hay, needle);
      Includes(hay[1..], needle)
  }

  /** Every string contains the empty string. */
  lemma IncludesEmpty(hay: string)
    ensures Includes(hay, "")
  {
  }

}
