/**
 * Case-insensitive filter matching, as the apps use it: the filter text is
 * compiled with `new RegExp(filter, 'i')` and tested against a name. This
 * module covers filters without pattern metacharacters, for which that test
 * is substring containment after ASCII lower-casing of both sides.
 */
module Text {

  function LowerChar(c: char): char
  {
    if 'A' <= c <= 'Z' then (c as int + 32) as char else c
  }

  function Lower(s: string): string
  {
    seq(|s|, i requires 0 <= i < |s| => LowerChar(s[i]))
  }

  /** Lower-casing twice is lower-casing once. */
  lemma LowerIdempotent(s: string)
    ensures Lower(Lower(s)) == Lower(s)
  {
    assert forall i :: 0 <= i < |s| ==> LowerChar(LowerChar(s[i])) == LowerChar(s[i]);
  }

  /** `p` occurs in `s` starting at some position (checked left to right). */
  predicate IsSubstring(p: string, s: string)
    decreases |s|
  {
    p <= s || (s != [] && IsSubstring(p, s[1..]))
  }

  /** `p` is the slice of `s` that starts at position `i`. */
  predicate OccursAt(p: string, s: string, i: int)
  {
    0 <= i <= |s| - |p| && s[i..i + |p|] == p
  }

  /** The recursive test agrees with "some slice of `s` equals `p`", both ways. */
  lemma {:induction false} IsSubstringIffOccurs(p: string, s: string)
    ensures IsSubstring(p, s) <==> exists i :: OccursAt(p, s, i)
    decreases |s|
  {
    if p <= s {
      assert OccursAt(p, s, 0);
    } else if s == [] {
    } else {
      IsSubstringIffOccurs(p, s[1..]);
      if IsSubstring(p, s[1..]) {
        var i :| OccursAt(p, s[1..], i);
        assert s[i + 1..i + 1 + |p|] == s[1..][i..i + |p|];
        assert OccursAt(p, s, i + 1);
      }
      if exists i :: OccursAt(p, s, i) {
        var i :| OccursAt(p, s, i);
        assert i != 0;
        assert s[1..][i - 1..i - 1 + |p|] == s[i..i + |p|];
        assert OccursAt(p, s[1..], i - 1);
      }
    }
  }

  /** The regex test `!!name.match(new RegExp(filter, 'i'))` for a literal filter. */
  predicate MatchesFilter(name: string, filter: string)
    ensures MatchesFilter(name, filter) <==> exists i :: OccursAt(Lower(filter), Lower(name), i)
  {
    IsSubstringIffOccurs(Lower(filter), Lower(name));
    IsSubstring(Lower(filter), Lower(name))
  }

  /** The empty pattern matches every name. */
  lemma EmptyFilterMatchesAll()
    ensures forall name :: MatchesFilter(name, "")
  {
    assert Lower("") == [];
  }

  /** Matching ignores the letter case of the name and of the filter. */
  lemma MatchIgnoresCase(name: string, filter: string)
    ensures MatchesFilter(name, filter) == MatchesFilter(Lower(name), Lower(filter))
  {
    LowerIdempotent(name);
    LowerIdempotent(filter);
  }
}
