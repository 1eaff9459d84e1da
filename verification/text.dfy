/** The string operations of the catalogue search: `toLowerCase` and `includes`.
    `toLowerCase` is approximated by ASCII folding of 'A'..'Z'. */
module Text {

  predicate IsUpper(c: char) { 'A' <= c <= 'Z' }

  /** The ASCII fold of one character: a capital becomes the small letter of the same name. */
  function LowerChar(c: char): (r: char)
    ensures !IsUpper(r)
    ensures !IsUpper(c) ==> r == c
    ensures IsUpper(c) ==> 'a' <= r <= 'z' && r as int - 'a' as int == c as int - 'A' as int
  {
    if IsUpper(c) then (c as int - 'A' as int + 'a' as int) as char else c
  }

  /** Two characters are the same ignoring case: equal, or one capital and the other its small letter. */
  predicate SameIgnoringCase(a: char, b: char)
  {
    || a == b
    || (IsUpper(a) && b as int - 'a' as int == a as int - 'A' as int)
    || (IsUpper(b) && a as int - 'a' as int == b as int - 'A' as int)
  }

  /** Folding both characters identifies exactly the pairs that are the same ignoring case. */
  lemma LowerCharAgreeIff(a: char, b: char)
    ensures LowerChar(a) == LowerChar(b) <==> SameIgnoringCase(a, b)
  {
  }

  /** `s.toLowerCase()`, restricted to ASCII letters. */
  function Lower(s: string): (r: string)
    ensures |r| == |s|
    ensures forall i :: 0 <= i < |s| ==> r[i] == LowerChar(s[i])
  {
    if s == [] then [] else [LowerChar(s[0])] + Lower(s[1..])
  }

  predicate IsLowerCase(s: string) { forall i :: 0 <= i < |s| ==> !IsUpper(s[i]) }

  lemma LowerIsLowerCase(s: string)
    ensures IsLowerCase(Lower(s))
    ensures Lower(Lower(s)) == Lower(s)
  {
  }

  /** Lower-casing a string that has no upper-case letter changes nothing. */
  lemma LowerOfLowerCase(s: string)
    requires IsLowerCase(s)
    ensures Lower(s) == s
  {
  }

  predicate StartsWith(s: string, t: string) { |t| <= |s| && s[..|t|] == t }

  /** `s.includes(t)`: is there a position at which `t` starts in `s`? */
  predicate Includes(s: string, t: string)
    decreases |s|
  {
    StartsWith(s, t) || (s != [] && Includes(s[1..], t))
  }

  /** `t` occurs in `s` starting at index `i`. */
  predicate OccursAt(s: string, t: string, i: int)
  {
    0 <= i && i + |t| <= |s| && s[i..i + |t|] == t
  }

  lemma {:induction false} IncludesIff(s: string, t: string)
    ensures Includes(s, t) <==> exists i :: OccursAt(s, t, i)
    decreases |s|
  {
    if StartsWith(s, t) {
      assert OccursAt(s, t, 0);
    } else if s != [] {
      IncludesIff(s[1..], t);
      if exists i :: OccursAt(s[1..], t, i) {
        var i :| OccursAt(s[1..], t, i);
        assert s[i + 1..i + 1 + |t|] == s[1..][i..i + |t|];
        assert OccursAt(s, t, i + 1);
      }
      if exists i :: OccursAt(s, t, i) {
        var i :| OccursAt(s, t, i);
        if i > 0 {
          assert s[1..][i - 1..i - 1 + |t|] == s[i..i + |t|];
          assert OccursAt(s[1..], t, i - 1);
        }
      }
    }
  }

  /** The empty string is included in every string. */
  lemma IncludesEmpty(s: string)
    ensures Includes(s, "")
  {
    assert StartsWith(s, "");
  }

  /** `hay.toLowerCase().includes(needle.toLowerCase())`. */
  predicate ContainsIgnoringCase(hay: string, needle: string)
  {
    Includes(Lower(hay), Lower(needle))
  }

  /** `needle` matches `hay` at index `i` when letters are compared without regard to case. */
  predicate MatchesAt(hay: string, needle: string, i: int)
  {
    0 <= i && i + |needle| <= |hay| &&
    forall j :: 0 <= j < |needle| ==> SameIgnoringCase(hay[i + j], needle[j])
  }

  lemma ContainsIgnoringCaseIff(hay: string, needle: string)
    ensures ContainsIgnoringCase(hay, needle) <==> exists i :: MatchesAt(hay, needle, i)
  {
    var h, n := Lower(hay), Lower(needle);
    IncludesIff(h, n);
    forall i ensures OccursAt(h, n, i) <==> MatchesAt(hay, needle, i) {
      if 0 <= i && i + |n| <= |h| {
        if OccursAt(h, n, i) {
          forall j | 0 <= j < |needle| ensures SameIgnoringCase(hay[i + j], needle[j]) {
            assert h[i..i + |n|][j] == h[i + j];
            LowerCharAgreeIff(hay[i + j], needle[j]);
          }
        }
        if MatchesAt(hay, needle, i) {
          forall j | 0 <= j < |needle| ensures h[i + j] == n[j] {
            LowerCharAgreeIff(hay[i + j], needle[j]);
          }
          assert h[i..i + |n|] == n;
        }
      }
    }
  }

  /** The search the marketplace runs with an empty term matches every string. */
  lemma ContainsEmpty(hay: string)
    ensures ContainsIgnoringCase(hay, "")
  {
    IncludesEmpty(Lower(hay));
  }

  /** The search does not depend on the case of the term or of the text: lowering either first
      changes nothing. */
  lemma ContainsIgnoresCase(hay: string, needle: string)
    ensures ContainsIgnoringCase(hay, Lower(needle)) == ContainsIgnoringCase(hay, needle)
    ensures ContainsIgnoringCase(Lower(hay), needle) == ContainsIgnoringCase(hay, needle)
  {
    LowerIsLowerCase(needle);
    LowerIsLowerCase(hay);
  }

  /** A term that has no capitals is searched for as written in the lowered text. */
  lemma ContainsLowerCaseTerm(hay: string, needle: string)
    requires IsLowerCase(needle)
    ensures ContainsIgnoringCase(hay, needle) == Includes(Lower(hay), needle)
  {
    LowerOfLowerCase(needle);
  }
}
