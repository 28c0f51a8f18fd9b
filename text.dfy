/** The two string operations the title filter uses: `toLowerCase` and
    `includes`. Lower-casing is modelled on the ASCII letters only. */
module Text {

  predicate IsUpper(c: char)
  {
    'A' <= c <= 'Z'
  }

  /** Lower-case mapping of one character: `A`..`Z` go to `a`..`z`, every
      other character is left alone. */
  function LowerChar(c: char): (d: char)
    ensures !IsUpper(d)
    ensures IsUpper(c) ==> d as int == c as int + ('a' as int - 'A' as int)
    ensures !IsUpper(c) ==> d == c
  {
    if IsUpper(c) then (c as int + ('a' as int - 'A' as int)) as char else c
  }

  /** `s.toLowerCase()`: the same length, each character lower-cased. */
  function Lower(s: string): (r: string)
    ensures |r| == |s|
    ensures forall i :: 0 <= i < |s| ==> r[i] == LowerChar(s[i])
  {
    seq(|s|, i requires 0 <= i < |s| => LowerChar(s[i]))
  }

  /** `needle` sits in `hay` starting at index `i`. */
  ghost predicate OccursAt(hay: string, needle: string, i: int)
  {
    0 <= i && i + |needle| <= |hay| && hay[i..i + |needle|] == needle
  }

  /** `hay.includes(needle)`: `needle` is a contiguous piece of `hay`. The
      empty needle is included in every string. */
  function Includes(hay: string, needle: string): (b: bool)
    ensures b <==> exists i :: OccursAt(hay, needle, i)
    decreases |hay|
  {
    if needle <= hay then
      assert OccursAt(hay, needle, 0);
      true
    else if |hay| == 0 then
      false
    else
      var rest := Includes(hay[1..], needle);
      assert forall i :: OccursAt(hay[1..], needle, i) ==> OccursAt(hay, needle, i + 1) by {
        forall i | OccursAt(hay[1..], needle, i) ensures OccursAt(hay, needle, i + 1) {
          assert hay[1..][i..i + |needle|] == hay[i + 1..i + 1 + |needle|];
        }
      }
      assert forall i :: OccursAt(hay, needle, i) ==> OccursAt(hay[1..], needle, i - 1) by {
        forall i | OccursAt(hay, needle, i) ensures OccursAt(hay[1..], needle, i - 1) {
          assert hay[1..][i - 1..i - 1 + |needle|] == hay[i..i + |needle|];
        }
      }
      rest
  }

  /** Lower-casing twice is lower-casing once. */
  lemma LowerIdempotent(s: string)
    ensures Lower(Lower(s)) == Lower(s)
  {
    assert forall i :: 0 <= i < |s| ==> LowerChar(LowerChar(s[i])) == LowerChar(s[i]);
  }

  /** Lower-casing commutes with taking a slice. */
  lemma LowerSlice(s: string, i: int, j: int)
    requires 0 <= i <= j <= |s|
    ensures Lower(s)[i..j] == Lower(s[i..j])
  {
  }

  /** The search is case-insensitive in one direction at least: a title that
      contains the query verbatim still contains it after both are
      lower-cased. */
  lemma IncludesSurvivesLowering(hay: string, needle: string)
    requires Includes(hay, needle)
    ensures Includes(Lower(hay), Lower(needle))
  {
    var i :| OccursAt(hay, needle, i);
    LowerSlice(hay, i, i + |needle|);
    assert OccursAt(Lower(hay), Lower(needle), i);
  }

  /** Lower-casing characters other than letters changes nothing. */
  lemma LowerOfSpaces(q: string)
    requires forall k :: 0 <= k < |q| ==> q[k] == ' '
    ensures Lower(q) == q
  {
  }

  /** A run of spaces found in the lower-cased string is there in the
      original too: only a space lower-cases to a space. */
  lemma LoweredSpacesAreSpaces(hay: string, q: string, i: int)
    requires forall k :: 0 <= k < |q| ==> q[k] == ' '
    requires OccursAt(Lower(hay), q, i)
    ensures OccursAt(hay, q, i)
  {
    forall k | 0 <= k < |q| ensures hay[i..i + |q|][k] == q[k] {
      assert Lower(hay)[i + k] == Lower(hay)[i..i + |q|][k];
      assert LowerChar(hay[i + k]) == ' ';
    }
  }

  /** A query made only of spaces is looked up as typed: the lower-cased
      title contains it exactly when the title itself does. */
  lemma SpacesMatchVerbatim(hay: string, q: string)
    requires forall k :: 0 <= k < |q| ==> q[k] == ' '
    ensures Includes(Lower(hay), Lower(q)) <==> Includes(hay, q)
  {
    LowerOfSpaces(q);
    if Includes(Lower(hay), q) {
      var i :| OccursAt(Lower(hay), q, i);
      LoweredSpacesAreSpaces(hay, q, i);
    }
    if Includes(hay, q) {
      IncludesSurvivesLowering(hay, q);
    }
  }

  /** A lower-case letter appears in the lower-cased string only if the
      original holds it in one case or the other. */
  lemma LowerMissesLetter(s: string, c: char)
    requires 'a' <= c <= 'z'
    requires c !in s && (c as int - ('a' as int - 'A' as int)) as char !in s
    ensures c !in Lower(s)
  {
  }
}
