/** String operations the matcher relies on: `toLowerCase` and `includes`. */
module Text {

  /** Lower-cases one character. Covers ASCII `A`-`Z` and the Latin-1
      capitals U+00C0..U+00DE (without the multiplication sign U+00D7),
      which is enough for the French place names the matcher sees. */
  function LowerChar(c: char): (r: char)
    ensures r == c || r as int == c as int + 32
    ensures !IsUpper(r)
    ensures !IsUpper(c) ==> r == c
  {
    if 'A' <= c <= 'Z' then (c as int + 32) as char
    else if '\U{C0}' <= c <= '\U{DE}' && c != '\U{D7}' then (c as int + 32) as char
    else c
  }

  /** An upper-case letter in the folded range. */
  predicate IsUpper(c: char) {
    'A' <= c <= 'Z' || ('\U{C0}' <= c <= '\U{DE}' && c != '\U{D7}')
  }

  /** `toLowerCase`, character by character: no capital is left, and every
      character that is not a capital is kept where it was. */
  function Lower(s: string): (r: string)
    ensures |r| == |s|
    ensures forall i :: 0 <= i < |s| ==> r[i] == LowerChar(s[i])
    ensures forall i :: 0 <= i < |r| ==> !IsUpper(r[i])
    ensures forall i :: 0 <= i < |s| && !IsUpper(s[i]) ==> r[i] == s[i]
  {
    seq(|s|, i requires 0 <= i < |s| => LowerChar(s[i]))
  }

  /** `needle` occurs in `hay` starting at position `i`. */
  ghost predicate OccursAt(needle: string, hay: string, i: int) {
    0 <= i && i + |needle| <= |hay| && hay[i..i + |needle|] == needle
  }

  /** Substring search: a left-to-right scan of `hay` for `needle`. */
  function Includes(hay: string, needle: string): (r: bool)
    ensures r <==> exists i :: OccursAt(needle, hay, i)
    decreases |hay|
  {
    if |needle| > |hay| then
      NoRoomNoOccurrence(needle, hay);
      false
    else if hay[..|needle|] == needle then
      assert OccursAt(needle, hay, 0);
      true
    else
      ShiftOccurrences(needle, hay);
      Includes(hay[1..], needle)
  }

  lemma NoRoomNoOccurrence(needle: string, hay: string)
    requires |needle| > |hay|
    ensures forall i :: !OccursAt(needle, hay, i)
  {
  }

  /** When `needle` is not a prefix of `hay`, its occurrences in `hay` are
      exactly its occurrences in `hay[1..]`, shifted by one. */
  lemma ShiftOccurrences(needle: string, hay: string)
    requires |needle| <= |hay| && hay[..|needle|] != needle
    ensures (exists i :: OccursAt(needle, hay, i)) <==> (exists i :: OccursAt(needle, hay[1..], i))
  {
    if i :| OccursAt(needle, hay, i) {
      assert i != 0;
      assert hay[1..][i - 1..i - 1 + |needle|] == hay[i..i + |needle|];
      assert OccursAt(needle, hay[1..], i - 1);
    }
    if i :| OccursAt(needle, hay[1..], i) {
      assert hay[i + 1..i + 1 + |needle|] == hay[1..][i..i + |needle|];
      assert OccursAt(needle, hay, i + 1);
    }
  }

  /** Lower-casing is idempotent, so matching an already lower-cased
      string again changes nothing. */
  lemma LowerIdempotent(s: string)
    ensures Lower(Lower(s)) == Lower(s)
  {
    forall i | 0 <= i < |s|
      ensures Lower(Lower(s))[i] == Lower(s)[i]
    {
      LowerCharIdempotent(s[i]);
    }
  }

  lemma LowerCharIdempotent(c: char)
    ensures LowerChar(LowerChar(c)) == LowerChar(c)
    ensures !IsUpper(LowerChar(c))
  {
  }

  /** The empty needle is found in every string, the empty one included. */
  lemma EmptyNeedleAlwaysIncluded(hay: string)
    ensures Includes(hay, "")
  {
    assert OccursAt("", hay, 0);
  }
}
