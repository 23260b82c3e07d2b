/**
  The string primitives the search boxes and forms rely on: `toLowerCase`
  (restricted to ASCII), `includes`, and `trim`.
*/
module Text {

  /** ASCII lower-casing of one character; every other character is unchanged. */
  function LowerChar(c: char): char
  {
    if 'A' <= c <= 'Z' then (c as int + 32) as char else c
  }

  /** `s.toLowerCase()`, restricted to ASCII letters. */
  function Lower(s: string): (r: string)
    ensures |r| == |s|
    ensures forall i :: 0 <= i < |s| ==> r[i] == LowerChar(s[i])
  {
    if s == [] then [] else [LowerChar(s[0])] + Lower(s[1..])
  }

  /** Lower-casing twice is lower-casing once, so a lower-cased term searched in a lower-cased field is stable. */
  lemma LowerIdempotent(s: string)
    ensures Lower(Lower(s)) == Lower(s)
  {
    assert forall i :: 0 <= i < |s| ==> Lower(Lower(s))[i] == Lower(s)[i];
  }

  /** `hay.includes(needle)`: the needle is a prefix of hay or of one of its suffixes. */
  predicate Includes(hay: string, needle: string)
    ensures Includes(hay, needle) ==> |needle| <= |hay|
    decreases |hay|
  {
    needle <= hay || (hay != [] && Includes(hay[1..], needle))
  }

  /** The needle occurs in hay starting at index k. */
  ghost predicate OccursAt(hay: string, needle: string, k: nat)
  {
    k + |needle| <= |hay| && hay[k..k + |needle|] == needle
  }

  /** The needle occurs somewhere in hay. */
  ghost predicate Occurs(hay: string, needle: string)
  {
    exists k: nat :: OccursAt(hay, needle, k)
  }

  /** `Includes` is exactly "some window of hay equals needle". */
  lemma {:induction false} IncludesIff(hay: string, needle: string)
    ensures Includes(hay, needle) <==> Occurs(hay, needle)
    decreases |hay|
  {
    if needle <= hay {
      assert OccursAt(hay, needle, 0);
    } else if hay != [] {
      var tail := hay[1..];
      IncludesIff(tail, needle);
      if Occurs(tail, needle) {
        var k: nat :| OccursAt(tail, needle, k);
        assert hay[k + 1..k + 1 + |needle|] == tail[k..k + |needle|];
        assert OccursAt(hay, needle, k + 1);
      }
      if Occurs(hay, needle) {
        var k: nat :| OccursAt(hay, needle, k);
        assert !OccursAt(hay, needle, 0) by {
          if |needle| <= |hay| {
            assert hay[0..|needle|] == hay[..|needle|];
          }
        }
        assert tail[k - 1..k - 1 + |needle|] == hay[k..k + |needle|];
        assert OccursAt(tail, needle, k - 1);
      }
    }
  }

  /** Every string includes the empty string: an empty search box hides nothing. */
  lemma IncludesEmpty(hay: string)
    ensures Includes(hay, [])
  {
  }

  /** Case-insensitive substring test, as the search boxes do it: `a.toLowerCase().includes(b.toLowerCase())`. */
  predicate Matches(field: string, term: string)
    ensures Matches(field, term) <==> Occurs(Lower(field), Lower(term))
  {
    IncludesIff(Lower(field), Lower(term));
    Includes(Lower(field), Lower(term))
  }

  /** A search is blind to the case of both the field and the term: lower-casing either first changes nothing. */
  lemma MatchesIgnoresCase(field: string, term: string)
    ensures Matches(field, Lower(term)) == Matches(field, term)
    ensures Matches(Lower(field), term) == Matches(field, term)
  {
    LowerIdempotent(term);
    LowerIdempotent(field);
  }

  /**
    The characters `String.prototype.trim` and `parseInt` skip: ECMAScript
    WhiteSpace and LineTerminator code points.
  */
  predicate IsSpace(c: char)
  {
    var n := c as int;
    n == 0x09 || n == 0x0A || n == 0x0B || n == 0x0C || n == 0x0D || n == 0x20
    || n == 0xA0 || n == 0x1680 || (0x2000 <= n <= 0x200A) || n == 0x2028 || n == 0x2029
    || n == 0x202F || n == 0x205F || n == 0x3000 || n == 0xFEFF
  }

  /** `s.trimStart()`: drops the leading white space. */
  function TrimStart(s: string): (r: string)
    ensures |r| <= |s| && r == s[|s| - |r|..]
    ensures forall i :: 0 <= i < |s| - |r| ==> IsSpace(s[i])
    ensures r == [] || !IsSpace(r[0])
  {
    if s != [] && IsSpace(s[0]) then TrimStart(s[1..]) else s
  }

  /** `s.trimEnd()`: drops the trailing white space. */
  function TrimEnd(s: string): (r: string)
    ensures |r| <= |s| && r == s[..|r|]
    ensures forall i :: |r| <= i < |s| ==> IsSpace(s[i])
    ensures r == [] || !IsSpace(r[|r| - 1])
  {
    if s != [] && IsSpace(s[|s| - 1]) then TrimEnd(s[..|s| - 1]) else s
  }

  /**
    `s.trim()`: what is left of s once white space is dropped from both
    ends, a prefix of `s.trimStart()` (itself a suffix of s) that neither
    starts nor ends with white space and is followed in it by blanks only.
  */
  function Trim(s: string): (r: string)
    ensures |r| <= |TrimStart(s)| <= |s|
    ensures r <= TrimStart(s)
    ensures forall i :: |r| <= i < |TrimStart(s)| ==> IsSpace(TrimStart(s)[i])
    ensures r == [] || (!IsSpace(r[0]) && !IsSpace(r[|r| - 1]))
  {
    var t := TrimStart(s);
    var r := TrimEnd(t);
    assert r == [] || r[0] == t[0];
    r
  }

  /** A string trims to nothing exactly when every character of it is white space. */
  lemma BlankIff(s: string)
    ensures Trim(s) == [] <==> forall i :: 0 <= i < |s| ==> IsSpace(s[i])
  {
    var t := TrimStart(s);
    if t != [] {
      assert !IsSpace(s[|s| - |t|]);
      assert !IsSpace(t[0]);
    }
  }
}
