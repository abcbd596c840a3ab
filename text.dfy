/** The two string operations the name search uses: `toLowerCase` and `includes`.
    Case folding is ASCII only. */
module Text {

  /** Maps 'A'..'Z' to 'a'..'z' and leaves every other character alone. */
  function LowerChar(c: char): (d: char)
    ensures !('A' <= c <= 'Z') ==> d == c
    ensures 'A' <= c <= 'Z' ==> 'a' <= d <= 'z' && d as int - c as int == 32
  {
    if 'A' <= c <= 'Z' then (c as int + 32) as char else c
  }

  /** `s.toLowerCase()`, one character at a time. */
  function ToLower(s: string): (r: string)
    ensures |r| == |s|
    ensures forall i :: 0 <= i < |s| ==> r[i] == LowerChar(s[i])
  {
    if s == [] then [] else [LowerChar(s[0])] + ToLower(s[1..])
  }

  /** Lower-casing an already lower-cased string changes nothing. */
  lemma ToLowerIdempotent(s: string)
    ensures ToLower(ToLower(s)) == ToLower(s)
  {
  }

  /** `hay.includes(needle)`: `needle` is a prefix of some suffix of `hay`. */
  function Includes(hay: string, needle: string): (b: bool)
    decreases |hay|
    ensures needle == [] ==> b
    ensures b ==> |needle| <= |hay|
  {
    needle <= hay || (hay != [] && Includes(hay[1..], needle))
  }

  /** `needle` occurs in `hay` starting at position `i`. */
  predicate OccursAt(hay: string, needle: string, i: int)
  {
    0 <= i && i + |needle| <= |hay| && hay[i..i + |needle|] == needle
  }

  /** `Includes` agrees with the positional definition of a substring. */
  lemma {:induction false} IncludesIffOccurs(hay: string, needle: string)
    ensures Includes(hay, needle) <==> exists i :: OccursAt(hay, needle, i)
  {
    var n := |needle|;
    if Includes(hay, needle) {
      if needle <= hay {
        assert OccursAt(hay, needle, 0);
      } else {
        IncludesIffOccurs(hay[1..], needle);
        var j :| OccursAt(hay[1..], needle, j);
        var inTail, inHay := hay[1..][j..j + n], hay[j + 1..j + 1 + n];
        assert forall k :: 0 <= k < n ==> inTail[k] == inHay[k];
        assert OccursAt(hay, needle, j + 1);
      }
    }
    if exists i :: OccursAt(hay, needle, i) {
      var i :| OccursAt(hay, needle, i);
      if i == 0 {
        assert needle <= hay;
      } else {
        var inTail, inHay := hay[1..][i - 1..i - 1 + n], hay[i..i + n];
        assert forall k :: 0 <= k < n ==> inTail[k] == inHay[k];
        assert OccursAt(hay[1..], needle, i - 1);
        IncludesIffOccurs(hay[1..], needle);
      }
    }
  }

  /** The empty string occurs in every string. */
  lemma IncludesEmpty(hay: string)
    ensures Includes(hay, "")
  {
  }
}
