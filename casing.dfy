/**
 * The part of `str.lower()` and `str.title()` that category names need: the
 * basic Latin letters and the Cyrillic block U+0400..U+045F. Every other
 * character is left as it is.
 */
module Casing {

  function LowerChar(c: char): (l: char) {
    if 'A' <= c <= 'Z' then ((c as int) + 32) as char
    else if 'А' <= c <= 'Я' then ((c as int) + 32) as char   // А..Я -> а..я
    else if 'Ѐ' <= c <= 'Џ' then ((c as int) + 80) as char   // Ѐ..Џ, Ё among them -> ѐ..џ
    else c
  }

  function UpperChar(c: char): (u: char) {
    if 'a' <= c <= 'z' then ((c as int) - 32) as char
    else if 'а' <= c <= 'я' then ((c as int) - 32) as char
    else if 'ѐ' <= c <= 'џ' then ((c as int) - 80) as char
    else c
  }

  /** `s.lower()`. */
  function Lower(s: string): (r: string)
    ensures |r| == |s| && forall i :: 0 <= i < |s| ==> r[i] == LowerChar(s[i])
  {
    seq(|s|, i requires 0 <= i < |s| => LowerChar(s[i]))
  }

  /**
   * `s.title()` for a string that is one word of letters: the first character
   * upper-cased, the rest lower-cased.
   */
  function TitleWord(s: string): (r: string)
    ensures |r| == |s|
    ensures s != [] ==> r[0] == UpperChar(s[0]) && forall i :: 1 <= i < |s| ==> r[i] == LowerChar(s[i])
  {
    if s == [] then [] else [UpperChar(s[0])] + Lower(s[1..])
  }

  /** Title case keeps the lower-cased form of a one-word string. */
  lemma LowerOfTitle(s: string)
    ensures Lower(TitleWord(s)) == Lower(s)
  {
    if s != [] {
      var t := TitleWord(s);
      assert LowerChar(UpperChar(s[0])) == LowerChar(s[0]);
      forall i | 1 <= i < |s| ensures LowerChar(t[i]) == LowerChar(s[i]) {
        assert t[i] == LowerChar(s[i]);
      }
    }
  }
}
