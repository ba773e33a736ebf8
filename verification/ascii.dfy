/** ASCII case mapping. Python's str.lower() maps all of Unicode; only the
    ASCII letters are mapped here. */
module Ascii {

  function LowerChar(c: char): (d: char)
    ensures 'A' <= c <= 'Z' ==> 'a' <= d <= 'z'
    ensures !('A' <= c <= 'Z') ==> d == c
  {
    if 'A' <= c <= 'Z' then (c as int - 'A' as int + 'a' as int) as char else c
  }

  /** Lowercases a string character by character. */
  function Lower(s: string): (r: string)
    ensures |r| == |s|
  {
    if |s| == 0 then [] else [LowerChar(s[0])] + Lower(s[1..])
  }

  /** a and b are the same string up to the case of ASCII letters. */
  ghost predicate EqualIgnoringCase(a: string, b: string) {
    |a| == |b| && forall i :: 0 <= i < |a| ==> LowerChar(a[i]) == LowerChar(b[i])
  }

  predicate IsLowerCase(s: string) {
    forall i :: 0 <= i < |s| ==> !('A' <= s[i] <= 'Z')
  }

  /** Lower maps each character by LowerChar. */
  lemma {:induction false} LowerAt(s: string, i: int)
    requires 0 <= i < |s|
    ensures Lower(s)[i] == LowerChar(s[i])
  {
    if i > 0 {
      LowerAt(s[1..], i - 1);
    }
  }

  /** Comparing the lowercased form of a string with a lowercase word is a
      case-insensitive comparison with that word. */
  lemma LowerEqualsIffIgnoringCase(s: string, word: string)
    requires IsLowerCase(word)
    ensures Lower(s) == word <==> EqualIgnoringCase(s, word)
  {
    forall i | 0 <= i < |s|
      ensures Lower(s)[i] == LowerChar(s[i])
    {
      LowerAt(s, i);
    }
    if EqualIgnoringCase(s, word) {
      assert forall i :: 0 <= i < |word| ==> LowerChar(word[i]) == word[i];
      assert Lower(s) == word;
    }
  }
}
