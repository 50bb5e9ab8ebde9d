/** Searching text for a character. */
module Strings {
  predicate Lacks(s: string, c: char) { c !in s }

  /** The first place of c in s from position i on, or the end. */
  function Find(s: string, c: char, i: nat): (j: nat)
    requires i <= |s|
    ensures i <= j <= |s| && Lacks(s[i..j], c) && (j < |s| ==> s[j] == c)
    decreases |s| - i
  {
    if i == |s| || s[i] == c then i else
    var j := Find(s, c, i + 1);
    assert s[i..j] == [s[i]] + s[i + 1..j];
    j
  }
}
