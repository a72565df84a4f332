/** Text as strings of one-byte characters. */
module Text {

  function LowerChar(c: char): char {
    if 'A' <= c <= 'Z' then (c as int + 32) as char else c
  }

  function Lower(s: string): (t: string)
    ensures |t| == |s| && forall i :: 0 <= i < |s| ==> t[i] == LowerChar(s[i])
  {
    if s == "" then "" else [LowerChar(s[0])] + Lower(s[1..])
  }

  const UPPER_CASE: string := "ABCDEFGHIJKLMNOPQRSTUVWXYZ"
  const LOWER_CASE: string := "abcdefghijklmnopqrstuvwxyz"

  lemma LetterIsLowered(c: char, k: nat)
    requires k < 26
    ensures c == UPPER_CASE[k] ==> LowerChar(c) == LOWER_CASE[k]
    ensures c !in UPPER_CASE ==> LowerChar(c) == c
  {
    assert UPPER_CASE[k] as int == 'A' as int + k && LOWER_CASE[k] as int == 'a' as int + k;
    if 'A' <= c <= 'Z' {
      assert c == UPPER_CASE[c as int - 'A' as int];
    }
  }

  /** Letters become the same letters in lower case, and every other character stays. */
  lemma {:induction false} LowerIsLetterwise(s: string, i: nat, k: nat)
    requires i < |s| && k < 26
    ensures |Lower(s)| == |s|
    ensures s[i] == UPPER_CASE[k] ==> Lower(s)[i] == LOWER_CASE[k]
    ensures s[i] !in UPPER_CASE ==> Lower(s)[i] == s[i]
  {
    LetterIsLowered(s[i], k);
    hide LowerChar;
  }
}
