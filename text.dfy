/** ASCII letter case, shared by id parsing and name matching. */
module Text {

  /** Folds an ASCII upper-case letter to lower case; other characters are kept. */
  function LowerChar(c: char): (l: char)
    ensures ('A' <= c <= 'Z') <==> ('a' <= l <= 'z' && l != c)
  {
    if 'A' <= c <= 'Z' then (c as int - 'A' as int + 'a' as int) as char else c
  }

  /** `s` with every ASCII upper-case letter folded to lower case. */
  function Lower(s: string): (r: string)
    ensures |r| == |s|
  {
    seq(|s|, i requires 0 <= i < |s| => LowerChar(s[i]))
  }
}
