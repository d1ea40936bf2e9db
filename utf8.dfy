/**
 * Well-formed UTF-8, as `String::from_utf8` checks it when bincode decodes a `String`:
 * the byte sequences of table 3-7 of the Unicode Standard (no overlong forms, no
 * surrogates, nothing above U+10FFFF).
 */
module Utf8 {

  /** A continuation byte, 10xxxxxx. */
  predicate Continuation(b: bv8) {
    0x80 <= b <= 0xBF
  }

  /** `s` is a concatenation of well-formed UTF-8 code unit sequences. */
  predicate Valid(s: seq<bv8>)
    decreases |s|
  {
    if s == [] then true
    else if s[0] <= 0x7F then Valid(s[1..])
    else if 0xC2 <= s[0] <= 0xDF then
      |s| >= 2 && Continuation(s[1]) && Valid(s[2..])
    else if s[0] == 0xE0 then
      |s| >= 3 && 0xA0 <= s[1] <= 0xBF && Continuation(s[2]) && Valid(s[3..])
    else if (0xE1 <= s[0] <= 0xEC) || (0xEE <= s[0] <= 0xEF) then
      |s| >= 3 && Continuation(s[1]) && Continuation(s[2]) && Valid(s[3..])
    else if s[0] == 0xED then
      |s| >= 3 && 0x80 <= s[1] <= 0x9F && Continuation(s[2]) && Valid(s[3..])
    else if s[0] == 0xF0 then
      |s| >= 4 && 0x90 <= s[1] <= 0xBF && Continuation(s[2]) && Continuation(s[3]) && Valid(s[4..])
    else if 0xF1 <= s[0] <= 0xF3 then
      |s| >= 4 && Continuation(s[1]) && Continuation(s[2]) && Continuation(s[3]) && Valid(s[4..])
    else if s[0] == 0xF4 then
      |s| >= 4 && 0x80 <= s[1] <= 0x8F && Continuation(s[2]) && Continuation(s[3]) && Valid(s[4..])
    else false
  }

  /** Every ASCII byte string is well-formed UTF-8. */
  lemma {:induction false} AsciiIsValid(s: seq<bv8>)
    requires forall i :: 0 <= i < |s| ==> s[i] <= 0x7F
    ensures Valid(s)
  {
    if s != [] {
      AsciiIsValid(s[1..]);
    }
  }

  /** A lone continuation byte, and any of the bytes C0, C1, F5..FF, never starts a well-formed string. */
  lemma InvalidLeads(s: seq<bv8>)
    requires s != [] && (Continuation(s[0]) || s[0] == 0xC0 || s[0] == 0xC1 || s[0] >= 0xF5)
    ensures !Valid(s)
  {
  }
}
