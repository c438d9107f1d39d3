/** Well-formed UTF-8 (RFC 3629, section 4). */
module Utf8 {
  import opened Common

  predicate Tail(b: byte) {
    0x80 <= b <= 0xBF
  }

  /** The length of the well-formed character that `s` starts with; 0 if there is none. */
  function FirstCharLen(s: Bytes): (n: nat)
    ensures n <= |s| && (s == [] ==> n == 0)
  {
    if s == [] then 0
    else if s[0] <= 0x7F then 1
    else if |s| >= 2 && 0xC2 <= s[0] <= 0xDF && Tail(s[1]) then 2
    else if |s| >= 3 && Tail(s[2])
            && ((s[0] == 0xE0 && 0xA0 <= s[1] <= 0xBF)
                || (s[0] == 0xED && 0x80 <= s[1] <= 0x9F)
                || (0xE1 <= s[0] <= 0xEF && s[0] != 0xED && Tail(s[1]))) then 3
    else if |s| >= 4 && Tail(s[2]) && Tail(s[3])
            && ((s[0] == 0xF0 && 0x90 <= s[1] <= 0xBF)
                || (s[0] == 0xF4 && 0x80 <= s[1] <= 0x8F)
                || (0xF1 <= s[0] <= 0xF3 && Tail(s[1]))) then 4
    else 0
  }

  predicate Valid(s: Bytes)
    decreases |s|
  {
    s == [] || (FirstCharLen(s) > 0 && Valid(s[FirstCharLen(s)..]))
  }

  /** Overlong forms, surrogates, code points above U+10FFFF, lone tails and cut characters are not
      well formed; the last character before each gap is. */
  lemma Vectors()
    ensures !Valid([0xC0, 0x80]) && !Valid([0xC1, 0xBF]) && !Valid([0xE0, 0x9F, 0xBF]) && !Valid([0xF0, 0x8F, 0xBF, 0xBF])
    ensures !Valid([0xED, 0xA0, 0x80]) && !Valid([0xF4, 0x90, 0x80, 0x80]) && !Valid([0x80]) && !Valid([0xE2, 0x82])
    ensures Valid([0xC2, 0x80]) && Valid([0xE0, 0xA0, 0x80]) && Valid([0xED, 0x9F, 0xBF]) && Valid([0xEE, 0x80, 0x80])
    ensures Valid([0xF0, 0x90, 0x80, 0x80]) && Valid([0xF4, 0x8F, 0xBF, 0xBF])
  {
  }

  lemma {:induction false} AsciiValid(s: Bytes)
    requires forall i :: 0 <= i < |s| ==> s[i] < 0x80
    ensures Valid(s)
  {
    if s != [] {
      AsciiValid(s[1..]);
    }
  }
}
