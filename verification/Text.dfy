/** The string operations the sources take from the JavaScript library. */
module Text {
  /** White space, as `trim` and `\s` understand it. */
  predicate IsSpace(c: char) {
    var n := c as int;
    9 <= n <= 13 || n == 0x20 || n == 0xA0 || n == 0x1680 || 0x2000 <= n <= 0x200A || n == 0x2028 || n == 0x2029
    || n == 0x202F || n == 0x205F || n == 0x3000 || n == 0xFEFF
  }

  /** The code points of ECMAScript's white space and line terminators. */
  const WHITE_SPACE: set<int> := {
    0x9, 0xA, 0xB, 0xC, 0xD, 0x20, 0xA0, 0x1680, 0x2000, 0x2001, 0x2002, 0x2003, 0x2004, 0x2005, 0x2006, 0x2007, 0x2008, 0x2009,
    0x200A, 0x2028, 0x2029, 0x202F, 0x205F, 0x3000, 0xFEFF}

  lemma WhiteSpaceIsNamed(c: char)
    ensures IsSpace(c) <==> c as int in WHITE_SPACE
  {
  }

  function TrimStart(s: string): string {
    if s != [] && IsSpace(s[0]) then TrimStart(s[1..]) else s
  }

  function TrimEnd(s: string): string {
    if s != [] && IsSpace(s[|s| - 1]) then TrimEnd(s[..|s| - 1]) else s
  }

  /** `trim`. */
  function Trim(s: string): string {
    TrimEnd(TrimStart(s))
  }

  lemma PlainEndsStay(s: string)
    requires s != [] ==> !IsSpace(s[0]) && !IsSpace(s[|s| - 1])
    ensures Trim(s) == s
  {
  }

  function LowerChar(c: char): char {
    if 'A' <= c <= 'Z' then (c as int + 32) as char else c
  }

  const CAPITALS: seq<string> := ["ABCDEFGHIJKLM", "NOPQRSTUVWXYZ"]
  const SMALL: seq<string> := ["abcdefghijklm", "nopqrstuvwxyz"]

  /** The capitals become small letters, and nothing else changes. */
  lemma LettersAreLowered(row: nat, i: nat, c: char)
    requires row < 2 && i < 13
    ensures LowerChar(CAPITALS[row][i]) == SMALL[row][i]
    ensures c < 'A' || 'Z' < c ==> LowerChar(c) == c
  {
  }

  /** `toLowerCase`, on the letters that can become hexadecimal digits. */
  function Lower(s: string): string {
    seq(|s|, i requires 0 <= i < |s| => LowerChar(s[i]))
  }

  /** `trim().toLowerCase()`. */
  function Normal(s: string): string {
    Lower(Trim(s))
  }
}
