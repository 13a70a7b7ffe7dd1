/** Character classes and number formatting of the Rust standard library, as used on tool names, ids and lines. */
module Chars {
  /** Unicode White_Space. */
  predicate IsWhitespace(c: char) {
    var n := c as int;
    9 <= n <= 13 || n == 0x20 || n == 0x85 || n == 0xA0 || n == 0x1680 || 0x2000 <= n <= 0x200A
    || n == 0x2028 || n == 0x2029 || n == 0x202F || n == 0x205F || n == 0x3000
  }

  /** `s.trim()` is empty. */
  predicate IsBlank(s: string) { forall i :: 0 <= i < |s| ==> IsWhitespace(s[i]) }

  predicate IsAsciiAlphanumeric(c: char) { '0' <= c <= '9' || 'a' <= c <= 'z' || 'A' <= c <= 'Z' }

  function ToAsciiLower(c: char): char { if 'A' <= c <= 'Z' then c - 'A' + 'a' else c }

  function Lower(s: string): string { seq(|s|, i requires 0 <= i < |s| => ToAsciiLower(s[i])) }

  /** The decimal digits of a number, the most significant first. */
  function Digits(n: nat): (d: seq<nat>)
    ensures d != [] && forall i :: 0 <= i < |d| ==> d[i] < 10
  {
    if n < 10 then [n] else Digits(n / 10) + [n % 10]
  }

  function DecimalText(n: nat): (s: string)
    ensures s != "" && forall i :: 0 <= i < |s| ==> '0' <= s[i] <= '9'
  {
    var d := Digits(n);
    seq(|d|, i requires 0 <= i < |d| => '0' + d[i] as char)
  }

  /** Bytes of one scalar value in UTF-8 (RFC 3629, section 3). */
  function CharBytes(c: char): (n: nat)
    ensures 1 <= n <= 4
  {
    if c as int < 0x80 then 1 else if c as int < 0x800 then 2 else if c as int < 0x1_0000 then 3 else 4
  }

  /** The code points of Unicode White_Space. */
  lemma WhitespaceIs(c: char)
    ensures IsWhitespace(c) <==>
      c as int in {9, 10, 11, 12, 13, 32, 133, 160, 5760, 8192, 8193, 8194, 8195, 8196, 8197, 8198, 8199, 8200, 8201, 8202,
                   8232, 8233, 8239, 8287, 12288}
  {
  }

  /** UTF-8 takes a further byte from 128, 2048 and 65536 on. */
  lemma CharBytesAre(c: char)
    ensures CharBytes(c) == 1 + (if c as int >= 128 then 1 else 0) + (if c as int >= 2048 then 1 else 0)
                              + (if c as int >= 65536 then 1 else 0)
  {
  }

  function ByteLength(s: string): nat {
    if s == [] then 0 else CharBytes(s[0]) + ByteLength(s[1..])
  }
}
