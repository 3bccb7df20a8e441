/**
 Character classes used by the timestamp-column pattern: letters and digits
 (the characters that are NOT a boundary), letter case, and the whitespace
 class `\s`. Letters, digits and letter case are the ASCII ones; `\s` is the
 full set Python treats as whitespace. See README for what that leaves out.
 */
module Chars {

  predicate IsDigit(c: char) { '0' <= c <= '9' }

  predicate IsUpper(c: char) { 'A' <= c <= 'Z' }

  predicate IsLowerCase(c: char) { 'a' <= c <= 'z' }

  /** Letters and digits: the characters that cannot stand next to a keyword. */
  predicate IsAlnum(c: char) { IsDigit(c) || IsUpper(c) || IsLowerCase(c) }

  /** The whitespace class `\s` of a Python `str` pattern (the characters `str.isspace` accepts). */
  predicate IsSpace(c: char) {
    var n := c as int;
    || n == 0x20
    || 0x09 <= n <= 0x0D
    || 0x1C <= n <= 0x1F
    || n == 0x85 || n == 0xA0 || n == 0x1680
    || 0x2000 <= n <= 0x200A
    || n == 0x2028 || n == 0x2029 || n == 0x202F || n == 0x205F || n == 0x3000
  }

  function ToLower(c: char): (r: char)
    ensures !IsUpper(r)
    ensures IsAlnum(r) <==> IsAlnum(c)
    ensures IsUpper(c) ==> IsLowerCase(r) && r as int - c as int == 32
    ensures !IsUpper(c) ==> r == c
  {
    if IsUpper(c) then (c as int + 32) as char else c
  }

  function ToUpper(c: char): (r: char)
    ensures !IsLowerCase(r)
    ensures IsAlnum(r) <==> IsAlnum(c)
    ensures IsLowerCase(c) ==> IsUpper(r) && c as int - r as int == 32
    ensures !IsLowerCase(c) ==> r == c
  {
    if IsLowerCase(c) then (c as int - 32) as char else c
  }

  /** `s` with every upper-case letter replaced by its lower-case form. */
  function Lower(s: string): (r: string)
    ensures |r| == |s|
    ensures forall i :: 0 <= i < |s| ==> r[i] == ToLower(s[i])
  {
    seq(|s|, i requires 0 <= i < |s| => ToLower(s[i]))
  }

  /** `s` with every lower-case letter replaced by its upper-case form. */
  function Upper(s: string): (r: string)
    ensures |r| == |s|
    ensures forall i :: 0 <= i < |s| ==> r[i] == ToUpper(s[i])
  {
    seq(|s|, i requires 0 <= i < |s| => ToUpper(s[i]))
  }

  /** Changing the case of a letter does not change its lower-case form. */
  lemma ToLowerOfCase(c: char)
    ensures ToLower(ToLower(c)) == ToLower(c)
    ensures ToLower(ToUpper(c)) == ToLower(c)
  {
  }
}
