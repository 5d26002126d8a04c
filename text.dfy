/** The pieces of Ruby's String and Integer behaviour that the core relies on. */
module Text {

  predicate IsLower(c: char) { 'a' <= c <= 'z' }

  /** One character of `String#upcase!` on ASCII text. */
  function UpcaseChar(c: char): char {
    if IsLower(c) then (c as int - 32) as char else c
  }

  /** `String#upcase!` restricted to ASCII letters, which is all the decoder ever feeds it. */
  function Upcase(s: string): (r: string)
    ensures |r| == |s|
    ensures forall i :: 0 <= i < |s| ==> r[i] == UpcaseChar(s[i])
    ensures forall i :: 0 <= i < |s| ==> !IsLower(r[i])
  {
    seq(|s|, i requires 0 <= i < |s| => UpcaseChar(s[i]))
  }

  /** The whitespace of Ruby's `split(' ')`: space, tab, newline, vertical tab, form feed, return. */
  predicate IsAsciiSpace(c: char) {
    c == ' ' || c == '\t' || c == '\n' || c == '\U{B}' || c == '\U{C}' || c == '\r'
  }

  /** `str[n..]` when `str[0, n] = ''` is applied: the slice is clamped to the string. */
  function DeletePrefix(s: string, n: nat): (r: string)
    ensures |s| <= n ==> r == []
    ensures n < |s| ==> s == s[..n] + r
  {
    if n <= |s| then s[n..] else []
  }

  const DecimalDigits := "0123456789"

  /** `Integer#to_s` for a natural number. */
  function NatToDecimal(n: nat): (r: string)
    ensures |r| > 0
    decreases n
  {
    if n < 10 then [DecimalDigits[n]] else NatToDecimal(n / 10) + [DecimalDigits[n % 10]]
  }

  /** `Integer#to_s`. */
  function IntToDecimal(n: int): string {
    if n < 0 then "-" + NatToDecimal(-n) else NatToDecimal(n)
  }
}
