/**
 * How the decoder renders one code point: `sprintf("%#x", code)`, then the first two
 * characters deleted in place, then `upcase!`.
 */
module HexFormat {
  import opened Text

  const LowerHexDigits := "0123456789abcdef"
  const UpperHexDigits := "0123456789ABCDEF"

  /** The hexadecimal digits of n in lower case, most significant first, without leading zeros. */
  function LowerHex(n: nat): (r: string)
    ensures |r| > 0
    decreases n
  {
    if n < 16 then [LowerHexDigits[n]] else LowerHex(n / 16) + [LowerHexDigits[n % 16]]
  }

  /**
   * `sprintf("%#x", n)`: the `#` flag prefixes "0x" to a non-zero value only, so 0 prints as
   * the bare "0"; after the prefix come the hexadecimal digits of n.
   */
  function AlternateHex(n: nat): (r: string)
    ensures n == 0 ==> r == "0"
    ensures n > 0 ==> |r| > 2 && r[..2] == "0x" && Upcase(r[2..]) == UpperHex(n)
  {
    if n == 0 then "0"
    else
      UpcaseLowerHex(n);
      assert ("0x" + LowerHex(n))[2..] == LowerHex(n);
      "0x" + LowerHex(n)
  }

  /**
   * One element of the decoder's output: `%#x`, `[0, 2] = ''`, `upcase!`. A non-zero code
   * point comes out as its upper-case hexadecimal; 0 prints as "0", so cutting two
   * characters leaves nothing.
   */
  function RenderCodePoint(n: nat): (r: string)
    ensures n > 0 ==> r == UpperHex(n)
    ensures n == 0 ==> r == ""
  {
    Upcase(DeletePrefix(AlternateHex(n), 2))
  }

  /** Reference rendering: the digits of n in upper case, without leading zeros. */
  function UpperHex(n: nat): (r: string)
    ensures |r| > 0
    decreases n
  {
    if n < 16 then [UpperHexDigits[n]] else UpperHex(n / 16) + [UpperHexDigits[n % 16]]
  }

  predicate IsUpperHexDigit(c: char) {
    '0' <= c <= '9' || 'A' <= c <= 'F'
  }

  predicate IsUpperHexString(s: string) {
    forall i :: 0 <= i < |s| ==> IsUpperHexDigit(s[i])
  }

  function HexDigitValue(c: char): (v: nat)
    requires IsUpperHexDigit(c)
    ensures v < 16
  {
    if c <= '9' then c as int - '0' as int else c as int - 'A' as int + 10
  }

  /** Reads an upper-case hexadecimal string back as a number; "" reads as 0. */
  function ParseHex(s: string): nat
    requires IsUpperHexString(s)
  {
    if s == [] then 0 else ParseHex(s[..|s| - 1]) * 16 + HexDigitValue(s[|s| - 1])
  }

  lemma DigitCase(k: nat)
    requires k < 16
    ensures UpcaseChar(LowerHexDigits[k]) == UpperHexDigits[k]
    ensures IsUpperHexDigit(UpperHexDigits[k]) && HexDigitValue(UpperHexDigits[k]) == k
    ensures k > 0 ==> UpperHexDigits[k] != '0'
  {
  }

  lemma UpcaseAppend(s: string, c: char)
    ensures Upcase(s + [c]) == Upcase(s) + [UpcaseChar(c)]
  {
  }

  lemma {:induction false} UpcaseLowerHex(n: nat)
    ensures Upcase(LowerHex(n)) == UpperHex(n)
    decreases n
  {
    if n < 16 {
      DigitCase(n);
    } else {
      UpcaseLowerHex(n / 16);
      DigitCase(n % 16);
      UpcaseAppend(LowerHex(n / 16), LowerHexDigits[n % 16]);
    }
  }

  /** Upper-case hex digits only, and no leading zero for a non-zero value. */
  lemma {:induction false} UpperHexShape(n: nat)
    ensures IsUpperHexString(UpperHex(n))
    ensures n > 0 ==> UpperHex(n)[0] != '0'
    decreases n
  {
    if n < 16 {
      DigitCase(n);
    } else {
      UpperHexShape(n / 16);
      DigitCase(n % 16);
    }
  }

  /** Reading the reference rendering back as hexadecimal gives the number. */
  lemma {:induction false} ParseUpperHex(n: nat)
    ensures IsUpperHexString(UpperHex(n)) && ParseHex(UpperHex(n)) == n
    decreases n
  {
    UpperHexShape(n);
    if n < 16 {
      DigitCase(n);
      assert UpperHex(n)[..0] == [];
    } else {
      var s := UpperHex(n);
      ParseUpperHex(n / 16);
      DigitCase(n % 16);
      assert s[..|s| - 1] == UpperHex(n / 16);
    }
  }

  /**
   * The round trip of the decoder's output: for a code point above zero, the rendered
   * string is upper-case hex without a leading zero, and reading it back gives the code point.
   */
  lemma RenderRoundTrip(n: nat)
    requires n > 0
    ensures IsUpperHexString(RenderCodePoint(n))
    ensures |RenderCodePoint(n)| > 0 && RenderCodePoint(n)[0] != '0'
    ensures ParseHex(RenderCodePoint(n)) == n
  {
    UpperHexShape(n);
    ParseUpperHex(n);
  }

  /** Distinct non-zero code points render as distinct strings, so they select distinct table keys. */
  lemma RenderInjective(m: nat, n: nat)
    requires m > 0 && n > 0 && RenderCodePoint(m) == RenderCodePoint(n)
    ensures m == n
  {
    RenderRoundTrip(m);
    RenderRoundTrip(n);
  }

  /** U+5409 renders as "5409". */
  lemma KichiRenders()
    ensures RenderCodePoint(0x5409) == "5409"
  {
    assert UpperHex(0x5409) == UpperHex(0x540) + ['9'];
    assert UpperHex(0x540) == UpperHex(0x54) + ['0'];
    assert UpperHex(0x54) == UpperHex(0x5) + ['4'];
  }
}
