/** String primitives that the line scanner and the output formatter rely on:
    Python's `str.rstrip()` with no argument and the decimal rendering of a
    line number inside an f-string. */
module Text {

  /** Python's `str.isspace()` for one character: the ASCII controls TAB to CR,
      the four information separators, SPACE, NEXT LINE, NO-BREAK SPACE and the
      Unicode space separators and line/paragraph separators. */
  predicate IsSpace(c: char) {
    || ('\t' <= c <= '\r')
    || ('\U{1C}' <= c <= '\U{1F}')
    || c == ' '
    || c == '\U{85}'
    || c == '\U{A0}'
    || c == '\U{1680}'
    || ('\U{2000}' <= c <= '\U{200A}')
    || c == '\U{2028}'
    || c == '\U{2029}'
    || c == '\U{202F}'
    || c == '\U{205F}'
    || c == '\U{3000}'
  }

  /** `s.rstrip()`: removes every trailing whitespace character, not only the
      line terminator. The result is a prefix of `s` that does not end in
      whitespace, and everything that was cut off is whitespace. */
  function RStrip(s: string): (r: string)
    ensures r <= s
    ensures r == [] || !IsSpace(r[|r| - 1])
    ensures forall i :: |r| <= i < |s| ==> IsSpace(s[i])
  {
    if s != [] && IsSpace(s[|s| - 1]) then RStrip(s[..|s| - 1]) else s
  }

  /** The three properties in RStrip's contract determine its result: any
      prefix of `s` that does not end in whitespace and leaves only whitespace
      behind is `s.rstrip()`. */
  lemma RStripUnique(s: string, r: string)
    requires r <= s
    requires r == [] || !IsSpace(r[|r| - 1])
    requires forall i :: |r| <= i < |s| ==> IsSpace(s[i])
    ensures r == RStrip(s)
  {
  }

  /** Stripping twice is stripping once. */
  lemma RStripIdempotent(s: string)
    ensures RStrip(RStrip(s)) == RStrip(s)
  {
    var r := RStrip(s);
    RStripUnique(r, r);
  }

  /** A line made of text that does not end in whitespace, followed by any
      run of whitespace (a "\n", a "\r\n", trailing blanks), strips back to
      that text. */
  lemma RStripDropsTrailingSpace(text: string, tail: string)
    requires text == [] || !IsSpace(text[|text| - 1])
    requires forall i :: 0 <= i < |tail| ==> IsSpace(tail[i])
    ensures RStrip(text + tail) == text
  {
    var s := text + tail;
    forall i | |text| <= i < |s|
      ensures IsSpace(s[i])
    {
      assert s[i] == tail[i - |text|];
    }
    RStripUnique(s, text);
  }

  /** The character for a decimal digit. */
  function DigitChar(d: nat): (c: char)
    requires d < 10
    ensures '0' <= c <= '9'
  {
    ['0', '1', '2', '3', '4', '5', '6', '7', '8', '9'][d]
  }

  /** The value of a decimal digit character. */
  function DigitValue(c: char): (d: nat)
    requires '0' <= c <= '9'
    ensures d < 10
  {
    (c as int - '0' as int) as nat
  }

  predicate IsDecimal(s: string) {
    forall i :: 0 <= i < |s| ==> '0' <= s[i] <= '9'
  }

  /** `str(n)` for a non-negative int, as an f-string renders `{n}`: decimal
      digits, at least one, with a leading zero only for zero itself. */
  function NatToString(n: nat): (r: string)
    ensures |r| >= 1 && IsDecimal(r)
    ensures r[0] == '0' <==> n == 0
  {
    if n < 10 then [DigitChar(n)] else NatToString(n / 10) + [DigitChar(n % 10)]
  }

  /** The value of a string of decimal digits, read most significant first. */
  function DecimalValue(s: string): nat
    requires IsDecimal(s)
  {
    if s == [] then 0 else DecimalValue(s[..|s| - 1]) * 10 + DigitValue(s[|s| - 1])
  }

  /** Reading the rendered line number back gives the line number. */
  lemma {:induction false} DecimalValueOfNatToString(n: nat)
    ensures DecimalValue(NatToString(n)) == n
  {
    var s := NatToString(n);
    if n < 10 {
      assert s[..0] == [];
    } else {
      DecimalValueOfNatToString(n / 10);
      assert s[..|s| - 1] == NatToString(n / 10);
    }
  }

  /** Different line numbers are rendered differently. */
  lemma NatToStringInjective(m: nat, n: nat)
    requires NatToString(m) == NatToString(n)
    ensures m == n
  {
    DecimalValueOfNatToString(m);
    DecimalValueOfNatToString(n);
  }
}
