/** The few JavaScript built-ins that the dashboard's logic leans on: String.prototype.trim,
    String.prototype.padStart, Number.prototype.toString on integers and the global parseInt.
    Strings are sequences of Unicode characters. */
module JsText {

  datatype Option<+T> = None | Some(value: T)

  /** The WhiteSpace and LineTerminator code points of ECMAScript: what trim removes and
      what parseInt skips before the number. */
  predicate IsSpace(c: char) {
    || c == '\t' || c == '\n' || c == '\U{000B}' || c == '\U{000C}' || c == '\r' || c == ' '
    || c == '\U{00A0}' || c == '\U{1680}' || ('\U{2000}' <= c <= '\U{200A}')
    || c == '\U{2028}' || c == '\U{2029}' || c == '\U{202F}' || c == '\U{205F}'
    || c == '\U{3000}' || c == '\U{FEFF}'
  }

  predicate AllSpace(s: string) {
    forall i :: 0 <= i < |s| ==> IsSpace(s[i])
  }

  /** Drops the leading white space. */
  function TrimStart(s: string): (r: string)
    ensures |r| <= |s| && r == s[|s| - |r|..]
    ensures r == [] || !IsSpace(r[0])
    ensures AllSpace(s[..|s| - |r|])
  {
    if s != [] && IsSpace(s[0]) then TrimStart(s[1..]) else s
  }

  /** String.prototype.trim: the white space at both ends is dropped; the result has no white
      space at either end, and it is empty exactly when the input is all white space. */
  function Trim(s: string): (r: string)
    ensures |r| <= |s|
    ensures r == [] || (!IsSpace(r[0]) && !IsSpace(r[|r| - 1]))
    ensures r == [] <==> AllSpace(s)
    decreases |s|
  {
    if s != [] && IsSpace(s[0]) then
      assert forall i :: 1 <= i < |s| ==> s[i] == s[1..][i - 1];
      Trim(s[1..])
    else if s != [] && IsSpace(s[|s| - 1]) then
      assert forall i :: 0 <= i < |s| - 1 ==> s[i] == s[..|s| - 1][i];
      Trim(s[..|s| - 1])
    else s
  }

  /** t is the slice of s starting at i, with only white space around it. */
  predicate SliceBetweenSpaces(s: string, t: string, i: nat) {
    i + |t| <= |s| && t == s[i..i + |t|] && AllSpace(s[..i]) && AllSpace(s[i + |t|..])
  }

  /** Putting a white-space character in front keeps a slice between white space, one further on. */
  lemma SliceAfterSpace(c: char, u: string, t: string, i: nat)
    requires IsSpace(c) && SliceBetweenSpaces(u, t, i)
    ensures SliceBetweenSpaces([c] + u, t, i + 1)
  {
    var s := [c] + u;
    assert s[i + 1..i + 1 + |t|] == u[i..i + |t|];
    assert s[i + 1 + |t|..] == u[i + |t|..];
    assert s[..i + 1] == [c] + u[..i];
  }

  /** Putting a white-space character behind keeps a slice between white space where it is. */
  lemma SliceBeforeSpace(u: string, c: char, t: string, i: nat)
    requires IsSpace(c) && SliceBetweenSpaces(u, t, i)
    ensures SliceBetweenSpaces(u + [c], t, i)
  {
    var s := u + [c];
    assert s[i..i + |t|] == u[i..i + |t|];
    assert s[..i] == u[..i];
    assert s[i + |t|..] == u[i + |t|..] + [c];
  }

  /** How much white space trim drops at the front. */
  function TrimOffset(s: string): nat
    decreases |s|
  {
    if s != [] && IsSpace(s[0]) then TrimOffset(s[1..]) + 1
    else if s != [] && IsSpace(s[|s| - 1]) then TrimOffset(s[..|s| - 1])
    else 0
  }

  /** What trim keeps: the input with only the white space at its two ends taken off. */
  lemma {:induction false} TrimSlice(s: string)
    ensures SliceBetweenSpaces(s, Trim(s), TrimOffset(s))
    decreases |s|
  {
    if s != [] && IsSpace(s[0]) {
      var u := s[1..];
      assert Trim(s) == Trim(u) && TrimOffset(s) == TrimOffset(u) + 1 && [s[0]] + u == s;
      TrimSlice(u);
      SliceAfterSpace(s[0], u, Trim(u), TrimOffset(u));
    } else if s != [] && IsSpace(s[|s| - 1]) {
      var u := s[..|s| - 1];
      assert Trim(s) == Trim(u) && TrimOffset(s) == TrimOffset(u) && u + [s[|s| - 1]] == s;
      TrimSlice(u);
      SliceBeforeSpace(u, s[|s| - 1], Trim(u), TrimOffset(u));
    } else {
      assert s[..0] == [] && s[|s|..] == [];
    }
  }

  /** String.prototype.padStart(width, fill) with a one-character filler. */
  function PadStart(s: string, width: nat, fill: char): (r: string)
    ensures |r| == if |s| >= width then |s| else width
    ensures r[|r| - |s|..] == s
    ensures forall i :: 0 <= i < |r| - |s| ==> r[i] == fill
  {
    if |s| >= width then s else seq(width - |s|, _ => fill) + s
  }

  // ---- digits -----------------------------------------------------------------------------

  predicate IsDigit(c: char) {
    '0' <= c <= '9'
  }

  /** A digit of base 10, or of base 16 (either letter case), the two bases parseInt uses here. */
  predicate IsRadixDigit(c: char, hex: bool) {
    IsDigit(c) || (hex && ('a' <= c <= 'f' || 'A' <= c <= 'F'))
  }

  predicate AllRadixDigits(s: string, hex: bool) {
    forall i :: 0 <= i < |s| ==> IsRadixDigit(s[i], hex)
  }

  function DigitValue(c: char, hex: bool): (d: nat)
    requires IsRadixDigit(c, hex)
    ensures d < if hex then 16 else 10
  {
    if IsDigit(c) then c as int - '0' as int
    else if 'a' <= c <= 'f' then c as int - 'a' as int + 10
    else c as int - 'A' as int + 10
  }

  function DigitChar(d: nat): (c: char)
    requires d < 10
    ensures IsDigit(c) && DigitValue(c, false) == d
  {
    ('0' as int + d) as char
  }

  /** The number a string of digits denotes, most significant digit first. */
  function DigitsValue(s: string, hex: bool): nat
    requires AllRadixDigits(s, hex)
  {
    if s == [] then 0
    else if hex then DigitsValue(s[..|s| - 1], hex) * 16 + DigitValue(s[|s| - 1], hex)
    else DigitsValue(s[..|s| - 1], hex) * 10 + DigitValue(s[|s| - 1], hex)
  }

  /** Number.prototype.toString() of a non-negative integer: its decimal digits, with no
      leading zero except for zero itself. */
  function NatString(n: nat): (s: string)
    ensures s != [] && AllRadixDigits(s, false)
    ensures s[0] == '0' <==> n == 0
    ensures n < 10 <==> |s| == 1
    decreases n
  {
    if n < 10 then [DigitChar(n)] else NatString(n / 10) + [DigitChar(n % 10)]
  }

  /** Number.prototype.toString() of an integer (one below 10^21, where JavaScript would switch
      to exponent notation). */
  function DecimalString(n: int): (s: string)
    ensures s != []
  {
    if n < 0 then "-" + NatString(-n) else NatString(n)
  }

  /** Reading the digits of NatString back gives the number. */
  lemma {:induction false} NatStringValue(n: nat)
    ensures DigitsValue(NatString(n), false) == n
  {
    if n >= 10 {
      NatStringValue(n / 10);
      var s := NatString(n);
      assert s[..|s| - 1] == NatString(n / 10);
    }
  }

  /** The longest prefix of s that is made of digits of the base. */
  function DigitPrefix(s: string, hex: bool): (p: string)
    ensures |p| <= |s| && p == s[..|p|] && AllRadixDigits(p, hex)
    ensures |p| == |s| || !IsRadixDigit(s[|p|], hex)
  {
    if s != [] && IsRadixDigit(s[0], hex) then [s[0]] + DigitPrefix(s[1..], hex) else []
  }

  lemma {:induction false} DigitPrefixOfDigits(s: string, hex: bool)
    requires AllRadixDigits(s, hex)
    ensures DigitPrefix(s, hex) == s
  {
    if s != [] {
      DigitPrefixOfDigits(s[1..], hex);
    }
  }

  /** The global parseInt(s) with no radix argument; None stands for NaN. Leading white space
      is skipped, then the sign and the number are read. */
  function ParseInt(s: string): (r: Option<int>)
    ensures AllSpace(s) ==> r == None
  {
    ParseSigned(TrimStart(s))
  }

  /** One optional sign, then the magnitude; a minus sign negates it. */
  function ParseSigned(t: string): Option<int> {
    if t != [] && (t[0] == '-' || t[0] == '+') then
      match ParseMagnitude(t[1..])
      case None => None
      case Some(m) => Some(if t[0] == '-' then -(m as int) else m)
    else ParseMagnitude(t)
  }

  /** A "0x"/"0X" prefix switches to base 16, and the number is read from the longest run of
      digits that follows; no digit at all is NaN. */
  function ParseMagnitude(u: string): Option<nat> {
    var hex := |u| >= 2 && u[0] == '0' && (u[1] == 'x' || u[1] == 'X');
    var digits := DigitPrefix(if hex then u[2..] else u, hex);
    if digits == [] then None else Some(DigitsValue(digits, hex))
  }

  /** The digits toString writes for a non-negative integer read back as that integer. */
  lemma MagnitudeOfNatString(m: nat)
    ensures ParseMagnitude(NatString(m)) == Some(m)
  {
    var digits := NatString(m);
    assert !(|digits| >= 2 && digits[0] == '0');
    DigitPrefixOfDigits(digits, false);
    NatStringValue(m);
  }

  /** toString starts with a minus sign or a digit, never with white space. */
  lemma DecimalStringHead(n: int)
    ensures !IsSpace(DecimalString(n)[0])
  {
    var s := DecimalString(n);
    assert s[0] == '-' || IsDigit(s[0]);
  }

  /** parseInt reads back what toString wrote: a decimal string of an integer parses to it. */
  lemma ParseIntDecimalString(n: int)
    ensures ParseInt(DecimalString(n)) == Some(n)
  {
    var s := DecimalString(n);
    assert TrimStart(s) == s by {
      DecimalStringHead(n);
    }
    if n < 0 {
      assert ParseSigned(s) == Some(n) by {
        assert s[1..] == NatString(-n);
        MagnitudeOfNatString(-n);
      }
    } else {
      assert ParseSigned(s) == Some(n) by {
        MagnitudeOfNatString(n);
      }
    }
  }
}
