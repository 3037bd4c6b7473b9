/**
 * JavaScript's `parseInt(s, 10)` on strings: leading white space is skipped,
 * an optional sign is read, then the longest run of decimal digits; anything
 * after it is ignored. No digits at all gives NaN, modelled as None.
 */
module JsNumbers {
  import opened Common

  predicate IsDigit(c: char) {
    '0' <= c <= '9'
  }

  function DigitValue(c: char): nat
    requires IsDigit(c)
  {
    (c as int) - ('0' as int)
  }

  function DigitChar(d: nat): (c: char)
    requires d < 10
    ensures IsDigit(c) && DigitValue(c) == d
  {
    ('0' as int + d) as char
  }

  /** The characters `String.prototype.trim` and `parseInt` treat as white space or line terminators. */
  predicate IsJsWhitespace(c: char) {
    || c == '\t' || c == '\n' || c == '\U{B}' || c == '\U{C}' || c == '\r' || c == ' '
    || c == '\U{A0}' || c == '\U{1680}' || ('\U{2000}' <= c <= '\U{200A}')
    || c == '\U{2028}' || c == '\U{2029}' || c == '\U{202F}' || c == '\U{205F}'
    || c == '\U{3000}' || c == '\U{FEFF}'
  }

  /** `s` with its leading white space removed. */
  function TrimStart(s: string): (r: string)
    ensures |r| <= |s|
    ensures r == [] || !IsJsWhitespace(r[0])
  {
    if s != [] && IsJsWhitespace(s[0]) then TrimStart(s[1..]) else s
  }

  /** What `TrimStart` removes is white space, and what it keeps is the rest of `s`. */
  lemma {:induction false} TrimStartDropsWhitespace(s: string)
    ensures TrimStart(s) == s[|s| - |TrimStart(s)|..]
    ensures forall i :: 0 <= i < |s| - |TrimStart(s)| ==> IsJsWhitespace(s[i])
    decreases |s|
  {
    if s != [] && IsJsWhitespace(s[0]) {
      TrimStartDropsWhitespace(s[1..]);
      forall i | 0 <= i < |s| - |TrimStart(s)|
        ensures IsJsWhitespace(s[i])
      {
        if i > 0 {
          assert s[i] == s[1..][i - 1];
        }
      }
    }
  }

  /** The longest prefix of `s` made of decimal digits. */
  function DigitPrefix(s: string): (d: string)
    ensures |d| <= |s|
    ensures forall i :: 0 <= i < |d| ==> IsDigit(d[i])
  {
    if s == [] || !IsDigit(s[0]) then [] else [s[0]] + DigitPrefix(s[1..])
  }

  /** `DigitPrefix` is a prefix of `s`, and no digit follows it. */
  lemma {:induction false} DigitPrefixIsLongest(s: string)
    ensures DigitPrefix(s) == s[..|DigitPrefix(s)|]
    ensures |DigitPrefix(s)| == |s| || !IsDigit(s[|DigitPrefix(s)|])
    decreases |s|
  {
    if s != [] && IsDigit(s[0]) {
      DigitPrefixIsLongest(s[1..]);
      var d := DigitPrefix(s[1..]);
      assert s[..|d| + 1] == [s[0]] + s[1..][..|d|];
      if |d| < |s[1..]| {
        assert s[|d| + 1] == s[1..][|d|];
      }
    }
  }

  /** The number a string of decimal digits denotes, most significant digit first. */
  function DigitsValue(d: string): nat
    requires forall i :: 0 <= i < |d| ==> IsDigit(d[i])
  {
    if d == [] then 0 else 10 * DigitsValue(d[..|d| - 1]) + DigitValue(d[|d| - 1])
  }

  /** Whether `t` begins with a sign character. */
  predicate Signed(t: string) {
    t != [] && (t[0] == '-' || t[0] == '+')
  }

  /** `t` without its sign character, if any. */
  function Unsigned(t: string): (u: string)
    ensures Signed(t) ==> u == t[1..]
    ensures !Signed(t) ==> u == t
  {
    if Signed(t) then t[1..] else t
  }

  /** `parseInt(s, 10)`; None stands for NaN. */
  function ParseInt(s: string): (r: Option<int>)
    ensures r.Some? <==> Unsigned(TrimStart(s)) != [] && IsDigit(Unsigned(TrimStart(s))[0])
  {
    var t := TrimStart(s);
    var digits := DigitPrefix(Unsigned(t));
    if digits == [] then None
    else if t[0] == '-' then Some(-(DigitsValue(digits) as int))
    else Some(DigitsValue(digits))
  }

  /** The result is negative only after a minus sign. */
  lemma ParseIntSign(s: string)
    requires ParseInt(s).Some?
    ensures ParseInt(s).value < 0 ==> TrimStart(s)[0] == '-'
    ensures TrimStart(s)[0] != '-' ==> ParseInt(s).value >= 0
  {
  }

  /** Digits are neither white space nor signs. */
  lemma DigitIsPlain(c: char)
    requires IsDigit(c)
    ensures !IsJsWhitespace(c) && c != '-' && c != '+'
  {
  }

  /** `String(n)` for a natural number: its decimal digits, no sign and no leading zero. */
  function DecimalString(n: nat): (s: string)
    ensures s != []
    ensures forall i :: 0 <= i < |s| ==> IsDigit(s[i])
    ensures |s| > 1 ==> s[0] != '0'
  {
    if n < 10 then [DigitChar(n)] else DecimalString(n / 10) + [DigitChar(n % 10)]
  }

  lemma {:induction false} DecimalStringValue(n: nat)
    ensures DigitsValue(DecimalString(n)) == n
  {
    var s := DecimalString(n);
    if n >= 10 {
      DecimalStringValue(n / 10);
      assert s[..|s| - 1] == DecimalString(n / 10);
    } else {
      assert s[..|s| - 1] == [];
    }
  }

  /** The digit run of a digit string followed by a non-digit (or nothing) is that string. */
  lemma {:induction false} DigitPrefixOfDigits(d: string, rest: string)
    requires forall i :: 0 <= i < |d| ==> IsDigit(d[i])
    requires rest == [] || !IsDigit(rest[0])
    ensures DigitPrefix(d + rest) == d
    decreases |d|
  {
    if d != [] {
      DigitPrefixOfDigits(d[1..], rest);
      assert (d + rest)[1..] == d[1..] + rest;
    } else {
      assert d + rest == rest;
    }
  }

  /** A digit-led string is read as its leading digit run. */
  lemma ParseDigitLedString(u: string)
    requires u != [] && IsDigit(u[0])
    ensures DigitPrefix(u) != []
    ensures ParseInt(u) == Some(DigitsValue(DigitPrefix(u)))
  {
    DigitIsPlain(u[0]);
    assert TrimStart(u) == u;
  }

  /** Reading back a number written in decimal gives that number, whatever non-digit text follows. */
  lemma ParseDecimal(n: nat, rest: string)
    requires rest == [] || !IsDigit(rest[0])
    ensures ParseInt(DecimalString(n) + rest) == Some(n)
  {
    var d := DecimalString(n);
    ParseDigitLedString(d + rest);
    DigitPrefixOfDigits(d, rest);
    DecimalStringValue(n);
  }

  /** Leading white space is skipped whatever follows it, as long as that does not start with white space. */
  lemma {:induction false} TrimWhitespacePrefix(ws: string, t: string)
    requires forall i :: 0 <= i < |ws| ==> IsJsWhitespace(ws[i])
    requires t == [] || !IsJsWhitespace(t[0])
    ensures TrimStart(ws + t) == t
    decreases |ws|
  {
    if ws == [] {
      assert ws + t == t;
    } else {
      assert (ws + t)[0] == ws[0];
      assert (ws + t)[1..] == ws[1..] + t;
      TrimWhitespacePrefix(ws[1..], t);
    }
  }

  /** A number in decimal after white space reads back as itself, whatever non-digit text follows. */
  lemma ParseUnsignedDecimal(ws: string, n: nat, rest: string)
    requires forall i :: 0 <= i < |ws| ==> IsJsWhitespace(ws[i])
    requires rest == [] || !IsDigit(rest[0])
    ensures ParseInt(ws + DecimalString(n) + rest) == Some(n)
  {
    var t := DecimalString(n) + rest;
    assert ws + DecimalString(n) + rest == ws + t;
    assert t[0] == DecimalString(n)[0];
    DigitIsPlain(t[0]);
    TrimWhitespacePrefix(ws, t);
    ParseDecimal(n, rest);
  }

  /** A signed number in decimal after white space reads back as itself: '-' negates, '+' does not. */
  lemma ParseSignedDecimal(ws: string, sign: char, n: nat, rest: string)
    requires forall i :: 0 <= i < |ws| ==> IsJsWhitespace(ws[i])
    requires sign == '-' || sign == '+'
    requires rest == [] || !IsDigit(rest[0])
    ensures ParseInt(ws + [sign] + DecimalString(n) + rest) == Some(if sign == '-' then -(n as int) else n as int)
  {
    var d := DecimalString(n);
    var t := [sign] + d + rest;
    assert ws + [sign] + d + rest == ws + t;
    assert t[0] == sign && !IsJsWhitespace(sign);
    TrimWhitespacePrefix(ws, t);
    assert Unsigned(t) == d + rest;
    DigitPrefixOfDigits(d, rest);
    DecimalStringValue(n);
  }

  /** A digit-led string is read up to its first non-digit: '12abc' is 12. */
  lemma ParseDigitLed()
    ensures ParseInt("12abc") == Some(12)
  {
    assert "12abc" == DecimalString(12) + "abc";
    ParseDecimal(12, "abc");
  }

  /** Leading white space is skipped: '  7' is 7. */
  lemma ParseAfterWhitespace()
    ensures ParseInt("  7") == Some(7)
  {
    assert TrimStart("  7") == "7";
    assert "7" == DecimalString(7) + "";
    ParseDecimal(7, "");
  }

  /** A string that starts with neither white space, a sign nor a digit is NaN. */
  lemma NoLeadingDigitIsNaN(s: string)
    requires s != [] && !IsJsWhitespace(s[0]) && !IsDigit(s[0]) && s[0] != '-' && s[0] != '+'
    ensures ParseInt(s) == None
  {
    assert TrimStart(s) == s;
    assert Unsigned(s) == s;
  }

  /** Letters, a lone sign and the empty string are NaN. */
  lemma ParseNoDigits()
    ensures ParseInt("abc") == None
    ensures ParseInt("") == None
    ensures ParseInt("-x") == None
  {
    NoLeadingDigitIsNaN("abc");
    assert !IsJsWhitespace('-');
    assert TrimStart("-x") == "-x";
    assert Unsigned("-x") == "x";
  }
}
