/** The few Java string operations the parameter checks and request builders use:
    blank-string detection (StringUtils.isBlank over Character.isWhitespace),
    CheckNullEmptyString, and the decimal text String.valueOf gives a number or a
    boolean. */
module JavaStrings {
  import opened MilvusTypes

  /** Character.isWhitespace: the Unicode space, line and paragraph separators other
      than the no-break spaces U+00A0, U+2007 and U+202F, plus the ASCII controls
      TAB, LF, VT, FF, CR and the four information separators U+001C to U+001F. */
  predicate IsWhitespace(c: char)
  {
    || ('\U{9}' <= c <= '\U{D}')
    || ('\U{1C}' <= c <= '\U{20}')
    || c == '\U{1680}'
    || ('\U{2000}' <= c <= '\U{200A}' && c != '\U{2007}')
    || c == '\U{2028}' || c == '\U{2029}'
    || c == '\U{205F}' || c == '\U{3000}'
  }

  /** StringUtils.isBlank on a non-null string: every character is whitespace. */
  predicate IsBlank(s: string)
  {
    forall i :: 0 <= i < |s| ==> IsWhitespace(s[i])
  }

  /** CheckNullEmptyString: a null or blank string is refused under the given name. */
  function CheckNullEmptyString(target: Option<string>, name: string): (r: Outcome)
    ensures r.Fail? ==> r.error == NullOrEmpty(name)
  {
    if target.None? || IsBlank(target.value) then Fail(NullOrEmpty(name)) else Pass
  }

  /** A string passes exactly when it is given and holds a character that is not
      whitespace; in particular the empty string and a string of spaces fail. */
  lemma CheckNullEmptyStringPassIff(target: Option<string>, name: string)
    ensures CheckNullEmptyString(target, name).Pass? <==>
      target.Some? && exists i :: 0 <= i < |target.value| && !IsWhitespace(target.value[i])
    ensures CheckNullEmptyString(Some(""), name).Fail?
    ensures CheckNullEmptyString(Some(" \t\n"), name).Fail?
  {
    var s := " \t\n";
    assert IsWhitespace(s[0]) && IsWhitespace(s[1]) && IsWhitespace(s[2]);
  }

  // ---------------------------------------------------------------- decimal text

  function DigitChar(d: nat): (c: char)
    requires d < 10
    ensures '0' <= c <= '9'
  {
    ['0', '1', '2', '3', '4', '5', '6', '7', '8', '9'][d]
  }

  function DigitValue(c: char): nat
    requires '0' <= c <= '9'
  {
    (c as int - '0' as int) as nat
  }

  predicate IsDigits(s: string)
  {
    forall i :: 0 <= i < |s| ==> '0' <= s[i] <= '9'
  }

  /** The decimal digits of a natural number, most significant first. */
  function Digits(n: nat): (s: string)
    ensures |s| >= 1 && IsDigits(s)
  {
    if n < 10 then [DigitChar(n)] else Digits(n / 10) + [DigitChar(n % 10)]
  }

  /** Long.toString / String.valueOf(long): a minus sign for negative values, then
      the digits of the magnitude. */
  function IntToString(n: int): string
  {
    if n < 0 then "-" + Digits(-n) else Digits(n)
  }

  /** Boolean.toString / String.valueOf(boolean). */
  function BoolToString(b: bool): string
  {
    if b then "true" else "false"
  }

  /** The value of a string of decimal digits. */
  function DigitsValue(s: string): nat
    requires IsDigits(s)
  {
    if s == [] then 0 else 10 * DigitsValue(s[..|s| - 1]) + DigitValue(s[|s| - 1])
  }

  /** Reading a decimal integer, as Long.parseLong does on well-formed text. */
  function ParseInt(s: string): Option<int>
  {
    if |s| >= 2 && s[0] == '-' && IsDigits(s[1..]) then Some(-(DigitsValue(s[1..]) as int))
    else if |s| >= 1 && IsDigits(s) then Some(DigitsValue(s))
    else Option.None
  }

  lemma {:induction false} DigitsRoundTrip(n: nat)
    ensures DigitsValue(Digits(n)) == n
    ensures Digits(n)[0] != '0' || n == 0
  {
    if n >= 10 {
      DigitsRoundTrip(n / 10);
      var s := Digits(n);
      assert s[..|s| - 1] == Digits(n / 10);
      assert s[0] == Digits(n / 10)[0];
    }
  }

  /** The text of a number reads back as that number, so two numbers with the same
      text are equal and the text never carries a leading zero. */
  lemma IntToStringRoundTrip(n: int)
    ensures ParseInt(IntToString(n)) == Some(n)
    ensures |IntToString(n)| >= 1
    ensures IntToString(n)[0] == '-' <==> n < 0
    ensures n > 0 ==> IntToString(n)[0] != '0'
  {
    var s := IntToString(n);
    if n < 0 {
      DigitsRoundTrip(-n);
      assert s[1..] == Digits(-n);
      assert s[0] == '-';
    } else {
      DigitsRoundTrip(n);
      assert s == Digits(n);
      assert !(|s| >= 2 && s[0] == '-');
    }
  }

  lemma IntToStringInjective(m: int, n: int)
    ensures IntToString(m) == IntToString(n) <==> m == n
  {
    IntToStringRoundTrip(m);
    IntToStringRoundTrip(n);
  }
}
