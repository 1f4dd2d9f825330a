/**
 * The 32-bit counters of a video detail: `int.Parse(s, CultureInfo.InvariantCulture)`
 * turns the API's decimal text into them and `int.ToString(CultureInfo.InvariantCulture)`
 * renders them back for the report.
 */
module Numbers {
  import opened Wrappers
  import opened Runtime

  const INT32_MIN: int := -0x8000_0000
  const INT32_MAX: int := 0x7FFF_FFFF

  /** C#'s `int`. */
  type Int32 = x: int | -0x8000_0000 <= x <= 0x7FFF_FFFF

  predicate IsDigit(c: char) {
    '0' <= c <= '9'
  }

  predicate AllDigits(s: string) {
    forall i :: 0 <= i < |s| ==> IsDigit(s[i])
  }

  /** The white space that the default integer style skips on both sides of the number. */
  predicate IsWhite(c: char) {
    c == ' ' || '\t' <= c <= '\r'
  }

  function DigitChar(d: nat): (c: char)
    requires d < 10
    ensures IsDigit(c)
  {
    ('0' as int + d) as char
  }

  function DigitValue(c: char): (d: nat)
    requires IsDigit(c)
    ensures d < 10
  {
    c as int - '0' as int
  }

  /** The value of a string of decimal digits, most significant first. */
  function DigitsValue(s: string): nat
    requires AllDigits(s)
    decreases |s|
  {
    if s == [] then 0 else DigitsValue(s[..|s| - 1]) * 10 + DigitValue(s[|s| - 1])
  }

  /** The decimal digits of `n`, most significant first, without leading zeros. */
  function NatToDigits(n: nat): (s: string)
    ensures s != [] && AllDigits(s)
    ensures |s| > 1 ==> s[0] != '0'
    decreases n
  {
    if n < 10 then [DigitChar(n)] else NatToDigits(n / 10) + [DigitChar(n % 10)]
  }

  /**
   * `n.ToString(CultureInfo.InvariantCulture)`: a minus sign exactly for negatives,
   * then the digits in their shortest form.
   */
  function ToInvariantString(n: Int32): (s: string)
    ensures s != []
    ensures forall i :: 0 <= i < |s| ==> IsDigit(s[i]) || (i == 0 && s[i] == '-' && n < 0)
    ensures n < 0 <==> s[0] == '-'
    ensures var d := if n < 0 then s[1..] else s; d != [] && (|d| > 1 ==> d[0] != '0')
  {
    if n < 0 then
      var d := NatToDigits(-(n as int));
      assert ("-" + d)[1..] == d;
      "-" + d
    else NatToDigits(n)
  }

  function TrimStart(s: string): (r: string)
    ensures r == [] || !IsWhite(r[0])
    ensures forall c :: c in r ==> c in s
    decreases |s|
  {
    if s != [] && IsWhite(s[0]) then TrimStart(s[1..]) else s
  }

  function TrimEnd(s: string): (r: string)
    ensures r == [] || !IsWhite(r[|r| - 1])
    ensures forall c :: c in r ==> c in s
    decreases |s|
  {
    if s != [] && IsWhite(s[|s| - 1]) then TrimEnd(s[..|s| - 1]) else s
  }

  /**
   * `int.Parse(s, CultureInfo.InvariantCulture)` with the default integer style:
   * white space around the number, one optional leading sign, at least one digit.
   * A null string, malformed text and a value outside the 32-bit range each raise
   * their own exception.
   */
  function ParseInt32(s: Option<string>): (r: Result<Int32, Exception>)
    ensures s.None? <==> r == Failure(ArgumentNull)
  {
    match s
    case None => Failure(ArgumentNull)
    case Some(text) =>
      var t := TrimEnd(TrimStart(text));
      var signed := t != [] && (t[0] == '-' || t[0] == '+');
      var magnitude := if signed then t[1..] else t;
      if magnitude == [] || !AllDigits(magnitude) then Failure(Format)
      else
        var v: int := if signed && t[0] == '-' then -(DigitsValue(magnitude) as int) else DigitsValue(magnitude);
        if INT32_MIN <= v <= INT32_MAX then Success(v) else Failure(Overflow)
  }

  lemma {:induction false} DigitsRoundTrip(n: nat)
    ensures DigitsValue(NatToDigits(n)) == n
    decreases n
  {
    if n >= 10 {
      DigitsRoundTrip(n / 10);
      var s := NatToDigits(n);
      assert s[..|s| - 1] == NatToDigits(n / 10);
    }
  }

  /** Text that neither starts nor ends with white space is left alone by trimming. */
  lemma TrimKeeps(s: string)
    requires s != [] && !IsWhite(s[0]) && !IsWhite(s[|s| - 1])
    ensures TrimEnd(TrimStart(s)) == s
  {
  }

  /** Parsing what `ToInvariantString` renders gives back the same number. */
  lemma ParseRendersBack(n: Int32)
    ensures ParseInt32(Some(ToInvariantString(n))) == Success(n)
  {
    var s := ToInvariantString(n);
    TrimKeeps(s);
    if n < 0 {
      assert s[1..] == NatToDigits(-(n as int));
      DigitsRoundTrip(-(n as int));
    } else {
      DigitsRoundTrip(n);
    }
  }

  /** Text without a single digit is a format error; it never reads as zero. */
  lemma NonNumericIsFormatError(text: string)
    requires forall i :: 0 <= i < |text| ==> !IsDigit(text[i])
    ensures ParseInt32(Some(text)) == Failure(Format)
  {
    var t := TrimEnd(TrimStart(text));
    var magnitude := if t != [] && (t[0] == '-' || t[0] == '+') then t[1..] else t;
    if magnitude != [] {
      assert magnitude[0] in t;
      assert !IsDigit(magnitude[0]);
    }
  }

  /** `NatToDigits` of the ten-digit numbers around the 32-bit limit, one digit at a time. */
  lemma NearLimitDigits()
    ensures NatToDigits(2147483647) == "2147483647"
    ensures NatToDigits(2147483648) == "2147483648"
  {
    assert NatToDigits(2) == "2";
    assert NatToDigits(21) == "21";
    assert NatToDigits(214) == "214";
    assert NatToDigits(2147) == "2147";
    assert NatToDigits(21474) == "21474";
    assert NatToDigits(214748) == "214748";
    assert NatToDigits(2147483) == "2147483";
    assert NatToDigits(21474836) == "21474836";
    assert NatToDigits(214748364) == "214748364";
  }

  /** The largest 32-bit count parses without loss and renders back to the same text. */
  lemma ParseInt32Max(s: string)
    requires s == "2147483647"
    ensures ParseInt32(Some(s)) == Success(INT32_MAX)
    ensures ToInvariantString(INT32_MAX) == s
  {
    NearLimitDigits();
    ParseRendersBack(INT32_MAX);
  }

  /** Any unsigned decimal text above the largest 32-bit value raises an overflow; it does not wrap around. */
  lemma ParseInt32AboveMax(s: string)
    requires s != [] && AllDigits(s) && DigitsValue(s) > INT32_MAX
    ensures ParseInt32(Some(s)) == Failure(Overflow)
  {
    TrimKeeps(s);
  }

  /** One more than the largest 32-bit value raises an overflow; it does not wrap around. */
  lemma ParseInt32Overflow(s: string)
    requires s == "2147483648"
    ensures ParseInt32(Some(s)) == Failure(Overflow)
  {
    NearLimitDigits();
    DigitsRoundTrip(2147483648);
    TrimKeeps(s);
  }

}
