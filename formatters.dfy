/** The input parsers and display helpers of src/lib/formatters.ts, together with
    the JavaScript `parseFloat` they call. */
module Formatters {
  import opened Numeric
  import opened JsString

  // ---------------------------------------------------------------------------
  // parseFloat

  predicate IsDigit(c: char) {
    '0' <= c <= '9'
  }

  predicate AllDigits(s: string) {
    forall i :: 0 <= i < |s| ==> IsDigit(s[i])
  }

  /** The length of the run of decimal digits that `s` starts with. */
  function DigitRun(s: string): (k: nat)
    ensures k <= |s| && AllDigits(s[..k])
    ensures k < |s| ==> !IsDigit(s[k])
  {
    if s != [] && IsDigit(s[0]) then 1 + DigitRun(s[1..]) else 0
  }

  /** The value of a string of decimal digits. */
  function DigitsValue(s: string): nat
    requires AllDigits(s)
  {
    if s == [] then 0
    else DigitsValue(s[..|s| - 1]) * 10 + (s[|s| - 1] as int - '0' as int)
  }

  /** `10 ** e` for a whole, possibly negative, exponent. */
  function PowerOfTen(e: int): (r: real)
    ensures r > 0.0
  {
    if e >= 0 then PowPositive(10.0, e); Pow(10.0, e)
    else PowPositive(10.0, -e); 1.0 / Pow(10.0, -e)
  }

  /** The exponent part (`e`, an optional sign, at least one digit) that `s`
      starts with, or 0 when it does not start with one. */
  function ExponentPart(s: string): int {
    if |s| >= 2 && (s[0] == 'e' || s[0] == 'E') then
      var signed := s[1] == '+' || s[1] == '-';
      var digits := if signed then s[2..] else s[1..];
      var k := DigitRun(digits);
      if k == 0 then 0
      else if s[1] == '-' then -(DigitsValue(digits[..k]) as int) else DigitsValue(digits[..k])
    else 0
  }

  /** The longest unsigned decimal literal `s` starts with: digits, an optional
      fraction, an optional exponent, with at least one digit before the
      exponent. */
  function LeadingDecimal(s: string): Option<real> {
    var intDigits := DigitRun(s);
    var hasPoint := intDigits < |s| && s[intDigits] == '.';
    var fraction := if hasPoint then s[intDigits + 1..] else [];
    var fracDigits := DigitRun(fraction);
    if intDigits == 0 && fracDigits == 0 then None
    else
      var mantissa := DigitsValue(s[..intDigits]) as real
                    + DigitsValue(fraction[..fracDigits]) as real / PowerOfTen(fracDigits);
      var rest := if hasPoint then fraction[fracDigits..] else s[intDigits..];
      Some(mantissa * PowerOfTen(ExponentPart(rest)))
  }

  predicate StartsWith(s: string, prefix: string) {
    |prefix| <= |s| && s[..|prefix|] == prefix
  }

  lemma StartsWithFirst(s: string, prefix: string)
    ensures StartsWith(s, prefix) && prefix != [] ==> s[0] == prefix[0]
  {
    if StartsWith(s, prefix) && prefix != [] {
      assert s[..|prefix|][0] == s[0];
    }
  }

  /** `parseFloat(s)`: leading white space skipped, then the text read by
      `ParseTrimmed`. */
  function ParseFloat(s: string): (r: NumericOrEmpty)
    ensures IsNumber(r)
  {
    ParseTrimmed(TrimStart(s))
  }

  /** What `parseFloat` reads once the white space is gone: an optional sign,
      then `Infinity` or the longest decimal literal; NaN when there is
      neither. */
  function ParseTrimmed(t: string): (r: NumericOrEmpty)
    ensures IsNumber(r)
  {
    var signed := t != [] && (t[0] == '-' || t[0] == '+');
    var body := if signed then t[1..] else t;
    if StartsWith(body, "Infinity") then Infinite
    else Signed(LeadingDecimal(body), signed && t[0] == '-')
  }

  /** A decimal literal read, negated after a minus sign; NaN when none was. */
  function Signed(d: Option<real>, negative: bool): (r: NumericOrEmpty)
    ensures r.Num? <==> d.Some?
    ensures d.Some? ==> r.value == if negative then -d.value else d.value
  {
    match d
    case None => NaN
    case Some(x) => Num(if negative then -x else x)
  }

  lemma {:induction false} DigitRunOfDigits(s: string)
    requires AllDigits(s)
    ensures DigitRun(s) == |s|
  {
    if s != [] {
      DigitRunOfDigits(s[1..]);
    }
  }

  /** A string of digits is a decimal literal with no fraction and no exponent. */
  lemma LeadingDecimalOfDigits(d: string)
    requires d != [] && AllDigits(d)
    ensures LeadingDecimal(d) == Some(DigitsValue(d) as real)
  {
    DigitRunOfDigits(d);
    assert d[..|d|] == d;
    assert d[|d|..] == [];
    assert DigitRun([]) == 0;
    assert ExponentPart([]) == 0;
  }

  /** Text that starts with neither white space, a sign nor `I` is read as the
      decimal literal it starts with. */
  lemma ParseFloatUnsigned(t: string)
    requires t != [] && !IsWhiteSpace(t[0]) && t[0] != '-' && t[0] != '+' && t[0] != 'I'
    ensures ParseFloat(t) == Signed(LeadingDecimal(t), false)
  {
    assert TrimStart(t) == t;
    StartsWithFirst(t, "Infinity");
  }

  /** A string of digits parses as the number it spells. */
  lemma ParseFloatOfDigits(d: string)
    requires d != [] && AllDigits(d)
    ensures ParseFloat(d) == Num(DigitsValue(d) as real)
  {
    ParseFloatUnsigned(d);
    LeadingDecimalOfDigits(d);
  }

  /** A minus sign followed by text that does not spell `Infinity` is read as
      the negated decimal literal of that text. */
  lemma ParseFloatNegative(body: string)
    requires !StartsWith(body, "Infinity")
    ensures ParseFloat(['-'] + body) == Signed(LeadingDecimal(body), true)
  {
    var t := ['-'] + body;
    assert !IsWhiteSpace(t[0]);
    assert TrimStart(t) == t;
    assert t[1..] == body;
  }

  /** Leading white space does not change what `parseFloat` reads. */
  lemma ParseFloatSkipsWhiteSpace(c: char, s: string)
    requires IsWhiteSpace(c)
    ensures ParseFloat([c] + s) == ParseFloat(s)
  {
    assert ([c] + s)[1..] == s;
    assert TrimStart([c] + s) == TrimStart(s);
  }

  /** Neither the empty text nor a lone point is a decimal literal. */
  lemma NoDecimalWithoutDigits()
    ensures LeadingDecimal([]) == None
    ensures LeadingDecimal(".") == None
  {
    assert DigitRun([]) == 0;
    assert DigitRun(".") == 0;
    assert "."[1..] == [];
  }

  /** A lone sign, with or without a point, is not a number. */
  lemma ParseFloatOfSignAlone()
    ensures ParseFloat("-") == NaN
    ensures ParseFloat("-.") == NaN
  {
    NoDecimalWithoutDigits();
    ParseFloatNegative([]);
    ParseFloatNegative(".");
    assert "-" == ['-'] + [];
    assert "-." == ['-'] + ".";
  }

  // ---------------------------------------------------------------------------
  // parseFormattedNumber

  /** The comma-free, trimmed text that `parseFormattedNumber` parses. */
  function CleanNumber(value: string): string {
    Trim(RemoveAll(value, ','))
  }

  predicate IsIntermediate(s: string) {
    s == "-" || s == "-."
  }

  /** `parseFormattedNumber`: `''` for an empty field, the intermediate strings
      `'-'` and `'-.'` as they are, otherwise the number `parseFloat` reads from
      the comma-free text, with NaN turned into `''`. */
  function ParseFormattedNumber(value: string): (r: NumericOrEmpty)
    ensures r != NaN
    ensures r.Str? ==> r == Empty || IsIntermediate(r.text)
    ensures value == [] || CleanNumber(value) == [] ==> r == Empty
    ensures IsIntermediate(CleanNumber(value)) ==> r == Str(CleanNumber(value))
  {
    if value == [] then Empty
    else
      var cleanValue := CleanNumber(value);
      if cleanValue == [] then Empty
      else if IsIntermediate(cleanValue) then Str(cleanValue)
      else
        var num := ParseFloat(cleanValue);
        if num == NaN then Empty else num
  }

  /** Commas never matter: the field reads the same with every comma removed. */
  lemma ParseFormattedIgnoresCommas(value: string)
    ensures ParseFormattedNumber(value) == ParseFormattedNumber(RemoveAll(value, ','))
  {
    RemoveAllIdempotent(value, ',');
  }

  /** Text whose cleaned form is a string of digits reads as that number. */
  lemma ParseFormattedOfDigits(value: string, d: string)
    requires value != [] && d != [] && AllDigits(d) && CleanNumber(value) == d
    ensures ParseFormattedNumber(value) == Num(DigitsValue(d) as real)
  {
    assert d[0] != '-';
    assert !IsIntermediate(d);
    ParseFloatOfDigits(d);
  }

  lemma DigitsAreTrimmed(d: string)
    requires d != [] && AllDigits(d)
    ensures Trim(d) == d
  {
    assert !IsWhiteSpace(d[0]) && !IsWhiteSpace(d[|d| - 1]);
    TrimOfTrimmed(d);
  }

  /** Commas between digits are digit-group separators that are dropped:
      "1,234" reads as 1234. */
  lemma ParseFormattedGroupedDigits(a: string, b: string)
    requires a != [] && AllDigits(a) && AllDigits(b)
    ensures ParseFormattedNumber(a + "," + b) == Num(DigitsValue(a + b) as real)
  {
    var d := a + b;
    assert RemoveAll(a + "," + b, ',') == d by {
      RemoveAllAppend(a + ",", b, ',');
      RemoveAllAppend(a, ",", ',');
      RemoveAllOfFree(a, ',');
      RemoveAllOfFree(b, ',');
      assert RemoveAll(",", ',') == [];
    }
    assert AllDigits(d);
    DigitsAreTrimmed(d);
    ParseFormattedOfDigits(a + "," + b, d);
  }

  // ---------------------------------------------------------------------------
  // formatNumberWithCommas (the branches before Intl.NumberFormat)

  /** What an input field displays: a literal string, or the `en-US` digit
      grouping of a number (produced by `Intl.NumberFormat`, not modelled). */
  datatype Display = Text(text: string) | Grouped(number: NumericOrEmpty)

  /** `formatNumberWithCommas` */
  function FormatNumberWithCommas(value: NumericOrEmpty): (r: Display)
    ensures value == Empty ==> r == Text("")
    ensures value.Str? && IsIntermediate(value.text) ==> r == Text(value.text)
    ensures value.Num? ==> r == Grouped(value)
    ensures r.Grouped? ==> IsNumber(r.number) && r.number != NaN
  {
    if value == Empty then Text("")
    else if value.Str? && IsIntermediate(value.text) then Text(value.text)
    else
      var num := if value.Str? then ParseFloat(value.text) else value;
      if num == NaN then Text("") else Grouped(num)
  }

  /** An intermediate state typed into a field survives the parse-then-display
      cycle of the input, so the user can go on typing the number. */
  lemma IntermediateStatesSurvive(s: string)
    requires IsIntermediate(s)
    ensures ParseFormattedNumber(s) == Str(s)
    ensures FormatNumberWithCommas(ParseFormattedNumber(s)) == Text(s)
  {
    RemoveAllOfFree(s, ',');
    assert !IsWhiteSpace(s[0]) && !IsWhiteSpace(s[|s| - 1]);
    TrimOfTrimmed(s);
  }

  // ---------------------------------------------------------------------------
  // parsePercentage

  /** `parsePercentage`: `''` stays `''`; otherwise every `%` is removed, the
      rest trimmed and parsed, and NaN becomes `''`. */
  function ParsePercentage(value: string): (r: NumericOrEmpty)
    ensures r != NaN
    ensures r.Str? ==> r == Empty
    ensures value == [] ==> r == Empty
  {
    if value == [] then Empty
    else
      var num := ParseFloat(Trim(RemoveAll(value, '%')));
      if num == NaN then Empty else num
  }

  /** Per-cent signs never matter. */
  lemma ParsePercentageIgnoresPercentSigns(value: string)
    ensures ParsePercentage(value) == ParsePercentage(RemoveAll(value, '%'))
  {
    RemoveAllIdempotent(value, '%');
    if value != [] && RemoveAll(value, '%') == [] {
      assert Trim([]) == [];
      assert DigitRun([]) == 0;
    }
  }

  /** "5%" reads as 5. */
  lemma ParsePercentageOfDigits(d: string)
    requires d != [] && AllDigits(d)
    ensures ParsePercentage(d + "%") == Num(DigitsValue(d) as real)
  {
    assert RemoveAll(d + "%", '%') == d by {
      RemoveAllAppend(d, "%", '%');
      RemoveAllOfFree(d, '%');
      assert RemoveAll("%", '%') == [];
    }
    DigitsAreTrimmed(d);
    ParseFloatOfDigits(d);
  }
}
