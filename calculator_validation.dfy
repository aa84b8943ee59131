/** The shared input checks of src/lib/calculator-validation.ts. */
module CalculatorValidation {
  import opened Numeric
  import opened JsString

  /** `isValidNumber`: a number that is neither NaN nor infinite. */
  predicate IsValidNumber(v: NumericOrEmpty) {
    match v
    case Num(_) => true
    case NaN => false
    case Infinite => false
    case Str(_) => false
  }

  /** What `isValidNumber` accepts and rejects. */
  lemma ValidNumberCases(x: real, s: string)
    ensures IsValidNumber(Num(x))
    ensures !IsValidNumber(NaN) && !IsValidNumber(Infinite)
    ensures !IsValidNumber(Empty) && !IsValidNumber(Str(s))
  {
  }

  /** `toNumber`: a number is kept as it is (NaN included), a string becomes 0. */
  function ToNumber(v: NumericOrEmpty): (r: NumericOrEmpty)
    ensures IsNumber(r)
    ensures v.Str? ==> r == Num(0.0)
    ensures IsNumber(v) ==> r == v
    ensures IsValidNumber(v) ==> IsValidNumber(r) && r.value == v.value
  {
    if v.Str? then Num(0.0) else v
  }

  // ---------------------------------------------------------------------------
  // validateCalculatorInputs

  /** A required field passes when it is present, a valid number and positive
      (the three tests the loop makes in turn). */
  predicate Accepted(inputs: map<string, NumericOrEmpty>, field: string) {
    && field in inputs
    && inputs[field] != Empty
    && IsValidNumber(inputs[field])
    && inputs[field].value > 0.0
  }

  /** The required fields that do not pass, in the order they are listed. */
  function Rejected(inputs: map<string, NumericOrEmpty>, fields: seq<string>): (r: seq<string>)
    ensures |r| <= |fields|
  {
    if fields == [] then []
    else Rejected(inputs, fields[..|fields| - 1])
         + (if Accepted(inputs, fields[|fields| - 1]) then [] else [fields[|fields| - 1]])
  }

  /** `validateCalculatorInputs` */
  method ValidateCalculatorInputs(inputs: map<string, NumericOrEmpty>, requiredFields: seq<string>)
    returns (errors: seq<string>)
    ensures errors == Rejected(inputs, requiredFields)
  {
    errors := [];
    for i := 0 to |requiredFields|
      invariant errors == Rejected(inputs, requiredFields[..i])
    {
      var field := requiredFields[i];
      assert requiredFields[..i + 1][..i] == requiredFields[..i];
      if field !in inputs || inputs[field] == Empty {
        errors := errors + [field];
      } else if !IsValidNumber(inputs[field]) {
        errors := errors + [field];
      } else if inputs[field].value <= 0.0 {
        errors := errors + [field];
      }
    }
    assert requiredFields[..|requiredFields|] == requiredFields;
  }

  /** A field is reported exactly when it is required and fails a test. */
  lemma {:induction false} RejectedMembers(inputs: map<string, NumericOrEmpty>, fields: seq<string>)
    ensures forall f :: f in Rejected(inputs, fields) <==> f in fields && !Accepted(inputs, f)
  {
    if fields != [] {
      var init, last := fields[..|fields| - 1], fields[|fields| - 1];
      RejectedMembers(inputs, init);
      assert fields == init + [last];
    }
  }

  /** The report for a list of fields is the report for its first part followed
      by the report for the rest: the order of `requiredFields` is kept. */
  lemma {:induction false} RejectedAppend(inputs: map<string, NumericOrEmpty>, a: seq<string>, b: seq<string>)
    ensures Rejected(inputs, a + b) == Rejected(inputs, a) + Rejected(inputs, b)
  {
    if b == [] {
      assert a + b == a;
    } else {
      var init, last := b[..|b| - 1], b[|b| - 1];
      assert (a + b)[..|a + b| - 1] == a + init;
      RejectedAppend(inputs, a, init);
    }
  }

  lemma RejectedNone(inputs: map<string, NumericOrEmpty>)
    ensures Rejected(inputs, []) == []
  {
  }

  // ---------------------------------------------------------------------------
  // formatFieldName

  /** `s.replace(/([A-Z])/g, ' $1')`: a space before every capital letter. */
  function SpaceBeforeCapitals(s: string): (r: string)
    ensures |r| >= |s|
  {
    if s == [] then []
    else (if IsUpperAscii(s[0]) then [' ', s[0]] else [s[0]]) + SpaceBeforeCapitals(s[1..])
  }

  /** `s.replace(/^./, str => str.toUpperCase())`: the first character, unless it
      is a line terminator, upper-cased. */
  function CapitalizeFirst(s: string): (r: string)
    ensures |r| == |s|
  {
    if s != [] && s[0] !in LineTerminators then [ToUpperAscii(s[0])] + s[1..] else s
  }

  /** `formatFieldName`: "interestRate" becomes "Interest Rate". */
  function FormatFieldName(fieldName: string): string {
    Trim(CapitalizeFirst(SpaceBeforeCapitals(fieldName)))
  }

  /** The formatted name has no white space at either end. */
  lemma FormattedNameIsTrimmed(fieldName: string)
    ensures var r := FormatFieldName(fieldName);
            r == [] || (!IsWhiteSpace(r[0]) && !IsWhiteSpace(r[|r| - 1]))
  {
    var t := Trim(CapitalizeFirst(SpaceBeforeCapitals(fieldName)));
    assert t == [] || (!IsWhiteSpace(t[0]) && !IsWhiteSpace(t[|t| - 1]));
    assert FormatFieldName(fieldName) == t;
  }

  /** The only characters the space insertion adds are spaces: deleting every
      space from its output gives what deleting every space from its input gives. */
  lemma {:induction false} SpaceBeforeCapitalsOnlyAddsSpaces(s: string)
    ensures RemoveAll(SpaceBeforeCapitals(s), ' ') == RemoveAll(s, ' ')
  {
    if s != [] {
      SpaceBeforeCapitalsOnlyAddsSpaces(s[1..]);
      var head := if IsUpperAscii(s[0]) then [' ', s[0]] else [s[0]];
      RemoveAllAppend(head, SpaceBeforeCapitals(s[1..]), ' ');
    }
  }

  /** Every character a lower-case ASCII letter. */
  predicate AllLower(s: string) {
    forall i :: 0 <= i < |s| ==> IsLowerAscii(s[i])
  }

  /** A capital followed by lower-case letters: one word of a camel-case name. */
  predicate Capitalized(s: string) {
    s != [] && IsUpperAscii(s[0]) && AllLower(s[1..])
  }

  lemma {:induction false} SpaceBeforeCapitalsOfLowercase(s: string)
    requires AllLower(s)
    ensures SpaceBeforeCapitals(s) == s
  {
    if s != [] {
      SpaceBeforeCapitalsOfLowercase(s[1..]);
    }
  }

  /** An all-lowercase name comes back with its first letter upper-cased and
      nothing else changed. */
  lemma FormatLowercaseName(s: string)
    requires s != [] && AllLower(s)
    ensures FormatFieldName(s) == [ToUpperAscii(s[0])] + s[1..]
  {
    SpaceBeforeCapitalsOfLowercase(s);
    var c := CapitalizeFirst(s);
    assert c == [ToUpperAscii(s[0])] + s[1..];
    assert !IsWhiteSpace(c[0]) && !IsWhiteSpace(c[|c| - 1]);
    TrimOfTrimmed(c);
  }

  lemma {:induction false} SpaceBeforeCapitalsAppend(a: string, b: string)
    ensures SpaceBeforeCapitals(a + b) == SpaceBeforeCapitals(a) + SpaceBeforeCapitals(b)
  {
    if a == [] {
      assert a + b == b;
    } else {
      assert (a + b)[1..] == a[1..] + b;
      SpaceBeforeCapitalsAppend(a[1..], b);
    }
  }

  lemma LettersAreNotWhiteSpace(c: char)
    requires IsLowerAscii(c) || IsUpperAscii(c)
    ensures !IsWhiteSpace(c)
  {
  }

  /** The space insertion on a lower-case word followed by a capitalised one
      puts one space between them. */
  lemma SpacedCamelCase(first: string, second: string)
    requires AllLower(first) && Capitalized(second)
    ensures SpaceBeforeCapitals(first + second) == first + [' '] + second
  {
    SpaceBeforeCapitalized(second);
    SpaceBeforeCapitalsOfLowercase(first);
    SpaceBeforeCapitalsAppend(first, second);
    assert first + ([' '] + second) == first + [' '] + second;
  }

  /** A capitalised word gets one space in front of it and no other change. */
  lemma SpaceBeforeCapitalized(s: string)
    requires Capitalized(s)
    ensures SpaceBeforeCapitals(s) == [' '] + s
  {
    var tail := s[1..];
    SpaceBeforeCapitalsOfLowercase(tail);
    assert SpaceBeforeCapitals(s) == [' ', s[0]] + tail;
    assert [' ', s[0]] + tail == [' '] + s;
  }

  /** A lower-case word followed by a capitalised one is split in two words. */
  lemma FormatCamelCaseName(first: string, second: string)
    requires first != [] && AllLower(first) && Capitalized(second)
    ensures FormatFieldName(first + second) == [ToUpperAscii(first[0])] + first[1..] + [' '] + second
  {
    SpacedCamelCase(first, second);
    var spaced := first + [' '] + second;
    var c := CapitalizeFirst(spaced);
    assert spaced[0] == first[0] && spaced[1..] == first[1..] + [' '] + second;
    assert c == [ToUpperAscii(first[0])] + first[1..] + [' '] + second;
    LettersAreNotWhiteSpace(c[0]);
    LettersAreNotWhiteSpace(second[|second| - 1]);
    assert c[|c| - 1] == second[|second| - 1];
    TrimOfTrimmed(c);
  }
}
