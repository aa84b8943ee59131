/** The inflation calculator of src/components/InflationCalculator.tsx: what
    an amount is worth after some years of inflation, in future money and in
    today's money, and a year-by-year chart of its purchasing power.

    The results raise the growth factor to a number of years that need not be
    whole; that `Math.pow` is a parameter `pow` of the model. The chart uses
    whole years only, so its powers are exact. A division by a zero factor (a
    rate of −100%) or by a zero amount gives NaN or an infinity, as in IEEE
    arithmetic. */
module Inflation {
  import opened Numeric
  import opened CalculatorValidation

  datatype Field = CurrentAmount | InflationRate | Years

  /** The inputs: an amount, a yearly rate in percent and a number of years. */
  datatype InflationData = InflationData(currentAmount: NumericOrEmpty, inflationRate: NumericOrEmpty,
                                         years: NumericOrEmpty)

  function FieldKey(f: Field): string {
    match f
    case CurrentAmount => "currentAmount"
    case InflationRate => "inflationRate"
    case Years => "years"
  }

  function ValueOf(data: InflationData, f: Field): NumericOrEmpty {
    match f
    case CurrentAmount => data.currentAmount
    case InflationRate => data.inflationRate
    case Years => data.years
  }

  // ---------------------------------------------------------------------------
  // validateInputs

  const RequiredFields: seq<Field> := [CurrentAmount, InflationRate, Years]

  /** `requiredFields.filter(field => !isValidNumber(data[field]))` */
  function Missing(data: InflationData, fields: seq<Field>): (r: seq<Field>)
    ensures |r| <= |fields|
  {
    if fields == [] then []
    else (if IsValidNumber(ValueOf(data, fields[0])) then [] else [fields[0]]) + Missing(data, fields[1..])
  }

  /** A field is missing exactly when it is listed and not a valid number. */
  lemma {:induction false} MissingMembers(data: InflationData, fields: seq<Field>)
    ensures forall f :: f in Missing(data, fields) <==> f in fields && !IsValidNumber(ValueOf(data, f))
  {
    if fields != [] {
      MissingMembers(data, fields[1..]);
      assert forall f :: f in fields <==> f == fields[0] || f in fields[1..];
    }
  }

  /** The missing fields keep the order of the list: those of a first part
      come before those of the rest. */
  lemma {:induction false} MissingAppend(data: InflationData, a: seq<Field>, b: seq<Field>)
    ensures Missing(data, a + b) == Missing(data, a) + Missing(data, b)
  {
    if a == [] {
      assert a + b == b;
    } else {
      assert (a + b)[1..] == a[1..] + b;
      MissingAppend(data, a[1..], b);
    }
  }

  /** The field names as `formatFieldName` shows them. */
  function FormattedNames(fields: seq<Field>): (names: seq<string>)
    ensures |names| == |fields|
    ensures forall i :: 0 <= i < |fields| ==> names[i] == FormatFieldName(FieldKey(fields[i]))
  {
    seq(|fields|, i requires 0 <= i < |fields| => FormatFieldName(FieldKey(fields[i])))
  }

  lemma EveryFieldRequired()
    ensures forall f :: f in RequiredFields
  {
    forall f: Field
      ensures f in RequiredFields
    {
      match f
      case CurrentAmount => assert RequiredFields[0] == f;
      case InflationRate => assert RequiredFields[1] == f;
      case Years => assert RequiredFields[2] == f;
    }
  }

  datatype Validation = Validation(isValid: bool, missingFields: seq<string>)

  /** `validateInputs`: valid when no field is missing, with the missing
      fields' formatted names in the order the fields are listed. */
  function ValidateInputs(data: InflationData): (v: Validation)
    ensures v.isValid <==> forall f :: IsValidNumber(ValueOf(data, f))
    ensures v.isValid <==> v.missingFields == []
    ensures v.missingFields == FormattedNames(Missing(data, RequiredFields))
  {
    MissingMembers(data, RequiredFields);
    EveryFieldRequired();
    var missingFields := Missing(data, RequiredFields);
    assert missingFields != [] ==> missingFields[0] in missingFields;
    Validation(|missingFields| == 0, FormattedNames(missingFields))
  }

  // ---------------------------------------------------------------------------
  // The results of calculate

  /** The four figures shown; the last three are quotients that can be NaN or
      infinite. */
  datatype InflationResults = InflationResults(futureNominal: real, realPurchasingPower: NumericOrEmpty,
                                               powerLost: NumericOrEmpty, percentageLost: NumericOrEmpty)

  /** The figures for an amount and the growth factor over the whole period:
      the amount in future money, today's money that the amount will be worth,
      what it loses and that loss as a share of the amount. */
  function ResultsOf(currentAmount: real, inflationFactor: real): (r: InflationResults)
    ensures inflationFactor != 0.0 ==>
              r.realPurchasingPower.Num? && r.realPurchasingPower.value * inflationFactor == currentAmount
    ensures r.powerLost.Num? <==> inflationFactor != 0.0
    ensures r.powerLost.Num? ==> r.powerLost.value + r.realPurchasingPower.value == currentAmount
    ensures r.percentageLost.Num? <==> inflationFactor != 0.0 && currentAmount != 0.0
    ensures r.percentageLost.Num? ==> r.percentageLost.value * currentAmount == r.powerLost.value * 100.0
  {
    var futureNominal := currentAmount * inflationFactor;
    var realPurchasingPower := Divide(currentAmount, inflationFactor);
    var powerLost := SubtractValue(currentAmount, realPurchasingPower);
    var percentageLost := ScaleValue(DivideValue(powerLost, currentAmount), 100.0);
    InflationResults(futureNominal, realPurchasingPower, powerLost, percentageLost)
  }

  /** The nominal figure undoes the real one: the amount grown by the factor,
      and today's value of the amount grown by the factor, give the amount. */
  lemma NominalAndRealAreInverse(currentAmount: real, inflationFactor: real)
    requires inflationFactor != 0.0
    ensures ResultsOf(currentAmount, inflationFactor).realPurchasingPower.value * inflationFactor == currentAmount
    ensures Divide(ResultsOf(currentAmount, inflationFactor).futureNominal, inflationFactor) == Num(currentAmount)
  {
  }

  /** With no amount the share lost is 0/0, which is NaN: validation does not
      rule out a zero amount. */
  lemma ZeroAmountShareIsNaN(inflationFactor: real)
    requires inflationFactor != 0.0
    ensures ResultsOf(0.0, inflationFactor).percentageLost == NaN
  {
  }

  /** The growth factor over whole years. */
  function Factor(inflationRate: real, years: nat): real {
    Pow(1.0 + inflationRate / 100.0, years)
  }

  /** With a positive rate over at least one whole year, a positive amount is
      worth less in today's money and more in future money, and the share lost
      is strictly between 0 and 100 percent. */
  lemma InflationErodes(currentAmount: real, inflationRate: real, years: nat)
    requires currentAmount > 0.0 && inflationRate > 0.0 && years >= 1
    ensures var r := ResultsOf(currentAmount, Factor(inflationRate, years));
            && r.realPurchasingPower.Num? && r.realPurchasingPower.value < currentAmount < r.futureNominal
            && r.percentageLost.Num? && 0.0 < r.percentageLost.value < 100.0
  {
    var q := Factor(inflationRate, years);
    PowAboveOne(1.0 + inflationRate / 100.0, years);
    var r := ResultsOf(currentAmount, q);
    ShareOfGrowth(currentAmount, q, r.realPurchasingPower.value, r.percentageLost.value);
  }

  lemma ShareOfGrowth(a: real, q: real, p: real, pct: real)
    requires a > 0.0 && q > 1.0 && p * q == a
    requires pct * a == (a - p) * 100.0
    ensures 0.0 < p < a < a * q
    ensures 0.0 < pct < 100.0
  {
    assert p == a / q;
    assert p > 0.0;
    var t := q - 1.0;
    var grown, lost := a * t, p * t;
    assert grown > 0.0 && lost > 0.0;
    assert a * q == a + grown;
    assert a == p + lost;
    var share := lost / a;
    assert share * a == lost;
    assert pct == share * 100.0;
    assert share == (a - p) / a == a / a - p / a;
    assert a / a == 1.0;
    assert p / a > 0.0;
  }

  // ---------------------------------------------------------------------------
  // The chart of calculate

  datatype ChartDataPoint = ChartDataPoint(year: nat, purchasingPower: NumericOrEmpty)

  /** The chart's first `count` points: year by year, today's value of the
      amount after that year. */
  function Chart(currentAmount: real, inflationRate: real, count: nat): (points: seq<ChartDataPoint>)
    ensures |points| == count
    ensures forall k :: 0 <= k < count ==> points[k].year == k
  {
    if count == 0 then []
    else Chart(currentAmount, inflationRate, count - 1)
         + [ChartDataPoint(count - 1, Divide(currentAmount, Factor(inflationRate, count - 1)))]
  }

  /** The years `0, 1, …` that are at most `years`. */
  function ChartLength(years: real): nat {
    if years < 0.0 then 0 else (Floor(years) + 1) as nat
  }

  /** The chart loop: one point for each whole year from 0 up to `years`. */
  method ChartPoints(currentAmount: real, inflationRate: real, years: real) returns (chartPoints: seq<ChartDataPoint>)
    ensures chartPoints == Chart(currentAmount, inflationRate, ChartLength(years))
  {
    chartPoints := [];
    var year: nat := 0;
    while year as real <= years
      invariant years >= 0.0 ==> year <= Floor(years) + 1
      invariant years < 0.0 ==> year == 0
      invariant chartPoints == Chart(currentAmount, inflationRate, year)
      decreases Floor(years) + 1 - year
    {
      var yearlyInflationFactor := Pow(1.0 + inflationRate / 100.0, year);
      var purchasingPower := Divide(currentAmount, yearlyInflationFactor);
      chartPoints := chartPoints + [ChartDataPoint(year, purchasingPower)];
      year := year + 1;
    }
  }

  /** The chart starts at the amount and, for whole years, ends at the real
      purchasing power among the results. */
  lemma ChartEnds(currentAmount: real, inflationRate: real, years: nat)
    ensures Chart(currentAmount, inflationRate, ChartLength(years as real))[0].purchasingPower == Num(currentAmount)
    ensures inflationRate > -100.0 ==>
              Chart(currentAmount, inflationRate, ChartLength(years as real))[years].purchasingPower
              == ResultsOf(currentAmount, Factor(inflationRate, years)).realPurchasingPower
  {
    assert ChartLength(years as real) == years + 1;
    ChartPointIs(currentAmount, inflationRate, years + 1, 0);
    ChartPointIs(currentAmount, inflationRate, years + 1, years);
    if inflationRate > -100.0 {
      PowPositive(1.0 + inflationRate / 100.0, years);
    }
  }

  /** Each point, grown back by its year's factor, is the amount. */
  lemma ChartPointGrowsBack(currentAmount: real, inflationRate: real, count: nat, k: nat)
    requires inflationRate > -100.0 && k < count
    ensures Chart(currentAmount, inflationRate, count)[k].purchasingPower.Num?
    ensures Chart(currentAmount, inflationRate, count)[k].purchasingPower.value * Factor(inflationRate, k) == currentAmount
  {
    ChartPointIs(currentAmount, inflationRate, count, k);
    PowPositive(1.0 + inflationRate / 100.0, k);
  }

  lemma {:induction false} ChartPointIs(currentAmount: real, inflationRate: real, count: nat, k: nat)
    requires k < count
    ensures Chart(currentAmount, inflationRate, count)[k].purchasingPower
            == Divide(currentAmount, Factor(inflationRate, k))
  {
    if k < count - 1 {
      ChartPointIs(currentAmount, inflationRate, count - 1, k);
    }
  }

  /** With a rate that is not negative, a non-negative amount's purchasing
      power never rises from one year to a later one. */
  lemma PurchasingPowerFalls(currentAmount: real, inflationRate: real, count: nat, j: nat, k: nat)
    requires currentAmount >= 0.0 && inflationRate >= 0.0 && j <= k < count
    ensures var chart := Chart(currentAmount, inflationRate, count);
            && chart[k].purchasingPower.Num? && chart[j].purchasingPower.Num?
            && chart[k].purchasingPower.value <= chart[j].purchasingPower.value
  {
    ChartPointIs(currentAmount, inflationRate, count, j);
    ChartPointIs(currentAmount, inflationRate, count, k);
    var x := 1.0 + inflationRate / 100.0;
    PowMonotone(x, j, k);
    PowAtLeastOne(x, j);
    PowAtLeastOne(x, k);
    SmallerForLargerDivisor(currentAmount, Factor(inflationRate, j), Factor(inflationRate, k));
  }

  lemma SmallerForLargerDivisor(a: real, x: real, y: real)
    requires a >= 0.0 && 0.0 < x <= y
    ensures a / y <= a / x
  {
    assert a / y * y == a == a / x * x;
    assert a / x * y >= a / x * x;
  }

  // ---------------------------------------------------------------------------
  // State

  /** The calculator's state: inputs, the figures last shown and the chart. */
  datatype InflationState = InflationState(data: InflationData, results: InflationResults,
                                           chartData: seq<ChartDataPoint>)

  /** `calculate`: nothing changes unless every field is a valid number;
      otherwise the figures for the factor over `years` and the chart of the
      whole years up to `years`. */
  method Calculate(pow: (real, real) -> real, state: InflationState) returns (next: InflationState)
    ensures !ValidateInputs(state.data).isValid ==> next == state
    ensures ValidateInputs(state.data).isValid ==>
              var d := state.data;
              var amount, rate, years := ValueOf(d, CurrentAmount).value, ValueOf(d, InflationRate).value, ValueOf(d, Years).value;
              && next.data == state.data
              && next.results == ResultsOf(amount, pow(1.0 + rate / 100.0, years))
              && next.chartData == Chart(amount, rate, ChartLength(years))
  {
    if !ValidateInputs(state.data).isValid {
      return state;
    }
    assert IsValidNumber(ValueOf(state.data, CurrentAmount)) && IsValidNumber(ValueOf(state.data, InflationRate))
           && IsValidNumber(ValueOf(state.data, Years));
    var currentAmount := ToNumber(state.data.currentAmount).value;
    var inflationRate := ToNumber(state.data.inflationRate).value;
    var years := ToNumber(state.data.years).value;
    var inflationFactor := pow(1.0 + inflationRate / 100.0, years);
    var results := ResultsOf(currentAmount, inflationFactor);
    var chartPoints := ChartPoints(currentAmount, inflationRate, years);
    next := state.(results := results, chartData := chartPoints);
  }

  /** `updateData`: only the named field changes. */
  function UpdateData(data: InflationData, field: Field, value: NumericOrEmpty): (next: InflationData)
    ensures ValueOf(next, field) == value
    ensures forall g :: g != field ==> ValueOf(next, g) == ValueOf(data, g)
  {
    match field
    case CurrentAmount => data.(currentAmount := value)
    case InflationRate => data.(inflationRate := value)
    case Years => data.(years := value)
  }
}
