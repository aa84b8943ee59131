/** The time-value-of-money calculator of
    src/components/TimeValueOfMoneyCalculator.tsx: five quantities (periods,
    rate, present value, payment, future value) tied by one equation, one of
    them solved for from the other four, in closed form or by Newton's method,
    and a chart of how the balance grows.

    `Math.pow` with a real exponent and `Math.log` are parameters `pow` and
    `ln` of the model: their values are not interpreted. */
module TimeValueOfMoney {
  import opened Numeric
  import opened CalculatorValidation
  import opened Annuity

  datatype Field = Periods | InterestRate | PresentValue | Payment | FutureValue

  /** The calculator's inputs and the quantity it solves for. */
  datatype TVMData = TVMData(periods: NumericOrEmpty, interestRate: NumericOrEmpty,
                             presentValue: NumericOrEmpty, payment: NumericOrEmpty,
                             futureValue: NumericOrEmpty, solveFor: Field)

  // ---------------------------------------------------------------------------
  // The closed forms (rate as a fraction, `factor` = (1 + rate)^n)

  /** The equation the five quantities satisfy: the present value grown for n
      periods, plus the payments grown, plus the future value, is zero (with
      no growth at a zero rate). */
  predicate Balanced(pv: real, pmt: real, fv: real, rate: real, n: real, factor: real) {
    if rate == 0.0 then pv + pmt * n + fv == 0.0
    else pv * factor + pmt * ((factor - 1.0) / rate) + fv == 0.0
  }

  /** The `futureValue` branch. */
  function SolveFutureValue(pv: real, pmt: real, rate: real, n: real, factor: real): (fv: real)
    ensures Balanced(pv, pmt, fv, rate, n, factor)
  {
    if rate == 0.0 then -(pv + pmt * n)
    else -(pv * factor + pmt * ((factor - 1.0) / rate))
  }

  /** The `presentValue` branch; its division by the factor gives NaN or an
      infinity when the factor is zero. */
  function SolvePresentValue(fv: real, pmt: real, rate: real, n: real, factor: real): (pv: NumericOrEmpty)
    ensures IsNumber(pv)
    ensures pv.Num? <==> rate == 0.0 || factor != 0.0
    ensures pv.Num? ==> Balanced(pv.value, pmt, fv, rate, n, factor)
  {
    if rate == 0.0 then Num(-(fv + pmt * n))
    else Divide(-(fv + pmt * ((factor - 1.0) / rate)), factor)
  }

  /** The `payment` branch; it divides by the number of periods at a zero
      rate and by the growth of a unit payment otherwise. */
  function SolvePayment(pv: real, fv: real, rate: real, n: real, factor: real): (pmt: NumericOrEmpty)
    ensures IsNumber(pmt)
    ensures pmt.Num? <==> (if rate == 0.0 then n != 0.0 else factor != 1.0)
    ensures pmt.Num? ==> Balanced(pv, pmt.value, fv, rate, n, factor)
  {
    if rate == 0.0 then Divide(-(pv + fv), n)
    else
      assert (factor - 1.0) / rate == 0.0 <==> factor == 1.0;
      Divide(-(pv * factor + fv), (factor - 1.0) / rate)
  }

  /** The future value is the only one that balances the other four. */
  lemma FutureValueUnique(pv: real, pmt: real, fv: real, rate: real, n: real, factor: real)
    ensures Balanced(pv, pmt, fv, rate, n, factor) <==> fv == SolveFutureValue(pv, pmt, rate, n, factor)
  {
  }

  /** Round trip: the present value solved from the future value that a
      present value produced is that present value. */
  lemma PresentValueOfFutureValue(pv: real, pmt: real, rate: real, n: real, factor: real)
    requires rate == 0.0 || factor != 0.0
    ensures SolvePresentValue(SolveFutureValue(pv, pmt, rate, n, factor), pmt, rate, n, factor) == Num(pv)
  {
    var fv := SolveFutureValue(pv, pmt, rate, n, factor);
    var back := SolvePresentValue(fv, pmt, rate, n, factor);
    if rate != 0.0 {
      var g := pmt * ((factor - 1.0) / rate);
      assert -(fv + g) == pv * factor;
      assert back.value * factor == pv * factor;
      CancelFactor(factor, back.value, pv);
    }
  }

  /** Round trip: the payment solved for a future value, put back into the
      future value formula, gives that future value. */
  lemma FutureValueOfPayment(pv: real, fv: real, rate: real, n: real, factor: real)
    requires SolvePayment(pv, fv, rate, n, factor).Num?
    ensures SolveFutureValue(pv, SolvePayment(pv, fv, rate, n, factor).value, rate, n, factor) == fv
  {
    FutureValueUnique(pv, SolvePayment(pv, fv, rate, n, factor).value, fv, rate, n, factor);
  }

  /** Round trip: the present value solved for, put back into the future value
      formula, gives the future value it was solved from. */
  lemma FutureValueOfPresentValue(fv: real, pmt: real, rate: real, n: real, factor: real)
    requires SolvePresentValue(fv, pmt, rate, n, factor).Num?
    ensures SolveFutureValue(SolvePresentValue(fv, pmt, rate, n, factor).value, pmt, rate, n, factor) == fv
  {
    FutureValueUnique(SolvePresentValue(fv, pmt, rate, n, factor).value, pmt, fv, rate, n, factor);
  }

  /** At a whole number of periods, with the factor the true power, the future
      value is (the negative of) the balance after n periods of a loan of `pv`
      paying `−pmt` each period: the sign convention of cash flows. */
  lemma FutureValueIsGrownBalance(pv: real, pmt: real, rate: real, n: nat)
    ensures SolveFutureValue(pv, pmt, rate, n as real, Pow(1.0 + rate, n)) == -BalanceAfter(pv, rate, -pmt, n)
  {
    if rate == 0.0 {
      ZeroRateBalance(pv, -pmt, n);
    } else {
      BalanceClosedForm(pv, rate, -pmt, n);
      DivideOutRate(rate, BalanceAfter(pv, rate, -pmt, n), pv, Pow(1.0 + rate, n), pmt);
    }
  }

  lemma DivideOutRate(rate: real, b: real, pv: real, q: real, pmt: real)
    requires rate != 0.0
    requires rate * b == rate * pv * q - (-pmt) * (q - 1.0)
    ensures b == pv * q + pmt * ((q - 1.0) / rate)
  {
    calc {
      rate * (pv * q + pmt * ((q - 1.0) / rate));
      rate * pv * q + pmt * (rate * ((q - 1.0) / rate));
      rate * pv * q + pmt * (q - 1.0);
      rate * b;
    }
    CancelFactor(rate, b, pv * q + pmt * ((q - 1.0) / rate));
  }

  /** The zero-rate forms. */
  lemma ZeroRateForms(pv: real, pmt: real, fv: real, n: real, factor: real)
    ensures SolveFutureValue(pv, pmt, 0.0, n, factor) == -(pv + pmt * n)
    ensures SolvePresentValue(fv, pmt, 0.0, n, factor) == Num(-(fv + pmt * n))
    ensures n != 0.0 ==> SolvePayment(pv, fv, 0.0, n, factor) == Num(-(pv + fv) / n)
  {
  }

  // ---------------------------------------------------------------------------
  // solveForRate

  const Tolerance: real := 0.000001
  const MaxIterations: nat := 100

  /** The residual `f` of the equation at a rate, as the solver computes it. */
  function Residual(pow: (real, real) -> real, n: real, pv: real, pmt: real, fv: real, rate: real): real {
    if rate == 0.0 then pv + pmt * n + fv
    else pv * pow(1.0 + rate, n) + pmt * ((pow(1.0 + rate, n) - 1.0) / rate) + fv
  }

  /** A residual within tolerance means the equation nearly holds; a zero one
      means it holds. */
  lemma ResidualZeroIsBalanced(pow: (real, real) -> real, n: real, pv: real, pmt: real, fv: real, rate: real)
    ensures Residual(pow, n, pv, pmt, fv, rate) == 0.0 <==> Balanced(pv, pmt, fv, rate, n, pow(1.0 + rate, n))
  {
  }

  /** `solveForRate`: Newton's method from 10%, at most 100 iterations, never
      letting the rate fall below −99%. The result is in percent. When the
      solver reports convergence, the residual at the returned rate is within
      tolerance. */
  method SolveForRate(pow: (real, real) -> real, n: real, pv: real, pmt: real, fv: real)
    returns (result: real, ghost converged: bool)
    ensures result >= -99.0
    ensures converged ==> Abs(Residual(pow, n, pv, pmt, fv, result / 100.0)) < Tolerance
  {
    converged := false;
    var rate := 0.1;
    for i := 0 to MaxIterations
      invariant rate >= -0.99
    {
      if rate == 0.0 {
        var f := pv + pmt * n + fv;
        if Abs(f) < Tolerance {
          converged := true;
          result := 0.0;
          return;
        }
        rate := 0.001;
        continue;
      }
      var factor := pow(1.0 + rate, n);
      var f := pv * factor + pmt * ((factor - 1.0) / rate) + fv;
      var df := pv * n * pow(1.0 + rate, n - 1.0)
                + pmt * (n * pow(1.0 + rate, n - 1.0) / rate - (factor - 1.0) / (rate * rate));
      if Abs(f) < Tolerance {
        converged := true;
        assert f == Residual(pow, n, pv, pmt, fv, rate * 100.0 / 100.0);
        result := rate * 100.0;
        return;
      }
      if Abs(df) < Tolerance {
        break;
      }
      rate := rate - f / df;
      if rate < -0.99 {
        rate := -0.99;
      }
    }
    result := rate * 100.0;
  }

  // ---------------------------------------------------------------------------
  // solveForPeriods

  /** The residual at a number of periods, for a non-zero rate. */
  function PeriodResidual(pow: (real, real) -> real, r: real, pv: real, pmt: real, fv: real, n: real): real
    requires r != 0.0
  {
    pv * pow(1.0 + r, n) + pmt * ((pow(1.0 + r, n) - 1.0) / r) + fv
  }

  /** `solveForPeriods`: at a zero rate the closed form, which has no answer
      without a payment; otherwise Newton's method from 10 periods, at most
      100 iterations, with a negative step reset to 0.1.

      `Math.log(1 + r)` is defined for 1 + r > 0 only: at 1 + r = 0 it is
      −Infinity and the factor `Math.pow(0, 10)` is 0, below that it is NaN,
      so in both cases `df` is NaN. Then neither test passes, `n` becomes NaN,
      and every later turn computes NaN: the solver returns NaN unless the
      residual at the first guess of 10 periods is already within tolerance. */
  method SolveForPeriods(pow: (real, real) -> real, ln: real -> real, rate: real, pv: real, pmt: real, fv: real)
    returns (result: NumericOrEmpty, ghost converged: bool)
    ensures rate == 0.0 && pmt == 0.0 ==> result == NaN
    ensures rate == 0.0 && pmt != 0.0 ==> result == Num(-(pv + fv) / pmt)
    ensures rate == 0.0 && pmt != 0.0 ==> Balanced(pv, pmt, fv, 0.0, result.value, 1.0)
    ensures rate != 0.0 && rate > -100.0 ==> result.Num? && result.value >= 0.0
    ensures rate <= -100.0 ==> (result.Num? <==> Abs(PeriodResidual(pow, rate / 100.0, pv, pmt, fv, 10.0)) < Tolerance)
    ensures rate <= -100.0 ==> result.Num? || result.NaN?
    ensures rate <= -100.0 && result.Num? ==> result.value == 10.0
    ensures rate != 0.0 && converged ==> result.Num? && Abs(PeriodResidual(pow, rate / 100.0, pv, pmt, fv, result.value)) < Tolerance
  {
    converged := false;
    var r := rate / 100.0;
    if r == 0.0 {
      if pmt == 0.0 {
        result := NaN;
        return;
      }
      result := Num(-(pv + fv) / pmt);
      return;
    }
    var n := Num(10.0);
    for i := 0 to MaxIterations
      invariant n.NaN? || (n.Num? && n.value >= 0.0)
      invariant 1.0 + r > 0.0 ==> n.Num?
      invariant 1.0 + r <= 0.0 && i == 0 ==> n == Num(10.0)
      invariant 1.0 + r <= 0.0 && i > 0 ==> n.NaN? && Abs(PeriodResidual(pow, r, pv, pmt, fv, 10.0)) >= Tolerance
    {
      if n.NaN? {
        // Every quantity computed from a NaN number of periods is NaN, no
        // test passes and `n` stays NaN.
        continue;
      }
      var factor := pow(1.0 + r, n.value);
      var f := pv * factor + pmt * ((factor - 1.0) / r) + fv;
      assert f == PeriodResidual(pow, r, pv, pmt, fv, n.value);
      if Abs(f) < Tolerance {
        converged := true;
        result := n;
        return;
      }
      if 1.0 + r <= 0.0 {
        // `df` is NaN, so `Math.abs(df) < tolerance` fails and `n - f / df` is NaN.
        n := NaN;
        continue;
      }
      var df := pv * factor * ln(1.0 + r) + pmt * (factor * ln(1.0 + r) / r);
      if Abs(df) < Tolerance {
        break;
      }
      var next := n.value - f / df;
      n := Num(if next < 0.0 then 0.1 else next);
    }
    result := n;
  }

  // ---------------------------------------------------------------------------
  // generateChartData

  datatype ChartPoint = ChartPoint(period: nat, principal: real, interest: real)

  /** Point k of the chart: what was put in (the present value and k payments,
      as magnitudes) and the interest, which is what the balance grown at the
      rate has gained beyond that. */
  function ChartPointAt(k: nat, rate: real, pv: real, pmt: real): ChartPoint {
    var contributed := Abs(pv) + k as real * Abs(pmt);
    ChartPoint(k, contributed, BalanceAfter(Abs(pv), rate, -Abs(pmt), k) - contributed)
  }

  /** The first `count` points. */
  function ChartPoints(count: nat, rate: real, pv: real, pmt: real): (points: seq<ChartPoint>)
    ensures |points| == count
    ensures forall k :: 0 <= k < count ==> points[k] == ChartPointAt(k, rate, pv, pmt)
  {
    if count == 0 then [] else ChartPoints(count - 1, rate, pv, pmt) + [ChartPointAt(count - 1, rate, pv, pmt)]
  }

  /** The chart for the whole-period count and the rate: none for a count that
      is not positive or a negative rate, otherwise points 0..min(count, 100). */
  function Chart(totalPeriods: int, rate: real, pv: real, pmt: real): seq<ChartPoint> {
    if totalPeriods <= 0 || rate < 0.0 then []
    else ChartPoints((if totalPeriods < 100 then totalPeriods else 100) + 1, rate, pv, pmt)
  }

  /** `generateChartData`, from the periods field as `toNumber` gives it (NaN
      included: every comparison with NaN fails, so no point is pushed) and the
      rate as a fraction. */
  method GenerateChartData(periods: NumericOrEmpty, rate: real, presentValue: real, payment: real)
    returns (chartDataPoints: seq<ChartPoint>)
    requires periods.Num? || periods.NaN?
    ensures periods.NaN? ==> chartDataPoints == []
    ensures periods.Num? ==> chartDataPoints == Chart(Floor(periods.value), rate, presentValue, payment)
  {
    if periods.NaN? {
      return [];
    }
    var totalPeriods := Floor(periods.value);
    if totalPeriods <= 0 || rate < 0.0 {
      return [];
    }
    chartDataPoints := [];
    var currentPrincipal := Abs(presentValue);
    var totalInterest := 0.0;
    var last := if totalPeriods < 100 then totalPeriods else 100;
    for period := 0 to last + 1
      invariant chartDataPoints == ChartPoints(period, rate, presentValue, payment)
      invariant Tracks(currentPrincipal, totalInterest, if period == 0 then 0 else period - 1,
                       rate, presentValue, payment)
    {
      var point;
      point, currentPrincipal, totalInterest :=
        NextChartPoint(period, rate, presentValue, payment, currentPrincipal, totalInterest);
      chartDataPoints := chartDataPoints + [point];
    }
  }

  /** The running balance and interest after `k` periods: the balance grown at
      the rate with a deposit each period, and the interest it has gained
      beyond what was put in. */
  predicate Tracks(cur: real, interest: real, k: nat, rate: real, pv: real, pmt: real) {
    && cur == BalanceAfter(Abs(pv), rate, -Abs(pmt), k)
    && interest == cur - (Abs(pv) + k as real * Abs(pmt))
  }

  /** The body of the loop of `generateChartData`: point 0 as it stands, then
      per period either the deposit alone (zero rate) or the interest earned and
      the deposit. */
  method NextChartPoint(period: nat, rate: real, pv: real, pmt: real, cur: real, interest: real)
    returns (point: ChartPoint, cur': real, interest': real)
    requires rate >= 0.0
    requires Tracks(cur, interest, if period == 0 then 0 else period - 1, rate, pv, pmt)
    ensures point == ChartPointAt(period, rate, pv, pmt)
    ensures Tracks(cur', interest', period, rate, pv, pmt)
  {
    if period == 0 {
      point, cur', interest' := ChartPoint(period, cur, 0.0), cur, interest;
    } else if rate == 0.0 {
      ZeroRateChartStep(pv, pmt, period, cur);
      var monthlyPayment := Abs(pmt);
      cur' := cur + monthlyPayment;
      interest' := interest;
      ZeroRateBalance(Abs(pv), -Abs(pmt), period - 1);
      point := ChartPoint(period, cur', interest');
    } else {
      CompoundChartStep(pv, rate, pmt, period, cur, interest);
      var interestEarned := cur * rate;
      interest' := interest + interestEarned;
      cur' := cur * (1.0 + rate) + Abs(pmt);
      point := ChartPoint(period, cur' - interest', interest');
    }
  }

  /** One period of compound growth in `generateChartData`: the balance earns
      the rate and takes the deposit, the interest earned is added up, and the
      point pushed is the next one of the chart. */
  lemma CompoundChartStep(pv: real, rate: real, pmt: real, k: nat, cur: real, interest: real)
    requires k >= 1
    requires cur == BalanceAfter(Abs(pv), rate, -Abs(pmt), k - 1)
    requires interest == cur - (Abs(pv) + (k - 1) as real * Abs(pmt))
    ensures var cur', interest' := cur * (1.0 + rate) + Abs(pmt), interest + cur * rate;
            && cur' == BalanceAfter(Abs(pv), rate, -Abs(pmt), k)
            && interest' == cur' - (Abs(pv) + k as real * Abs(pmt))
            && ChartPoint(k, cur' - interest', interest') == ChartPointAt(k, rate, pv, pmt)
  {
    var cur', interest' := cur * (1.0 + rate) + Abs(pmt), interest + cur * rate;
    assert cur' - interest' == Abs(pv) + k as real * Abs(pmt);
  }

  /** One period at a zero rate: the deposit is added and no interest is. */
  lemma ZeroRateChartStep(pv: real, pmt: real, k: nat, cur: real)
    requires k >= 1
    requires cur == BalanceAfter(Abs(pv), 0.0, -Abs(pmt), k - 1)
    ensures var cur' := cur + Abs(pmt);
            && cur' == BalanceAfter(Abs(pv), 0.0, -Abs(pmt), k)
            && 0.0 == cur' - (Abs(pv) + k as real * Abs(pmt))
            && ChartPoint(k, cur', 0.0) == ChartPointAt(k, 0.0, pv, pmt)
  {
    ZeroRateBalance(Abs(pv), -Abs(pmt), k);
    ZeroRateBalance(Abs(pv), -Abs(pmt), k - 1);
  }

  /** Point 0 shows the present value and no interest; every point's interest
      is not negative when the rate is not, and is zero at a zero rate. */
  lemma ChartPointFacts(k: nat, rate: real, pv: real, pmt: real)
    ensures ChartPointAt(0, rate, pv, pmt) == ChartPoint(0, Abs(pv), 0.0)
    ensures rate >= 0.0 ==> ChartPointAt(k, rate, pv, pmt).interest >= 0.0
    ensures rate == 0.0 ==> ChartPointAt(k, rate, pv, pmt).interest == 0.0
  {
    if rate >= 0.0 {
      GrowthCoversContributions(Abs(pv), rate, Abs(pmt), k);
    }
    if rate == 0.0 {
      ZeroRateBalance(Abs(pv), -Abs(pmt), k);
    }
  }

  /** A non-negative balance growing at a non-negative rate, with non-negative
      deposits, is at least what was put in. */
  lemma {:induction false} GrowthCoversContributions(a: real, rate: real, c: real, k: nat)
    requires a >= 0.0 && rate >= 0.0 && c >= 0.0
    ensures BalanceAfter(a, rate, -c, k) >= a + k as real * c
  {
    if k > 0 {
      GrowthCoversContributions(a, rate, c, k - 1);
      var b := BalanceAfter(a, rate, -c, k - 1);
      assert b * rate >= 0.0;
    }
  }

  /** The chart has min(count, 100) + 1 points numbered from 0, or none. */
  lemma ChartLength(totalPeriods: int, rate: real, pv: real, pmt: real)
    ensures totalPeriods <= 0 || rate < 0.0 ==> Chart(totalPeriods, rate, pv, pmt) == []
    ensures totalPeriods > 0 && rate >= 0.0 ==>
              |Chart(totalPeriods, rate, pv, pmt)| == (if totalPeriods < 100 then totalPeriods else 100) + 1
              && forall k :: 0 <= k < |Chart(totalPeriods, rate, pv, pmt)| ==> Chart(totalPeriods, rate, pv, pmt)[k].period == k
  {
  }

  // ---------------------------------------------------------------------------
  // validateInputs

  const RequiredFields: seq<Field> := [Periods, InterestRate, PresentValue, Payment, FutureValue]

  /** The field's key in the source. */
  function FieldKey(f: Field): string {
    match f
    case Periods => "periods"
    case InterestRate => "interestRate"
    case PresentValue => "presentValue"
    case Payment => "payment"
    case FutureValue => "futureValue"
  }

  function ValueOf(data: TVMData, f: Field): NumericOrEmpty {
    match f
    case Periods => data.periods
    case InterestRate => data.interestRate
    case PresentValue => data.presentValue
    case Payment => data.payment
    case FutureValue => data.futureValue
  }

  /** `requiredFields.filter(field => field !== solveFor)` */
  function Without(fields: seq<Field>, skip: Field): (r: seq<Field>)
    ensures forall f :: f in r <==> f in fields && f != skip
  {
    if fields == [] then []
    else (if fields[0] == skip then [] else [fields[0]]) + Without(fields[1..], skip)
  }

  /** The fields to check: the four that are not solved for. */
  lemma FieldsToValidate(skip: Field)
    ensures |Without(RequiredFields, skip)| == 4
    ensures skip !in Without(RequiredFields, skip)
  {
  }

  /** The first field of `fields` whose value is not a valid number. */
  function FirstInvalid(data: TVMData, fields: seq<Field>): Option<Field> {
    if fields == [] then None
    else if !IsValidNumber(ValueOf(data, fields[0])) then Some(fields[0])
    else FirstInvalid(data, fields[1..])
  }

  /** No field is reported exactly when all are valid; a reported field is
      invalid and every one before it is valid. */
  lemma {:induction false} FirstInvalidSpec(data: TVMData, fields: seq<Field>)
    ensures FirstInvalid(data, fields).None? <==> forall i :: 0 <= i < |fields| ==> IsValidNumber(ValueOf(data, fields[i]))
    ensures FirstInvalid(data, fields).Some? ==>
              exists i :: 0 <= i < |fields| && fields[i] == FirstInvalid(data, fields).value
                          && !IsValidNumber(ValueOf(data, fields[i]))
                          && forall j :: 0 <= j < i ==> IsValidNumber(ValueOf(data, fields[j]))
  {
    if fields != [] {
      FirstInvalidSpec(data, fields[1..]);
      if IsValidNumber(ValueOf(data, fields[0])) && FirstInvalid(data, fields[1..]).Some? {
        var i :| 0 <= i < |fields[1..]| && fields[1..][i] == FirstInvalid(data, fields[1..]).value
                 && !IsValidNumber(ValueOf(data, fields[1..][i]))
                 && forall j :: 0 <= j < i ==> IsValidNumber(ValueOf(data, fields[1..][j]));
        assert fields[i + 1] == fields[1..][i];
        assert forall j :: 1 <= j < i + 1 ==> fields[j] == fields[1..][j - 1];
      }
    }
  }

  /** The message for an invalid field. */
  function InvalidMessage(f: Field): string {
    "Please enter a valid " + FormatFieldName(FieldKey(f))
  }

  /** `validateInputs` */
  method ValidateInputs(data: TVMData) returns (r: Option<string>)
    ensures FirstInvalid(data, Without(RequiredFields, data.solveFor)).None? ==> r == None
    ensures FirstInvalid(data, Without(RequiredFields, data.solveFor)).Some? ==>
              r == Some(InvalidMessage(FirstInvalid(data, Without(RequiredFields, data.solveFor)).value))
  {
    var fieldsToValidate := Without(RequiredFields, data.solveFor);
    ghost var first := FirstInvalid(data, fieldsToValidate);
    assert fieldsToValidate[0..] == fieldsToValidate;
    for i := 0 to |fieldsToValidate|
      invariant first == FirstInvalid(data, fieldsToValidate[i..])
    {
      var field := fieldsToValidate[i];
      FirstInvalidAt(data, fieldsToValidate, i);
      if !IsValidNumber(ValueOf(data, field)) {
        assert first == Some(field);
        return Some(InvalidMessage(field));
      }
    }
    assert fieldsToValidate[|fieldsToValidate|..] == [];
    return None;
  }

  /** The search from position `i` reports the field there when it is invalid
      and otherwise goes on with the next. */
  lemma FirstInvalidAt(data: TVMData, fields: seq<Field>, i: nat)
    requires i < |fields|
    ensures FirstInvalid(data, fields[i..])
            == if IsValidNumber(ValueOf(data, fields[i])) then FirstInvalid(data, fields[i + 1..]) else Some(fields[i])
  {
    assert fields[i..][1..] == fields[i + 1..];
  }

  // ---------------------------------------------------------------------------
  // State: calculate and updateData

  /** The calculator's state: inputs, the result shown (`null` is `None`), the
      error message and the chart. */
  datatype TVMState = TVMState(data: TVMData, result: Option<NumericOrEmpty>, error: string,
                               chartData: seq<ChartPoint>)

  /** The chart's inputs are finite numbers, NaN allowed for the periods. */
  predicate ChartInputsModelled(data: TVMData) {
    && (ToNumber(data.periods).Num? || ToNumber(data.periods).NaN?)
    && ToNumber(data.interestRate).Num? && ToNumber(data.presentValue).Num? && ToNumber(data.payment).Num?
  }

  /** The chart the current inputs produce. */
  function ChartOfData(data: TVMData): seq<ChartPoint>
    requires ChartInputsModelled(data)
  {
    var periods := ToNumber(data.periods);
    if periods.NaN? then []
    else Chart(Floor(periods.value), ToNumber(data.interestRate).value / 100.0,
               ToNumber(data.presentValue).value, ToNumber(data.payment).value)
  }

  /** Every field other than the one solved for holds a valid number. */
  predicate AllValidExcept(data: TVMData, skip: Field) {
    && (skip != Periods ==> IsValidNumber(data.periods))
    && (skip != InterestRate ==> IsValidNumber(data.interestRate))
    && (skip != PresentValue ==> IsValidNumber(data.presentValue))
    && (skip != Payment ==> IsValidNumber(data.payment))
    && (skip != FutureValue ==> IsValidNumber(data.futureValue))
  }

  /** With no invalid field reported, every field of the list is valid. */
  lemma {:induction false} NoneInvalid(data: TVMData, fields: seq<Field>)
    requires FirstInvalid(data, fields).None?
    ensures forall f :: f in fields ==> IsValidNumber(ValueOf(data, f))
  {
    if fields != [] {
      NoneInvalid(data, fields[1..]);
      assert forall f :: f in fields ==> f == fields[0] || f in fields[1..];
    }
  }

  /** With every field of the list valid, none is reported. */
  lemma {:induction false} AllValid(data: TVMData, fields: seq<Field>)
    requires forall f :: f in fields ==> IsValidNumber(ValueOf(data, f))
    ensures FirstInvalid(data, fields).None?
  {
    if fields != [] {
      assert fields[0] in fields;
      assert forall f :: f in fields[1..] ==> f in fields;
      AllValid(data, fields[1..]);
    }
  }

  /** Validation passes exactly when the four fields not solved for are valid
      numbers; the one solved for is not looked at. */
  lemma ValidationAccepts(data: TVMData)
    ensures FirstInvalid(data, Without(RequiredFields, data.solveFor)).None? <==> AllValidExcept(data, data.solveFor)
  {
    var fields := Without(RequiredFields, data.solveFor);
    forall f: Field
      ensures f in RequiredFields
    {
      match f
      case Periods => assert RequiredFields[0] == f;
      case InterestRate => assert RequiredFields[1] == f;
      case PresentValue => assert RequiredFields[2] == f;
      case Payment => assert RequiredFields[3] == f;
      case FutureValue => assert RequiredFields[4] == f;
    }
    if FirstInvalid(data, fields).None? {
      NoneInvalid(data, fields);
      assert data.solveFor != Periods ==> IsValidNumber(ValueOf(data, Periods));
      assert data.solveFor != InterestRate ==> IsValidNumber(ValueOf(data, InterestRate));
      assert data.solveFor != PresentValue ==> IsValidNumber(ValueOf(data, PresentValue));
      assert data.solveFor != Payment ==> IsValidNumber(ValueOf(data, Payment));
      assert data.solveFor != FutureValue ==> IsValidNumber(ValueOf(data, FutureValue));
    }
    if AllValidExcept(data, data.solveFor) {
      forall f | f in fields
        ensures IsValidNumber(ValueOf(data, f))
      {
        assert f != data.solveFor;
        match f
        case Periods =>
        case InterestRate =>
        case PresentValue =>
        case Payment =>
        case FutureValue =>
      }
      AllValid(data, fields);
    }
  }

  const PeriodsError := "Unable to solve for periods with given values"

  /** What the `switch (solveFor)` of `calculate` shows for inputs that passed
      validation: a closed form for the future value, present value and
      payment; a rate of at least −99% from the rate solver; a number of
      periods that is not negative, or the error when there is none. For the
      periods, a zero rate shows −(pv + fv)/pmt unless there is no payment or
      that value is negative; a non-zero rate above −100% always shows a
      result; at −100% or below only the first guess of 10 periods can be
      shown, when its residual is within tolerance. */
  predicate Solved(pow: (real, real) -> real, d: TVMData, result: Option<NumericOrEmpty>, error: string)
    requires AllValidExcept(d, d.solveFor)
  {
    && (d.solveFor == FutureValue ==>
          var n, rate, pv, pmt := d.periods.value, d.interestRate.value / 100.0, d.presentValue.value, d.payment.value;
          error == "" && result == Some(Num(SolveFutureValue(pv, pmt, rate, n, pow(1.0 + rate, n)))))
    && (d.solveFor == PresentValue ==>
          var n, rate, pmt, fv := d.periods.value, d.interestRate.value / 100.0, d.payment.value, d.futureValue.value;
          error == "" && result == Some(SolvePresentValue(fv, pmt, rate, n, pow(1.0 + rate, n))))
    && (d.solveFor == Payment ==>
          var n, rate, pv, fv := d.periods.value, d.interestRate.value / 100.0, d.presentValue.value, d.futureValue.value;
          error == "" && result == Some(SolvePayment(pv, fv, rate, n, pow(1.0 + rate, n))))
    && (d.solveFor == InterestRate ==>
          error == "" && result.Some? && result.value.Num? && result.value.value >= -99.0)
    && (d.solveFor == Periods ==>
          && (result.None? <==> error == PeriodsError)
          && (result.Some? ==> error == "" && result.value.Num? && result.value.value >= 0.0)
          && (d.interestRate.value == 0.0 && d.payment.value == 0.0 ==> result.None?)
          && (d.interestRate.value == 0.0 && d.payment.value != 0.0 ==>
                var pv, pmt, fv := d.presentValue.value, d.payment.value, d.futureValue.value;
                && (result.Some? <==> -(pv + fv) / pmt >= 0.0)
                && (result.Some? ==> result.value == Num(-(pv + fv) / pmt)))
          && (d.interestRate.value != 0.0 && d.interestRate.value > -100.0 ==> result.Some?)
          && (d.interestRate.value <= -100.0 ==>
                var r, pv, pmt, fv := d.interestRate.value / 100.0, d.presentValue.value, d.payment.value, d.futureValue.value;
                && (result.Some? <==> Abs(PeriodResidual(pow, r, pv, pmt, fv, 10.0)) < Tolerance)
                && (result.Some? ==> result.value == Num(10.0))))
  }

  /** The `switch (solveFor)` of `calculate`, on inputs that passed
      validation: the result shown and the error set. */
  method SolveQuantity(pow: (real, real) -> real, ln: real -> real, d: TVMData)
    returns (result: Option<NumericOrEmpty>, error: string)
    requires AllValidExcept(d, d.solveFor)
    ensures Solved(pow, d, result, error)
  {
    error := "";
    result := None;
    var periods := ToNumber(d.periods);
    var interestRate := ToNumber(d.interestRate);
    var presentValue := ToNumber(d.presentValue);
    var payment := ToNumber(d.payment);
    var futureValue := ToNumber(d.futureValue);
    match d.solveFor {
      case FutureValue =>
        var n, rate := periods.value, interestRate.value / 100.0;
        result := Some(Num(SolveFutureValue(presentValue.value, payment.value, rate, n, pow(1.0 + rate, n))));
      case PresentValue =>
        var n, rate := periods.value, interestRate.value / 100.0;
        result := Some(SolvePresentValue(futureValue.value, payment.value, rate, n, pow(1.0 + rate, n)));
      case Payment =>
        var n, rate := periods.value, interestRate.value / 100.0;
        result := Some(SolvePayment(presentValue.value, futureValue.value, rate, n, pow(1.0 + rate, n)));
      case InterestRate =>
        var r, _ := SolveForRate(pow, periods.value, presentValue.value, payment.value, futureValue.value);
        result := Some(Num(r));
      case Periods =>
        result, error := PeriodsCase(pow, ln, interestRate.value, presentValue.value, payment.value, futureValue.value);
    }
  }

  /** `case 'periods'`: the solver's answer, or the error when it is NaN or
      negative. */
  method PeriodsCase(pow: (real, real) -> real, ln: real -> real, ratePercent: real, pv: real, pmt: real, fv: real)
    returns (result: Option<NumericOrEmpty>, error: string)
    ensures result.None? <==> error == PeriodsError
    ensures result.Some? ==> error == "" && result.value.Num? && result.value.value >= 0.0
    ensures ratePercent == 0.0 && pmt == 0.0 ==> result.None?
    ensures ratePercent == 0.0 && pmt != 0.0 ==>
              && (result.Some? <==> -(pv + fv) / pmt >= 0.0)
              && (result.Some? ==> result.value == Num(-(pv + fv) / pmt))
    ensures ratePercent != 0.0 && ratePercent > -100.0 ==> result.Some?
    ensures ratePercent <= -100.0 ==>
              (result.Some? <==> Abs(PeriodResidual(pow, ratePercent / 100.0, pv, pmt, fv, 10.0)) < Tolerance)
    ensures ratePercent <= -100.0 && result.Some? ==> result.value == Num(10.0)
  {
    var n, _ := SolveForPeriods(pow, ln, ratePercent, pv, pmt, fv);
    if n.NaN? || (n.Num? && n.value < 0.0) {
      result, error := None, PeriodsError;
    } else {
      result, error := Some(n), "";
    }
  }

  /** `calculate`: the error and result are cleared; invalid inputs set the
      error and stop; otherwise the quantity asked for is solved (an
      unsolvable number of periods sets the error instead) and the chart is
      regenerated from the inputs. */
  method Calculate(pow: (real, real) -> real, ln: real -> real, state: TVMState) returns (next: TVMState)
    requires AllValidExcept(state.data, state.data.solveFor) ==> ChartInputsModelled(state.data)
    ensures FirstInvalid(state.data, Without(RequiredFields, state.data.solveFor)).Some? ==>
              next == state.(error := InvalidMessage(FirstInvalid(state.data, Without(RequiredFields, state.data.solveFor)).value),
                             result := None)
    ensures AllValidExcept(state.data, state.data.solveFor) ==>
              && next.data == state.data
              && next.chartData == ChartOfData(state.data)
              && Solved(pow, state.data, next.result, next.error)
  {
    ValidationAccepts(state.data);
    next := state.(error := "", result := None);
    var validationError := ValidateInputs(state.data);
    if validationError.Some? {
      next := next.(error := validationError.value);
      return;
    }
    var result, error, chart := SolveAndChart(pow, ln, state.data);
    next := next.(result := result, error := error, chartData := chart);
  }

  /** The `try` block of `calculate` for inputs that passed validation: the
      quantity solved for, then the chart regenerated from the inputs. */
  method SolveAndChart(pow: (real, real) -> real, ln: real -> real, data: TVMData)
    returns (result: Option<NumericOrEmpty>, error: string, chart: seq<ChartPoint>)
    requires AllValidExcept(data, data.solveFor) && ChartInputsModelled(data)
    ensures Solved(pow, data, result, error)
    ensures chart == ChartOfData(data)
  {
    result, error := SolveQuantity(pow, ln, data);
    var rate := ToNumber(data.interestRate).value / 100.0;
    chart := GenerateChartData(ToNumber(data.periods), rate, ToNumber(data.presentValue).value,
                               ToNumber(data.payment).value);
  }

  /** What `updateData` writes: a number into an input field, or a new
      quantity to solve for. */
  datatype Update = SetValue(field: Field, value: NumericOrEmpty) | SetSolveFor(solveFor: Field)

  /** `updateData`: only the named field changes; choosing a new quantity to
      solve for also clears the result, the error and the chart. */
  function UpdateData(state: TVMState, u: Update): (next: TVMState)
    ensures u.SetValue? ==>
              && ValueOf(next.data, u.field) == u.value
              && (forall g :: g != u.field ==> ValueOf(next.data, g) == ValueOf(state.data, g))
              && next.data.solveFor == state.data.solveFor
              && next.result == state.result && next.error == state.error && next.chartData == state.chartData
    ensures u.SetSolveFor? ==>
              && next.data.solveFor == u.solveFor
              && (forall g :: ValueOf(next.data, g) == ValueOf(state.data, g))
              && next.result == None && next.error == "" && next.chartData == []
  {
    match u
    case SetSolveFor(s) => state.(data := state.data.(solveFor := s), result := None, error := "", chartData := [])
    case SetValue(f, v) =>
      var d := state.data;
      var d' := match f
                case Periods => d.(periods := v)
                case InterestRate => d.(interestRate := v)
                case PresentValue => d.(presentValue := v)
                case Payment => d.(payment := v)
                case FutureValue => d.(futureValue := v);
      state.(data := d')
  }

  /** Writing back the value a field already holds changes nothing. */
  lemma UpdateWithSameValue(state: TVMState, f: Field)
    ensures UpdateData(state, SetValue(f, ValueOf(state.data, f))) == state
  {
  }
}
