/** The auto loan calculator of src/components/AutoLoanCalculator.tsx: input
    checks, the level monthly payment (with its zero-rate branch), the
    month-by-month schedule, and the estimate of the car's value at the end of
    the loan. */
module AutoLoan {
  import opened Numeric
  import opened CalculatorValidation
  import opened Schedule
  import opened Annuity

  /** The calculator's input fields; the term is in years, the rate in percent. */
  datatype AutoLoanData = AutoLoanData(loanAmount: NumericOrEmpty, interestRate: NumericOrEmpty,
                                       loanTerm: NumericOrEmpty)

  // ---------------------------------------------------------------------------
  // validateInputs

  /** A valid positive amount, a valid rate that is not negative and a valid
      positive term. */
  predicate InputsAccepted(data: AutoLoanData) {
    && IsValidNumber(data.loanAmount) && data.loanAmount.value > 0.0
    && IsValidNumber(data.interestRate) && data.interestRate.value >= 0.0
    && IsValidNumber(data.loanTerm) && data.loanTerm.value > 0.0
  }

  /** `validateInputs`: every field is checked for being a number before any
      is checked for its range; the first failure's message is returned. */
  function ValidateInputs(data: AutoLoanData): (r: Option<string>)
    ensures r.None? <==> InputsAccepted(data)
    ensures !IsValidNumber(data.loanAmount) ==> r == Some("Please enter a valid loan amount")
    ensures IsValidNumber(data.loanAmount) && !IsValidNumber(data.interestRate)
            ==> r == Some("Please enter a valid interest rate")
    ensures IsValidNumber(data.loanAmount) && IsValidNumber(data.interestRate) && !IsValidNumber(data.loanTerm)
            ==> r == Some("Please enter a valid loan term")
    ensures IsValidNumber(data.loanAmount) && IsValidNumber(data.interestRate) && IsValidNumber(data.loanTerm)
            && data.loanAmount.value <= 0.0
            ==> r == Some("Loan amount must be greater than 0")
    ensures IsValidNumber(data.loanAmount) && IsValidNumber(data.interestRate) && IsValidNumber(data.loanTerm)
            && data.loanAmount.value > 0.0 && data.interestRate.value < 0.0
            ==> r == Some("Interest rate cannot be negative")
    ensures IsValidNumber(data.loanAmount) && IsValidNumber(data.interestRate) && IsValidNumber(data.loanTerm)
            && data.loanAmount.value > 0.0 && data.interestRate.value >= 0.0 && data.loanTerm.value <= 0.0
            ==> r == Some("Loan term must be greater than 0")
  {
    if !IsValidNumber(data.loanAmount) then Some("Please enter a valid loan amount")
    else if !IsValidNumber(data.interestRate) then Some("Please enter a valid interest rate")
    else if !IsValidNumber(data.loanTerm) then Some("Please enter a valid loan term")
    else
      var amount := ToNumber(data.loanAmount).value;
      var rate := ToNumber(data.interestRate).value;
      var term := ToNumber(data.loanTerm).value;
      if amount <= 0.0 then Some("Loan amount must be greater than 0")
      else if rate < 0.0 then Some("Interest rate cannot be negative")
      else if term <= 0.0 then Some("Loan term must be greater than 0")
      else None
  }

  /** An invalid field is reported before any out-of-range one: with the term
      not a number, the message names the term whatever the other values. */
  lemma ValidityBeforeRange(data: AutoLoanData)
    requires IsValidNumber(data.loanAmount) && IsValidNumber(data.interestRate) && !IsValidNumber(data.loanTerm)
    ensures ValidateInputs(data) == Some("Please enter a valid loan term")
  {
  }

  // ---------------------------------------------------------------------------
  // calculate

  /** The schedule loop of `calculate`: `numberOfPayments` months at the given
      payment, with no interest charged when the rate is zero. */
  method PaymentSchedule(loanAmount: real, monthlyRate: real, monthlyPayment: real, numberOfPayments: nat)
    returns (paymentHistory: seq<Row>, totalInterest: real)
    ensures paymentHistory == Amortize(loanAmount, monthlyRate, monthlyPayment, numberOfPayments)
    ensures totalInterest == SumInterest(paymentHistory)
  {
    var balance := loanAmount;
    paymentHistory := [];
    totalInterest := 0.0;
    for month := 1 to numberOfPayments + 1
      invariant balance == BalanceAfter(loanAmount, monthlyRate, monthlyPayment, month - 1)
      invariant paymentHistory == Amortize(loanAmount, monthlyRate, monthlyPayment, month - 1)
      invariant totalInterest == SumInterest(paymentHistory)
    {
      var interestPayment := if monthlyRate == 0.0 then 0.0 else balance * monthlyRate;
      var principalPayment := monthlyPayment - interestPayment;
      balance := balance - principalPayment;
      totalInterest := totalInterest + interestPayment;
      var row := Row(month, monthlyPayment, principalPayment, interestPayment, Max(0.0, balance));
      assert row == ScheduleRow(loanAmount, monthlyRate, monthlyPayment, month);
      SumsAppend(paymentHistory, row);
      paymentHistory := paymentHistory + [row];
    }
  }

  datatype Results = Results(monthlyPayment: real, totalInterest: real, totalPaid: real)

  /** The calculator's state: its inputs, the last results and schedule, and
      the error message shown (empty for none). */
  datatype AutoLoanState = AutoLoanState(data: AutoLoanData, results: Option<Results>,
                                         schedule: seq<Row>, error: string)

  /** `calculate`: on invalid inputs only the error message changes; on valid
      ones the error is cleared and the results and schedule are those of the
      level payment over `loanTerm × 12` months at `interestRate / 100 / 12`. */
  method Calculate(state: AutoLoanState) returns (next: AutoLoanState)
    requires InputsAccepted(state.data) ==> (state.data.loanTerm.value * 12.0).Floor as real == state.data.loanTerm.value * 12.0
    ensures !InputsAccepted(state.data) ==> next == state.(error := ValidateInputs(state.data).value)
    ensures InputsAccepted(state.data) ==>
              var loan, rate, n := state.data.loanAmount.value, state.data.interestRate.value / 100.0 / 12.0, MonthsOfYears(state.data.loanTerm.value);
              var rows := Amortize(loan, rate, LevelPayment(loan, rate, n), n);
              && n >= 1 && n as real == state.data.loanTerm.value * 12.0
              && next == state.(error := "", schedule := rows,
                              results := Some(Results(LevelPayment(loan, rate, n), SumInterest(rows), loan + SumInterest(rows))))
  {
    var validationError := ValidateInputs(state.data);
    if validationError.Some? {
      next := state.(error := validationError.value);
      return;
    }
    next := state.(error := "");
    var loanAmount := ToNumber(state.data.loanAmount).value;
    var interestRate := ToNumber(state.data.interestRate).value;
    var loanTerm := ToNumber(state.data.loanTerm).value;
    var monthlyRate := interestRate / 100.0 / 12.0;
    var numberOfPayments := MonthsOfYears(state.data.loanTerm.value);
    assert numberOfPayments as real == loanTerm * 12.0 > 0.0;
    var monthlyPayment: real;
    if monthlyRate == 0.0 {
      monthlyPayment := loanAmount / numberOfPayments as real;
    } else {
      PowAboveOne(1.0 + monthlyRate, numberOfPayments);
      monthlyPayment := (loanAmount * monthlyRate * Pow(1.0 + monthlyRate, numberOfPayments))
                        / (Pow(1.0 + monthlyRate, numberOfPayments) - 1.0);
    }
    assert monthlyPayment == LevelPayment(loanAmount, monthlyRate, numberOfPayments);
    var paymentHistory, totalInterest := PaymentSchedule(loanAmount, monthlyRate, monthlyPayment, numberOfPayments);
    next := next.(results := Some(Results(monthlyPayment, totalInterest, loanAmount + totalInterest)),
                  schedule := paymentHistory);
  }

  /** At a zero rate the payment is an equal share of the loan and no row
      carries interest. */
  lemma ZeroRateSchedule(loan: real, n: nat)
    requires n >= 1
    ensures LevelPayment(loan, 0.0, n) * n as real == loan
    ensures |Amortize(loan, 0.0, LevelPayment(loan, 0.0, n), n)| == n
    ensures forall i :: 0 <= i < n ==> Amortize(loan, 0.0, LevelPayment(loan, 0.0, n), n)[i].interest == 0.0
  {
    ZeroRateRows(loan, LevelPayment(loan, 0.0, n), n);
  }

  // ---------------------------------------------------------------------------
  // The depreciation estimate

  /** The car's value after `term` years: 20% lost in the first year and 15%
      in each later one. */
  function Depreciated(amount: real, term: nat): real {
    if term == 0 then amount else amount * 0.8 * Pow(0.85, term - 1)
  }

  /** The estimate of the component's body: the value depreciated step by step,
      then rounded down to a multiple of 500. */
  method EstimatedValue(amount: real, term: nat) returns (estimatedValue: real)
    ensures (estimatedValue / 500.0).Floor as real == estimatedValue / 500.0
    ensures estimatedValue <= Depreciated(amount, term) < estimatedValue + 500.0
  {
    estimatedValue := amount;
    if term > 0 {
      estimatedValue := estimatedValue * 0.8;
      if term > 1 {
        estimatedValue := estimatedValue * Pow(0.85, term - 1);
      }
    }
    assert estimatedValue == Depreciated(amount, term);
    RoundDownTo500(estimatedValue);
    estimatedValue := Floor(estimatedValue / 500.0) as real * 500.0;
  }

  /** `toNumber(x || 0)`: '', 0 and NaN are falsy and become 0; any other
      string survives `||` and `toNumber` makes it 0. */
  function NumberOrZero(v: NumericOrEmpty): (r: NumericOrEmpty)
    ensures r.Num? || r.Infinite?
    ensures IsValidNumber(v) ==> r == v
    ensures r.Infinite? <==> v.Infinite?
    ensures !IsValidNumber(v) && !v.Infinite? ==> r == Num(0.0)
  {
    match v
    case Num(_) => v
    case Infinite => v
    case NaN => Num(0.0)
    case Str(_) => Num(0.0)
  }

  /** The whole years the estimate depreciates for: none unless the term read
      is positive. */
  function DepreciationYears(term: real): nat
    requires term <= 0.0 || term.Floor as real == term
  {
    if term <= 0.0 then 0 else term.Floor as nat
  }

  /** The estimate as the component computes it from its fields, each read as
      `toNumber(data?.x || 0)`: an empty or NaN amount estimates 0, and an
      empty, NaN or non-positive term leaves the amount undepreciated. */
  method EstimateOfData(data: AutoLoanData) returns (estimatedValue: real)
    requires NumberOrZero(data.loanAmount).Num?
    requires NumberOrZero(data.loanTerm).Num?
    requires var t := NumberOrZero(data.loanTerm).value; t <= 0.0 || t.Floor as real == t
    ensures var amount := NumberOrZero(data.loanAmount).value;
            var years := DepreciationYears(NumberOrZero(data.loanTerm).value);
            && (estimatedValue / 500.0).Floor as real == estimatedValue / 500.0
            && estimatedValue <= Depreciated(amount, years) < estimatedValue + 500.0
    ensures !IsValidNumber(data.loanAmount) ==> estimatedValue == 0.0
    ensures !IsValidNumber(data.loanTerm) ==>
              estimatedValue <= NumberOrZero(data.loanAmount).value < estimatedValue + 500.0
  {
    var amount := NumberOrZero(data.loanAmount).value;
    var years := DepreciationYears(NumberOrZero(data.loanTerm).value);
    estimatedValue := EstimatedValue(amount, years);
    if !IsValidNumber(data.loanAmount) {
      assert Depreciated(amount, years) == 0.0;
      NoMultipleBelowZero(estimatedValue);
    }
  }

  /** The only multiple of 500 in (−500, 0] is 0. */
  lemma NoMultipleBelowZero(v: real)
    requires (v / 500.0).Floor as real == v / 500.0 && v <= 0.0 < v + 500.0
    ensures v == 0.0
  {
    var k := (v / 500.0).Floor;
    assert v == k as real * 500.0;
  }

  /** `Math.floor(x / 500) * 500` is the multiple of 500 at or just below `x`. */
  lemma RoundDownTo500(x: real)
    ensures var v := Floor(x / 500.0) as real * 500.0;
            (v / 500.0).Floor as real == v / 500.0 && v <= x < v + 500.0
  {
    var k := Floor(x / 500.0);
    var v := k as real * 500.0;
    assert v / 500.0 == k as real;
    assert k as real <= x / 500.0 < k as real + 1.0;
  }

  /** A car is worth no more, and no less than nothing, as the years pass. */
  lemma DepreciationFalls(amount: real, term: nat, longer: nat)
    requires amount >= 0.0 && term <= longer
    ensures 0.0 <= Depreciated(amount, longer) <= Depreciated(amount, term) <= amount
  {
    DepreciatedBounds(amount, longer);
    DepreciatedBounds(amount, term);
    if term > 0 {
      PowAntitone(0.85, term - 1, longer - 1);
      Decreasing(amount * 0.8, Pow(0.85, longer - 1), Pow(0.85, term - 1));
      assert Depreciated(amount, longer) == amount * 0.8 * Pow(0.85, longer - 1);
      assert Depreciated(amount, term) == amount * 0.8 * Pow(0.85, term - 1);
    }
  }

  lemma DepreciatedBounds(amount: real, term: nat)
    requires amount >= 0.0
    ensures 0.0 <= Depreciated(amount, term) <= amount
  {
    if term > 0 {
      var p := Pow(0.85, term - 1);
      PowPositive(0.85, term - 1);
      PowAntitone(0.85, 0, term - 1);
      assert 0.0 < p <= 1.0;
      Decreasing(amount * 0.8, 0.0, p);
      Decreasing(amount * 0.8, p, 1.0);
    }
  }

  lemma Decreasing(a: real, x: real, y: real)
    requires a >= 0.0 && x <= y
    ensures a * x <= a * y
  {
  }
}
