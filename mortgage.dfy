/** The mortgage calculator of src/components/MortgageCalculator.tsx: input
    checks, the split of the home price into down payment and loan, the
    monthly payment, the monthly schedule and its yearly table. */
module Mortgage {
  import opened Numeric
  import opened CalculatorValidation
  import opened Schedule
  import opened Annuity

  /** The calculator's input fields; the down payment and the rate are in
      percent, the term in years. */
  datatype MortgageData = MortgageData(homePrice: NumericOrEmpty, downPaymentPercent: NumericOrEmpty,
                                       interestRate: NumericOrEmpty, loanTerm: NumericOrEmpty)

  // ---------------------------------------------------------------------------
  // validateInputs

  /** A valid positive price, a valid down payment of at least 0% and less than
      100%, a valid rate that is not negative and a valid positive term. */
  predicate InputsAccepted(data: MortgageData) {
    && IsValidNumber(data.homePrice) && data.homePrice.value > 0.0
    && IsValidNumber(data.downPaymentPercent)
    && 0.0 <= data.downPaymentPercent.value < 100.0
    && IsValidNumber(data.interestRate) && data.interestRate.value >= 0.0
    && IsValidNumber(data.loanTerm) && data.loanTerm.value > 0.0
  }

  /** Every field holds a valid number. */
  predicate AllNumbers(data: MortgageData) {
    && IsValidNumber(data.homePrice) && IsValidNumber(data.downPaymentPercent)
    && IsValidNumber(data.interestRate) && IsValidNumber(data.loanTerm)
  }

  /** `validateInputs`: the four validity checks first, then the five range
      checks, each in field order; the first failure's message is returned. */
  function ValidateInputs(data: MortgageData): (r: Option<string>)
    ensures r.None? <==> InputsAccepted(data)
    ensures !IsValidNumber(data.homePrice) ==> r == Some("Please enter a valid home price")
    ensures IsValidNumber(data.homePrice) && !IsValidNumber(data.downPaymentPercent)
            ==> r == Some("Please enter a valid down payment percentage")
    ensures IsValidNumber(data.homePrice) && IsValidNumber(data.downPaymentPercent) && !IsValidNumber(data.interestRate)
            ==> r == Some("Please enter a valid interest rate")
    ensures IsValidNumber(data.homePrice) && IsValidNumber(data.downPaymentPercent)
            && IsValidNumber(data.interestRate) && !IsValidNumber(data.loanTerm)
            ==> r == Some("Please enter a valid loan term")
    ensures AllNumbers(data) && data.homePrice.value <= 0.0
            ==> r == Some("Home price must be greater than 0")
    ensures AllNumbers(data) && data.homePrice.value > 0.0 && data.downPaymentPercent.value < 0.0
            ==> r == Some("Down payment percentage cannot be negative")
    ensures AllNumbers(data) && data.homePrice.value > 0.0 && data.downPaymentPercent.value >= 100.0
            ==> r == Some("Down payment percentage must be less than 100%")
    ensures AllNumbers(data) && data.homePrice.value > 0.0 && 0.0 <= data.downPaymentPercent.value < 100.0
            && data.interestRate.value < 0.0
            ==> r == Some("Interest rate cannot be negative")
    ensures AllNumbers(data) && data.homePrice.value > 0.0 && 0.0 <= data.downPaymentPercent.value < 100.0
            && data.interestRate.value >= 0.0 && data.loanTerm.value <= 0.0
            ==> r == Some("Loan term must be greater than 0")
  {
    if !IsValidNumber(data.homePrice) then Some("Please enter a valid home price")
    else if !IsValidNumber(data.downPaymentPercent) then Some("Please enter a valid down payment percentage")
    else if !IsValidNumber(data.interestRate) then Some("Please enter a valid interest rate")
    else if !IsValidNumber(data.loanTerm) then Some("Please enter a valid loan term")
    else
      var homePrice := ToNumber(data.homePrice).value;
      var downPaymentPercent := ToNumber(data.downPaymentPercent).value;
      var interestRate := ToNumber(data.interestRate).value;
      var loanTerm := ToNumber(data.loanTerm).value;
      if homePrice <= 0.0 then Some("Home price must be greater than 0")
      else if downPaymentPercent < 0.0 then Some("Down payment percentage cannot be negative")
      else if downPaymentPercent >= 100.0 then Some("Down payment percentage must be less than 100%")
      else if interestRate < 0.0 then Some("Interest rate cannot be negative")
      else if loanTerm <= 0.0 then Some("Loan term must be greater than 0")
      else None
  }

  /** A zero rate passes the checks. */
  lemma ZeroRateAccepted(data: MortgageData)
    requires InputsAccepted(data.(interestRate := Num(1.0)))
    ensures ValidateInputs(data.(interestRate := Num(0.0))) == None
  {
  }

  // ---------------------------------------------------------------------------
  // The down payment

  /** `homePrice × (downPaymentPercent / 100)` and what is left to borrow. */
  function SplitPrice(homePrice: real, downPaymentPercent: real): (r: (real, real))
    ensures r.0 + r.1 == homePrice
    ensures homePrice > 0.0 && 0.0 <= downPaymentPercent < 100.0 ==> 0.0 <= r.0 < homePrice && 0.0 < r.1 <= homePrice
  {
    var downPaymentAmount := homePrice * (downPaymentPercent / 100.0);
    (downPaymentAmount, homePrice - downPaymentAmount)
  }

  /** Putting more down leaves less to borrow. */
  lemma MoreDownLessLoan(homePrice: real, p: real, q: real)
    requires homePrice > 0.0 && p <= q
    ensures SplitPrice(homePrice, q).1 <= SplitPrice(homePrice, p).1
  {
  }

  // ---------------------------------------------------------------------------
  // The monthly payment

  /** The payment formula as the calculator writes it, with no zero-rate
      branch: at a zero rate it divides zero by zero. */
  function PaymentAsWritten(loan: real, rate: real, n: nat): (r: NumericOrEmpty)
    ensures IsNumber(r)
  {
    Divide(loan * rate * Pow(1.0 + rate, n), Pow(1.0 + rate, n) - 1.0)
  }

  /** At every positive rate the formula is the annuity payment. */
  lemma PaymentAsWrittenAtPositiveRate(loan: real, rate: real, n: nat)
    requires rate > 0.0 && n >= 1
    ensures PaymentAsWritten(loan, rate, n) == Num(AnnuityPayment(loan, rate, n))
  {
    PowAboveOne(1.0 + rate, n);
  }

  /** At a zero rate, which the checks accept, the formula gives NaN: the
      payment, every row and every total of the schedule are then NaN. */
  lemma PaymentAsWrittenAtZeroRate(loan: real, n: nat)
    ensures PaymentAsWritten(loan, 0.0, n) == NaN
  {
    PowOfOne(n);
  }

  /** The payment the model uses: the formula where it is defined and an equal
      share of the loan at a zero rate, as the auto loan calculator does. */
  function MonthlyPayment(loan: real, rate: real, n: nat): (r: real)
    requires rate >= 0.0 && n >= 1
    ensures rate > 0.0 ==> PaymentAsWritten(loan, rate, n) == Num(r)
    ensures BalanceAfter(loan, rate, r, n) == 0.0
  {
    LevelPaymentRetiresLoan(loan, rate, n);
    if rate > 0.0 then PaymentAsWrittenAtPositiveRate(loan, rate, n); LevelPayment(loan, rate, n)
    else LevelPayment(loan, rate, n)
  }

  // ---------------------------------------------------------------------------
  // The schedule loop

  /** The `for` loop of `calculate`: the monthly schedule, and the yearly
      table it fills in place, keyed by `Math.ceil(month / 12)`. */
  method MonthlySchedule(loan: real, monthlyRate: real, monthlyPayment: real, numberOfPayments: nat)
    returns (monthlyPayments: seq<Row>, yearlyData: map<nat, YearTotals>, totalInterest: real)
    ensures monthlyPayments == Amortize(loan, monthlyRate, monthlyPayment, numberOfPayments)
    ensures IsYearlyTable(yearlyData, monthlyPayments)
    ensures totalInterest == SumInterest(monthlyPayments)
  {
    var balance := loan;
    monthlyPayments := [];
    yearlyData := map[];
    totalInterest := 0.0;
    EmptyTable();
    for month := 1 to numberOfPayments + 1
      invariant balance == BalanceAfter(loan, monthlyRate, monthlyPayment, month - 1)
      invariant monthlyPayments == Amortize(loan, monthlyRate, monthlyPayment, month - 1)
      invariant IsYearlyTable(yearlyData, monthlyPayments)
      invariant totalInterest == SumInterest(monthlyPayments)
    {
      ghost var opening, rows, table, interestSum := balance, monthlyPayments, yearlyData, totalInterest;
      var interestPayment := balance * monthlyRate;
      var principalPayment := monthlyPayment - interestPayment;
      balance := balance - principalPayment;
      totalInterest := totalInterest + interestPayment;
      var row := Row(month, monthlyPayment, principalPayment, interestPayment, Max(0.0, balance));
      yearlyData := RecordMonth(yearlyData, row);
      monthlyPayments := monthlyPayments + [row];
      ScheduleStep(loan, monthlyRate, monthlyPayment, month, opening, rows, table, interestSum, row);
    }
  }

  /** One turn of the loop keeps its four invariants. */
  lemma ScheduleStep(loan: real, rate: real, payment: real, month: nat, balance: real,
                     rows: seq<Row>, table: map<nat, YearTotals>, interestSum: real, row: Row)
    requires month >= 1
    requires balance == BalanceAfter(loan, rate, payment, month - 1)
    requires rows == Amortize(loan, rate, payment, month - 1)
    requires IsYearlyTable(table, rows)
    requires interestSum == SumInterest(rows)
    requires row == Row(month, payment, payment - balance * rate, balance * rate,
                        Max(0.0, balance - (payment - balance * rate)))
    ensures balance - (payment - balance * rate) == BalanceAfter(loan, rate, payment, month)
    ensures rows + [row] == Amortize(loan, rate, payment, month)
    ensures IsYearlyTable(AddRow(table, row), rows + [row])
    ensures interestSum + balance * rate == SumInterest(rows + [row])
  {
    RowOfStep(loan, rate, payment, month, balance, balance * rate);
    SumsAppend(rows, row);
    AddRowToTable(table, rows, row);
  }

  /** The body's update of `yearlyData`: the entry of the row's year,
      `Math.ceil(month / 12)`, is created when missing and then has the row's
      amounts added and its end balance set, in place. */
  method RecordMonth(yearlyData: map<nat, YearTotals>, row: Row) returns (updated: map<nat, YearTotals>)
    ensures updated == AddRow(yearlyData, row)
  {
    var currentYear := YearOf(row.month);
    updated := yearlyData;
    if currentYear !in updated {
      updated := updated[currentYear := NewYear(currentYear)];
    }
    ghost var created := updated;
    var entry := updated[currentYear];
    updated := updated[currentYear := entry.(totalPayment := entry.totalPayment + row.payment,
                                             totalPrincipal := entry.totalPrincipal + row.principal,
                                             totalInterest := entry.totalInterest + row.interest,
                                             endBalance := row.balance)];
    TableUpdateInPlace(yearlyData, created, row);
  }

  /** The yearly table of a whole schedule has the years 1..⌈N/12⌉, each
      summing its months, and the last year ends on a zero balance. */
  lemma YearlyTableOfSchedule(loan: real, rate: real, n: nat, table: map<nat, YearTotals>)
    requires loan > 0.0 && rate >= 0.0 && n >= 1
    requires IsYearlyTable(table, Amortize(loan, rate, MonthlyPayment(loan, rate, n), n))
    ensures forall y: nat :: y in table <==> 1 <= y <= YearOf(n)
    ensures YearOf(n) in table && table[YearOf(n)].endBalance == 0.0
  {
    var rows := Amortize(loan, rate, MonthlyPayment(loan, rate, n), n);
    AmortizeShape(loan, rate, MonthlyPayment(loan, rate, n), n);
    YearsOfConsecutive(rows);
    LevelSchedule(loan, rate, n);
    LastOfYear(rows, YearOf(n));
  }

  /** The last row of a schedule is the last row of its year. */
  lemma {:induction false} LastOfYear(rows: seq<Row>, y: nat)
    requires rows != [] && YearOf(rows[|rows| - 1].month) == y
    ensures InYear(rows, y) != [] && InYear(rows, y)[|InYear(rows, y)| - 1] == rows[|rows| - 1]
  {
    var init := rows[..|rows| - 1];
    assert rows == init + [rows[|rows| - 1]];
    InYearAppend(init, rows[|rows| - 1], y);
  }

  // ---------------------------------------------------------------------------
  // calculate

  datatype Results = Results(downPaymentAmount: real, calculatedLoanAmount: real, monthlyPayment: real,
                             totalInterest: real, totalPaid: real)

  /** The calculator's state: inputs, results, and both schedules. */
  datatype MortgageState = MortgageState(data: MortgageData, results: Results,
                                         yearlySchedule: map<nat, YearTotals>, monthlySchedule: seq<Row>)

  /** `calculate`, with the zero-rate payment corrected: nothing changes on
      invalid inputs; otherwise the price is split, and the results and both
      schedules are those of the level payment over `loanTerm × 12` months. */
  method Calculate(state: MortgageState) returns (next: MortgageState)
    requires InputsAccepted(state.data) ==> (state.data.loanTerm.value * 12.0).Floor as real == state.data.loanTerm.value * 12.0
    ensures !InputsAccepted(state.data) ==> next == state
    ensures InputsAccepted(state.data) ==>
              var split := SplitPrice(state.data.homePrice.value, state.data.downPaymentPercent.value);
              var rate, n := state.data.interestRate.value / 100.0 / 12.0, MonthsOfYears(state.data.loanTerm.value);
              var p := MonthlyPayment(split.1, rate, n);
              var rows := Amortize(split.1, rate, p, n);
              && next.data == state.data
              && next.results == Results(split.0, split.1, p, SumInterest(rows), split.1 + SumInterest(rows))
              && next.monthlySchedule == rows
              && IsYearlyTable(next.yearlySchedule, rows)
  {
    var validationError := ValidateInputs(state.data);
    if validationError.Some? {
      return state;
    }
    var homePrice := ToNumber(state.data.homePrice).value;
    var downPaymentPercent := ToNumber(state.data.downPaymentPercent).value;
    var interestRate := ToNumber(state.data.interestRate).value;
    var downPaymentAmount := homePrice * (downPaymentPercent / 100.0);
    var calculatedLoanAmount := homePrice - downPaymentAmount;
    var monthlyRate := interestRate / 100.0 / 12.0;
    var numberOfPayments := MonthsOfYears(state.data.loanTerm.value);
    var monthlyPayment := MonthlyPayment(calculatedLoanAmount, monthlyRate, numberOfPayments);
    var monthlyPayments, yearlyData, totalInterest :=
      MonthlySchedule(calculatedLoanAmount, monthlyRate, monthlyPayment, numberOfPayments);
    next := MortgageState(state.data,
                          Results(downPaymentAmount, calculatedLoanAmount, monthlyPayment,
                                  totalInterest, calculatedLoanAmount + totalInterest),
                          yearlyData, monthlyPayments);
  }

  /** What a successful calculation shows: a positive loan, N rows numbered
      1..N with equal payments and never-negative balances that end at zero,
      principal repaying the loan, and a total paid of N payments. */
  lemma CalculatedSchedule(homePrice: real, downPaymentPercent: real, rate: real, n: nat)
    requires homePrice > 0.0 && 0.0 <= downPaymentPercent < 100.0 && rate >= 0.0 && n >= 1
    ensures var loan := SplitPrice(homePrice, downPaymentPercent).1;
            var p := MonthlyPayment(loan, rate, n);
            var rows := Amortize(loan, rate, p, n);
            && loan > 0.0
            && |rows| == n
            && (forall i :: 0 <= i < n ==> rows[i].month == i + 1 && rows[i].payment == p && rows[i].balance >= 0.0)
            && rows[n - 1].balance == 0.0
            && SumPrincipal(rows) == loan
            && loan + SumInterest(rows) == n as real * p
  {
    var loan := SplitPrice(homePrice, downPaymentPercent).1;
    assert MonthlyPayment(loan, rate, n) == LevelPayment(loan, rate, n);
    LevelScheduleShape(loan, rate, n);
  }
}
