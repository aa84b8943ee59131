# FREEDom calculators, modelled in Dafny

This project models the arithmetic and control flow of five personal-finance
calculators: credit card payoff, auto loan, mortgage, time value of money and
inflation. It also models the two helper libraries they share: the input
checks in `src/lib/calculator-validation.ts` and the parsers in
`src/lib/formatters.ts`.

The model works on exact real numbers. A numeric input field holds a
`NumericOrEmpty`, which is one of:

- a finite number;
- NaN;
- an infinity;
- a string. This is `''` for an empty field, or `'-'` / `'-.'` while a
  negative number is being typed.

Every division that can divide by zero yields NaN or an infinity explicitly,
as IEEE arithmetic does.

Each component's state is a record (inputs, results, schedules, chart, error
message). A `calculate` is a method from the old state to the new one.

Loops are Dafny loops, proved against specification functions:

- the credit card payoff `while`;
- the auto loan and mortgage schedule `for` loops;
- the mortgage's in-place yearly dictionary;
- the credit card's yearly `reduce`;
- the two Newton solvers;
- the two chart loops;
- the field-validation loops.

Properties proved about those functions include:

- the annuity payment retires the loan exactly;
- the credit card loop records at most 600 consecutive months and stops
  early only on a paid-off balance;
- principal, interest and payment totals are exact;
- the yearly tables sum their months;
- the time-value closed forms invert one another;
- the parsers keep the intermediate input states.

Modules, one per source file plus shared pieces:

- `Numeric`: number/field value type, IEEE-style division, `Math.pow` on whole exponents.
- `JsString`: `trim`, `trimStart`, `trimEnd`, global single-character `replace`, ASCII upper-casing.
- `CalculatorValidation`: `src/lib/calculator-validation.ts`.
- `Formatters`: `src/lib/formatters.ts` and the `parseFloat` it relies on.
- `Schedule`: schedule rows, their sums, and the grouping by year `Math.ceil(month / 12)`.
- `Annuity`: the level-payment schedule shared by the auto loan and mortgage calculators.
- `CreditCard`, `AutoLoan`, `Mortgage`, `TimeValueOfMoney`, `Inflation`: the five components.

`Math.pow` with a non-integer exponent and `Math.log` are not interpreted.
They are function parameters `pow` and `ln` of the time-value-of-money and
inflation members that need them.

## Model

| member | source | states |
|---|---|---|
| Numeric.Divide | src/components/InflationCalculator.tsx:81 | IEEE division: a finite quotient exactly when the divisor is non-zero, and that quotient times the divisor is the dividend; otherwise NaN or an infinity |
| Numeric.DivideValue | src/components/InflationCalculator.tsx:83 | dividing a value that may already be NaN: a finite value divides as `Divide` does, NaN stays NaN |
| Numeric.SubtractValue | src/components/InflationCalculator.tsx:82 | `a - x` is finite exactly when `x` is, and is then their difference; NaN stays NaN |
| Numeric.ScaleValue | src/components/InflationCalculator.tsx:83 | `x * 100` is finite exactly when `x` is; NaN stays NaN |
| Numeric.Pow | src/components/AutoLoanCalculator.tsx:81-82 | `Math.pow` with a whole exponent; `Numeric.PowPositive`, `PowAdd`, `PowMonotone` and `PowAntitone` state the facts the loan and inflation proofs use |
| JsString.TrimStart | src/lib/formatters.ts:53 | the result is a suffix of the input, starts with no white space, and only white space was dropped |
| JsString.TrimEnd | src/lib/formatters.ts:45 | the result is a prefix of the input, ends with no white space, and only white space was dropped |
| JsString.Trim | src/lib/formatters.ts:45 | `trim()` leaves no white space at either end |
| JsString.TrimOfTrimmed | src/lib/formatters.ts:45 | a string with no white space at either end is its own trim |
| JsString.TrimIdempotent | src/lib/formatters.ts:45 | trimming twice is trimming once |
| JsString.RemoveAll | src/lib/formatters.ts:45 | `replace(/,/g, '')` leaves no occurrence of the character and never lengthens the string |
| JsString.RemoveAllKeeps | src/lib/formatters.ts:45 | a character is in the result exactly when it is in the input and is not the removed one |
| JsString.RemoveAllOfFree | src/lib/formatters.ts:45 | a string without the character is unchanged |
| JsString.RemoveAllIdempotent | src/lib/formatters.ts:45 | removing a character twice is removing it once |
| JsString.RemoveAllAppend | src/lib/formatters.ts:77 | the removal distributes over concatenation |
| JsString.ToUpperAscii | src/lib/calculator-validation.ts:39 | a lower-case ASCII letter becomes its capital; every other character is unchanged |
| Schedule.YearOf | src/components/CreditCardCalculator.tsx:132 | `Math.ceil(month / 12)` is the year y with 12(y−1) < month ≤ 12y |
| Schedule.MonthsOfYears | src/components/AutoLoanCalculator.tsx:77 | `loanTerm * 12` for a term that spans whole months (2.5 years is 30) is exactly that many months; shared by the auto loan and the mortgage (src/components/MortgageCalculator.tsx:138) |
| Schedule.SumsAppend | src/components/CreditCardCalculator.tsx:130 | a row appended adds its payment, principal and interest to the three column sums |
| Schedule.PaymentsSplit | src/components/AutoLoanCalculator.tsx:90 | when every row's payment is principal plus interest, so is the payment total |
| Schedule.InYear | src/components/CreditCardCalculator.tsx:198-215 | the months of a year come out in order, every one of them belonging to that year and to the schedule |
| Schedule.InYearAppend | src/components/CreditCardCalculator.tsx:198-215 | a row appended joins its own year's months, at the end, and no other year's |
| Schedule.InYearEmpty | src/components/MortgageCalculator.tsx:166-174 | a year has no months exactly when no row falls in it |
| Schedule.AddMonthSummarizes | src/components/MortgageCalculator.tsx:176-179 | adding a month to its year's entry, or to a fresh zeroed one, keeps the entry the sums of the year's months with the last month's balance |
| Schedule.YearsOfAppend | src/components/MortgageCalculator.tsx:155 | a row appended adds its year to the years of the schedule |
| Schedule.EmptyTable | src/components/MortgageCalculator.tsx:146 | the empty dictionary is the yearly table of no months |
| Schedule.AddRowToTable | src/components/MortgageCalculator.tsx:165-179 | one month's update keeps the dictionary a yearly table of the longer schedule: one key per year, each entry summing its months |
| Schedule.AddRow | src/components/MortgageCalculator.tsx:165-179 | the yearly dictionary after one month; `Schedule.AddRowToTable`, `OtherYearKept` and `TableUpdateInPlace` state it |
| Schedule.OtherYearKept | src/components/MortgageCalculator.tsx:176-179 | the entries of other years still summarise their months |
| Schedule.EntryOfNewRow | src/components/MortgageCalculator.tsx:166-179 | the entry of the new month's year summarises that year once the month is in |
| Schedule.TableUpdateInPlace | src/components/MortgageCalculator.tsx:166-179 | creating the missing entry and then updating it in place is the table update `AddRow` |
| Schedule.YearsOfConsecutive | src/components/MortgageCalculator.tsx:149-155 | a schedule of months 1..N spans exactly the years 1..⌈N/12⌉ |
| Annuity.BalanceAfter | src/components/AutoLoanCalculator.tsx:84-91 | the running balance after k months; `Annuity.BalanceClosedForm` gives its closed form and `Annuity.LevelPaymentRetiresLoan` its value after N months |
| Annuity.AnnuityPayment | src/components/AutoLoanCalculator.tsx:81-82 | the annuity formula at a positive rate; `Annuity.AnnuityPaymentEquation` states the equation it solves |
| Annuity.LevelPayment | src/components/AutoLoanCalculator.tsx:79-82 | the payment with its zero-rate branch; `Annuity.LevelPaymentRetiresLoan` proves it leaves a zero balance after N months at every rate |
| Annuity.Amortize | src/components/AutoLoanCalculator.tsx:88-100 | the rows the schedule loop pushes; `Annuity.AmortizeShape` states their shape |
| Annuity.ScheduleRow | src/components/AutoLoanCalculator.tsx:89-100 | row k: interest on balance k − 1, the rest of the payment as principal, the balance clamped at 0; `Annuity.RowOfStep` and `AmortizeShape` state it |
| Annuity.Step | src/components/AutoLoanCalculator.tsx:89-91 | one month grows the balance by the rate and takes off the payment |
| Annuity.RowOfStep | src/components/AutoLoanCalculator.tsx:88-100 | one turn of the loop from the balance after k−1 months leaves the balance after k months and pushes row k |
| Annuity.AmortizeShape | src/components/AutoLoanCalculator.tsx:88-100 | the schedule has N rows numbered 1..N, all with the same payment, each split into principal and interest, none with a negative balance |
| Annuity.PrincipalIsReduction | src/components/AutoLoanCalculator.tsx:90-91 | a row's principal is what it takes off the running balance |
| Annuity.PrincipalTelescopes | src/components/AutoLoanCalculator.tsx:90-91 | the principal column sums to the loan less the balance left |
| Annuity.PaymentsTotal | src/components/AutoLoanCalculator.tsx:96 | the payment column sums to N payments |
| Annuity.InterestTotal | src/components/AutoLoanCalculator.tsx:92 | the interest column is what the N payments paid beyond the principal repaid |
| Annuity.ZeroRateBalance | src/components/AutoLoanCalculator.tsx:89-91 | at a zero rate the balance falls by one payment a month |
| Annuity.ZeroRateRows | src/components/AutoLoanCalculator.tsx:89-90 | at a zero rate no row carries interest and every payment is all principal |
| Annuity.BalanceClosedForm | src/components/AutoLoanCalculator.tsx:88-91 | the loop's balance after k months is the closed form r·B = r·L·(1+r)^k − p·((1+r)^k − 1) |
| Annuity.AnnuityPaymentEquation | src/components/AutoLoanCalculator.tsx:81-82 | the annuity payment satisfies p·((1+r)^n − 1) = L·r·(1+r)^n |
| Annuity.AnnuityBalance | src/components/AutoLoanCalculator.tsx:81-91 | with the annuity payment the balance after k of n months is L·((1+r)^n − (1+r)^k)/((1+r)^n − 1) |
| Annuity.LevelPaymentRetiresLoan | src/components/AutoLoanCalculator.tsx:79-91 | the level payment, with or without interest, leaves a running balance of exactly 0 after N months |
| Annuity.LevelBalanceNonNegative | src/components/AutoLoanCalculator.tsx:84-99 | with the level payment on a non-negative loan, no running balance before the end is negative |
| Annuity.LevelSchedule | src/components/AutoLoanCalculator.tsx:84-107 | the level schedule's last balance is 0, its principal column repays the loan, and loan plus interest equals N payments |
| Annuity.LevelScheduleShape | src/components/AutoLoanCalculator.tsx:77-107 | the level schedule has N rows numbered 1..N with the same payment and non-negative balances, ending at 0, with principal summing to the loan and loan plus interest equal to N payments |
| Annuity.RetiredSchedule | src/components/AutoLoanCalculator.tsx:88-107 | any payment that leaves nothing after N months gives those totals |
| Annuity.LevelScheduleUnclamped | src/components/AutoLoanCalculator.tsx:99 | with the level payment the `Math.max(0, balance)` clamp never changes a displayed balance |
| AutoLoan.ValidateInputs | src/components/AutoLoanCalculator.tsx:47-61 | no message exactly when the amount is positive, the rate not negative and the term positive, all valid numbers; an invalid amount is reported first; a negative rate is reported once all fields are valid numbers and the amount is positive |
| AutoLoan.ValidityBeforeRange | src/components/AutoLoanCalculator.tsx:48-58 | an invalid term is reported before any range check of the other fields |
| AutoLoan.PaymentSchedule | src/components/AutoLoanCalculator.tsx:84-101 | the loop pushes exactly the level-payment schedule of N months, and its interest total is the interest column's sum |
| AutoLoan.Calculate | src/components/AutoLoanCalculator.tsx:63-110 | on invalid inputs only the error is set; on valid inputs the error is cleared, and the payment, the schedule over the `loanTerm × 12` months (at least one, exactly twelve a year), total interest and total paid (loan plus interest) are stored |
| AutoLoan.ZeroRateSchedule | src/components/AutoLoanCalculator.tsx:79-89 | at a zero rate N payments make up the loan and no row carries interest |
| AutoLoan.EstimatedValue | src/components/AutoLoanCalculator.tsx:117-126 | the estimate is a multiple of 500, at most the depreciated value and within 500 of it |
| AutoLoan.NumberOrZero | src/components/AutoLoanCalculator.tsx:118 | `toNumber(x || 0)`: a valid number is kept, an infinity stays infinite, and '', NaN and other strings read as 0 |
| AutoLoan.EstimateOfData | src/components/AutoLoanCalculator.tsx:117-126 | the estimate read from the fields: a multiple of 500 within 500 below the depreciated value; an empty or NaN amount gives 0; an empty or NaN term leaves the amount undepreciated |
| AutoLoan.RoundDownTo500 | src/components/AutoLoanCalculator.tsx:126 | `Math.floor(x / 500) * 500` is the multiple of 500 at or just below x |
| AutoLoan.DepreciationFalls | src/components/AutoLoanCalculator.tsx:117-124 | the depreciated value never grows with the term and stays between 0 and the amount |
| AutoLoan.DepreciatedBounds | src/components/AutoLoanCalculator.tsx:117-124 | the depreciated value of a non-negative amount is between 0 and the amount |
| AutoLoan.Depreciated | src/components/AutoLoanCalculator.tsx:118-123 | 20% off in the first year and 15% a year after; `AutoLoan.DepreciatedBounds` and `AutoLoan.DepreciationFalls` state its bounds and monotonicity |
| CreditCard.ValidateInputs | src/components/CreditCardCalculator.tsx:161-182 | no message exactly when the balance is positive, the APR not negative and the chosen payment positive, all valid numbers; an invalid balance is reported first; a non-positive balance after valid balance and APR is reported as such |
| CreditCard.ValidationIgnoresOtherPayment | src/components/CreditCardCalculator.tsx:171-179 | the payment field of the mode not chosen never affects validation |
| CreditCard.PayoffRow | src/components/CreditCardCalculator.tsx:111-128 | a month charges interest on its opening balance and pays the requested amount capped at the balance plus interest, split into principal and interest |
| CreditCard.RequestedPayment | src/components/CreditCardCalculator.tsx:114-122 | the payment asked for before the cap: interest plus 1% of the balance, at least the minimum, or the fixed amount; `CreditCard.MinimumReducesBalance` states what it does to the balance |
| CreditCard.Payoff | src/components/CreditCardCalculator.tsx:108-149 | the rows of the `while` loop from a balance and month; `CreditCard.PayoffShape`, `PayoffMonths` and `PayoffStops` state its cap and stop |
| CreditCard.ChartOf | src/components/CreditCardCalculator.tsx:142-146 | one chart point per recorded row, with its month, principal and interest |
| CreditCard.PayoffUnfold | src/components/CreditCardCalculator.tsx:108-149 | while the balance is above a cent and the cap not reached, the loop records this month's row and continues from its balance |
| CreditCard.RowOfLoop | src/components/CreditCardCalculator.tsx:111-128 | the loop body's quantities form the month's row |
| CreditCard.ChartOfAppend | src/components/CreditCardCalculator.tsx:142-146 | a row recorded adds its point at the end of the chart |
| CreditCard.PayoffStep | src/components/CreditCardCalculator.tsx:108-149 | one turn keeps the loop's invariant: what was recorded followed by what remains is the whole payoff, with interest total and chart grown by the new row |
| CreditCard.PayoffEnds | src/components/CreditCardCalculator.tsx:108 | nothing more is recorded once the balance is at most a cent or 600 months are done |
| CreditCard.PayoffMonth | src/components/CreditCardCalculator.tsx:110-128 | the loop body computes the month's payoff row |
| CreditCard.PayoffSchedule | src/components/CreditCardCalculator.tsx:101-149 | the loop records exactly the payoff rows, its month count is their number, its interest total is their interest sum, and its chart matches them |
| CreditCard.PayoffTurn | src/components/CreditCardCalculator.tsx:110-146 | one turn counts the month and keeps the loop state recorded: history followed by what remains is the whole payoff, with the interest total and chart of the history |
| CreditCard.RowBounds | src/components/CreditCardCalculator.tsx:125-128 | a payment never exceeds the opening balance plus interest, and no balance is negative, so the zero clamp never applies |
| CreditCard.PayoffShape | src/components/CreditCardCalculator.tsx:108-140 | rows are numbered on without a gap, there are no more than the cap leaves, and each row steps from the balance the one before left |
| CreditCard.PayoffMonths | src/components/CreditCardCalculator.tsx:108-110 | from the start at most 600 months are recorded, numbered 1, 2, … |
| CreditCard.PayoffStops | src/components/CreditCardCalculator.tsx:108-148 | nothing is recorded exactly when the balance is at most a cent or no month is left; a loop that stops before the cap ends on a balance of at most a cent |
| CreditCard.PayoffPrincipal | src/components/CreditCardCalculator.tsx:127-128 | the principal column sums to the starting balance less the final one |
| CreditCard.TotalPaidAccounts | src/components/CreditCardCalculator.tsx:151-155 | total paid (starting balance plus interest) equals the sum of payments plus the balance left |
| CreditCard.PayoffSplit | src/components/CreditCardCalculator.tsx:127 | the payment total is the principal total plus the interest total |
| CreditCard.FixedNegativeAmortization | src/components/CreditCardCalculator.tsx:121-128 | in fixed mode a payment no larger than the month's interest leaves the balance no lower |
| CreditCard.FixedBelowInterestRunsToCap | src/components/CreditCardCalculator.tsx:108-128 | a fixed payment that does not cover the first month's interest runs the loop to the 600-month cap |
| CreditCard.MinimumReducesBalance | src/components/CreditCardCalculator.tsx:114-128 | in minimum mode a month takes at least 1% off a positive balance |
| CreditCard.MinimumBalancesFall | src/components/CreditCardCalculator.tsx:114-128 | in minimum mode the recorded balances strictly fall |
| CreditCard.PayoffStopsAtZero | src/components/CreditCardCalculator.tsx:148 | every recorded row but the last leaves more than a cent |
| CreditCard.Calculate | src/components/CreditCardCalculator.tsx:92-159 | invalid inputs change nothing; valid ones store the payoff schedule at `apr / 100 / 12`, its chart, the months to payoff, the interest total and total paid |
| CreditCard.Compute | src/components/CreditCardCalculator.tsx:96-155 | the results, schedule and chart of the payoff loop for valid inputs |
| CreditCard.GroupUpdateInPlace | src/components/CreditCardCalculator.tsx:199-213 | creating the missing year group and then updating it in place is the table update `AddToGroup` |
| CreditCard.GroupAddsRow | src/components/CreditCardCalculator.tsx:198-215 | adding a month keeps the table a grouping by year: one entry per year, holding its months in order and their sums, ending on the last month's balance |
| CreditCard.AddPayment | src/components/CreditCardCalculator.tsx:199-214 | the `reduce` body makes the table update `AddToGroup` |
| CreditCard.AddToGroup | src/components/CreditCardCalculator.tsx:198-214 | the `reduce` body's update of the year groups; `CreditCard.GroupAddsRow` and `GroupUpdateInPlace` state it |
| CreditCard.GroupStep | src/components/CreditCardCalculator.tsx:198-215 | one step of the `reduce` keeps the table a grouping of the months seen |
| CreditCard.YearlySchedule | src/components/CreditCardCalculator.tsx:198-215 | the `reduce` groups the whole schedule by year |
| Mortgage.ValidateInputs | src/components/MortgageCalculator.tsx:104-122 | no message exactly when the price is positive, the down payment in [0, 100), the rate not negative and the term positive, all valid numbers; an invalid price is reported first; a down payment of 100% or more is reported once the values are valid and the price positive |
| Mortgage.ZeroRateAccepted | src/components/MortgageCalculator.tsx:118 | a zero interest rate passes validation |
| Mortgage.SplitPrice | src/components/MortgageCalculator.tsx:134-135 | down payment plus loan is the home price; for accepted inputs the loan is positive and the down payment below the price |
| Mortgage.MoreDownLessLoan | src/components/MortgageCalculator.tsx:134-135 | a larger down payment never leaves more to borrow |
| Mortgage.PaymentAsWritten | src/components/MortgageCalculator.tsx:141-142 | the payment formula without a zero-rate branch, a number or NaN/infinity |
| Mortgage.PaymentAsWrittenAtPositiveRate | src/components/MortgageCalculator.tsx:141-142 | at every positive rate the formula is the annuity payment |
| Mortgage.PaymentAsWrittenAtZeroRate | src/components/MortgageCalculator.tsx:141-142 | at a zero rate the formula is 0/0, NaN |
| Mortgage.MonthlyPayment | src/components/MortgageCalculator.tsx:141-142 | the corrected payment equals the formula at every positive rate and retires the loan after N months at every rate |
| Mortgage.MonthlySchedule | src/components/MortgageCalculator.tsx:144-180 | the loop pushes exactly the N-month schedule, its dictionary is the yearly table of that schedule, and its interest total is the interest sum |
| Mortgage.ScheduleStep | src/components/MortgageCalculator.tsx:149-180 | one turn of the loop keeps its four invariants |
| Mortgage.RecordMonth | src/components/MortgageCalculator.tsx:155-179 | the in-place creation and update of the year's entry is the table update `AddRow` |
| Mortgage.YearlyTableOfSchedule | src/components/MortgageCalculator.tsx:155-179 | the yearly table of a whole schedule has keys 1..⌈N/12⌉ and the last year ends on a zero balance |
| Mortgage.LastOfYear | src/components/MortgageCalculator.tsx:179 | the schedule's last month is the last month of its year |
| Mortgage.Calculate | src/components/MortgageCalculator.tsx:124-192 | invalid inputs change nothing; valid ones store the price split, the payment, total interest, total paid (loan plus interest), the monthly schedule and its yearly table |
| Mortgage.CalculatedSchedule | src/components/MortgageCalculator.tsx:134-163 | for accepted inputs the loan is positive and the schedule has N rows numbered 1..N with the same payment and non-negative balances, ends at 0, repays the loan in principal, and costs N payments in all |
| TimeValueOfMoney.SolveFutureValue | src/components/TimeValueOfMoneyCalculator.tsx:141-151 | the future value solved for balances the time-value equation |
| TimeValueOfMoney.SolvePresentValue | src/components/TimeValueOfMoneyCalculator.tsx:153-163 | the present value is finite exactly when the rate is zero or the factor is not, and then balances the equation |
| TimeValueOfMoney.SolvePayment | src/components/TimeValueOfMoneyCalculator.tsx:165-175 | the payment is finite exactly when its divisor (periods at a zero rate, the growth of a unit payment otherwise) is non-zero, and then balances the equation |
| TimeValueOfMoney.FutureValueUnique | src/components/TimeValueOfMoneyCalculator.tsx:141-148 | a future value balances the equation exactly when it is the one solved for |
| TimeValueOfMoney.PresentValueOfFutureValue | src/components/TimeValueOfMoneyCalculator.tsx:146-159 | round trip: the present value solved from the future value of pv is pv |
| TimeValueOfMoney.FutureValueOfPayment | src/components/TimeValueOfMoneyCalculator.tsx:146-171 | round trip: the future value of the payment solved for fv is fv |
| TimeValueOfMoney.FutureValueOfPresentValue | src/components/TimeValueOfMoneyCalculator.tsx:146-159 | round trip: the future value of the present value solved for fv is fv |
| TimeValueOfMoney.FutureValueIsGrownBalance | src/components/TimeValueOfMoneyCalculator.tsx:141-148 | over whole periods, the future value is minus the balance of pv grown at the rate with the payments |
| TimeValueOfMoney.ZeroRateForms | src/components/TimeValueOfMoneyCalculator.tsx:143-168 | at a zero rate FV = −(pv + pmt·n), PV = −(fv + pmt·n) and PMT = −(pv + fv)/n |
| TimeValueOfMoney.ResidualZeroIsBalanced | src/components/TimeValueOfMoneyCalculator.tsx:68-75 | the solver's residual is zero exactly when the equation holds at that rate |
| TimeValueOfMoney.Residual | src/components/TimeValueOfMoneyCalculator.tsx:68-75 | the rate solver's `f`, with its zero-rate form; `TimeValueOfMoney.ResidualZeroIsBalanced` and `SolveForRate` state it |
| TimeValueOfMoney.PeriodResidual | src/components/TimeValueOfMoneyCalculator.tsx:105-106 | the periods solver's `f`; `TimeValueOfMoney.SolveForPeriods` bounds it on convergence and at rates of −100% or below |
| TimeValueOfMoney.SolveForRate | src/components/TimeValueOfMoneyCalculator.tsx:60-88 | the result is at least −99 (percent); when the solver reports convergence the residual at the returned rate is within 1e-6 |
| TimeValueOfMoney.SolveForPeriods | src/components/TimeValueOfMoneyCalculator.tsx:91-119 | at a zero rate: NaN without a payment, otherwise −(pv + fv)/pmt, which balances the equation; at a non-zero rate above −100% a number of periods that is not negative, within tolerance when converged; at −100% or below, where `Math.log(1 + r)` is −Infinity or NaN, NaN unless the residual at the first guess of 10 periods is within tolerance, and then 10 |
| TimeValueOfMoney.ChartPoints | src/components/TimeValueOfMoneyCalculator.tsx:224-252 | the first points of the chart, point k for period k |
| TimeValueOfMoney.ChartPointAt | src/components/TimeValueOfMoneyCalculator.tsx:224-250 | point k: the magnitudes put in and the interest gained by the balance grown for k periods; `TimeValueOfMoney.ChartPointFacts` and `GrowthCoversContributions` state its properties |
| TimeValueOfMoney.Chart | src/components/TimeValueOfMoneyCalculator.tsx:213-252 | no points for a non-positive count or a negative rate, otherwise points 0..min(count, 100); `TimeValueOfMoney.ChartLength` states its length |
| TimeValueOfMoney.GenerateChartData | src/components/TimeValueOfMoneyCalculator.tsx:205-258 | no points for NaN periods; otherwise exactly the chart for `Math.floor(periods)` and the rate |
| TimeValueOfMoney.NextChartPoint | src/components/TimeValueOfMoneyCalculator.tsx:225-251 | each loop body pushes the next chart point and keeps the running balance and interest those of the grown balance |
| TimeValueOfMoney.CompoundChartStep | src/components/TimeValueOfMoneyCalculator.tsx:240-251 | one compound period earns the rate on the balance, adds the deposit, and yields the next point |
| TimeValueOfMoney.ZeroRateChartStep | src/components/TimeValueOfMoneyCalculator.tsx:231-239 | one period at a zero rate adds the deposit and no interest |
| TimeValueOfMoney.ChartPointFacts | src/components/TimeValueOfMoneyCalculator.tsx:225-251 | point 0 shows \|pv\| and no interest; interest is not negative at a non-negative rate and zero at a zero rate |
| TimeValueOfMoney.GrowthCoversContributions | src/components/TimeValueOfMoneyCalculator.tsx:240-244 | a balance growing at a non-negative rate with non-negative deposits is at least what was put in |
| TimeValueOfMoney.ChartLength | src/components/TimeValueOfMoneyCalculator.tsx:213-224 | no points when the whole periods are not positive or the rate is negative; otherwise min(periods, 100) + 1 points numbered from 0 |
| TimeValueOfMoney.Without | src/components/TimeValueOfMoneyCalculator.tsx:262 | the filter keeps exactly the fields other than the one skipped |
| TimeValueOfMoney.FieldsToValidate | src/components/TimeValueOfMoneyCalculator.tsx:261-262 | four fields are checked and the one solved for is not among them |
| TimeValueOfMoney.FirstInvalidSpec | src/components/TimeValueOfMoneyCalculator.tsx:264-269 | no field is reported exactly when all are valid; a reported field is invalid and every field before it is valid |
| TimeValueOfMoney.FirstInvalid | src/components/TimeValueOfMoneyCalculator.tsx:264-269 | the first field of the list that is not a valid number; `TimeValueOfMoney.FirstInvalidSpec` states it |
| TimeValueOfMoney.ValidateInputs | src/components/TimeValueOfMoneyCalculator.tsx:260-272 | the message names the formatted first invalid field, or there is none |
| TimeValueOfMoney.InvalidMessage | src/components/TimeValueOfMoneyCalculator.tsx:267 | "Please enter a valid " and the formatted field name; `TimeValueOfMoney.ValidateInputs` and `Calculate` state where it appears |
| TimeValueOfMoney.FirstInvalidAt | src/components/TimeValueOfMoneyCalculator.tsx:264-269 | the search reports the field at hand when it is invalid and otherwise moves on |
| TimeValueOfMoney.NoneInvalid | src/components/TimeValueOfMoneyCalculator.tsx:264-269 | when nothing is reported every listed field is valid |
| TimeValueOfMoney.AllValid | src/components/TimeValueOfMoneyCalculator.tsx:264-269 | when every listed field is valid nothing is reported |
| TimeValueOfMoney.ValidationAccepts | src/components/TimeValueOfMoneyCalculator.tsx:260-272 | validation passes exactly when the four fields not solved for are valid numbers |
| TimeValueOfMoney.SolveQuantity | src/components/TimeValueOfMoneyCalculator.tsx:140-196 | the `switch` shows the closed-form FV, PV or PMT, a rate of at least −99%, or periods that are not negative, with the error set exactly when periods cannot be solved; at a zero rate the periods shown are −(pv + fv)/pmt, the error when there is no payment or that is negative; at −100% or below only 10 periods, when they balance within tolerance |
| TimeValueOfMoney.SolveAndChart | src/components/TimeValueOfMoneyCalculator.tsx:131-199 | after validation passes: the result and error `Solved` states, then exactly the chart of the inputs |
| TimeValueOfMoney.PeriodsCase | src/components/TimeValueOfMoneyCalculator.tsx:187-195 | a result exactly when there is no error; a result is never negative; at a zero rate, no payment gives the error, and otherwise −(pv + fv)/pmt is shown exactly when it is not negative; a non-zero rate above −100% always gives a result; at −100% or below there is a result, 10 periods, exactly when the residual at 10 periods is within tolerance |
| TimeValueOfMoney.Calculate | src/components/TimeValueOfMoneyCalculator.tsx:121-203 | an invalid field sets its message and clears the result; valid inputs store the result and error `SolveQuantity` states (the zero-rate periods −(pv + fv)/pmt when not negative included) and regenerate the chart from the inputs |
| TimeValueOfMoney.UpdateData | src/components/TimeValueOfMoneyCalculator.tsx:274-293 | only the named field changes; choosing a new quantity also clears the result, the error and the chart |
| TimeValueOfMoney.UpdateWithSameValue | src/components/TimeValueOfMoneyCalculator.tsx:274-285 | writing back a field's own value changes nothing |
| Inflation.Missing | src/components/InflationCalculator.tsx:39 | the filter never lists more fields than were required |
| Inflation.MissingMembers | src/components/InflationCalculator.tsx:39 | a field is listed exactly when it is required and not a valid number |
| Inflation.MissingAppend | src/components/InflationCalculator.tsx:39 | the filter keeps the fields' order |
| Inflation.FormattedNames | src/components/InflationCalculator.tsx:42 | each listed field is shown by its formatted name, in order |
| Inflation.EveryFieldRequired | src/components/InflationCalculator.tsx:38 | every input field is required |
| Inflation.ValidateInputs | src/components/InflationCalculator.tsx:37-44 | valid exactly when every field is a valid number, exactly when no field is listed; the listed names are the formatted invalid fields in order |
| Inflation.ResultsOf | src/components/InflationCalculator.tsx:79-83 | today's value times the factor is the amount; the loss plus today's value is the amount; the share lost is finite exactly when the factor and the amount are non-zero, and is then the loss as a percentage of the amount |
| Inflation.NominalAndRealAreInverse | src/components/InflationCalculator.tsx:80-81 | the future-money and today's-money figures undo each other |
| Inflation.ZeroAmountShareIsNaN | src/components/InflationCalculator.tsx:83 | a zero amount, which validation allows, gives a NaN share lost |
| Inflation.InflationErodes | src/components/InflationCalculator.tsx:79-83 | a positive rate over at least a year makes today's value less than the amount and the future value more, with a share lost strictly between 0 and 100% |
| Inflation.Factor | src/components/InflationCalculator.tsx:79 | `Math.pow(1 + rate/100, years)` over whole years; `Inflation.InflationErodes` and `Inflation.PurchasingPowerFalls` state what it does to the figures |
| Inflation.Chart | src/components/InflationCalculator.tsx:93-101 | one point per year, numbered from 0 |
| Inflation.ChartPoints | src/components/InflationCalculator.tsx:93-101 | the loop pushes exactly the chart of the whole years 0..⌊years⌋ |
| Inflation.ChartLength | src/components/InflationCalculator.tsx:94 | the number of turns of `year <= years`: ⌊years⌋ + 1, none for negative years; `Inflation.ChartPoints` uses it |
| Inflation.ChartEnds | src/components/InflationCalculator.tsx:79-101 | the chart starts at the amount and, for whole years, ends at today's value among the results |
| Inflation.ChartPointGrowsBack | src/components/InflationCalculator.tsx:95-96 | each point grown back by its year's factor is the amount |
| Inflation.ChartPointIs | src/components/InflationCalculator.tsx:95-96 | point k is the amount over the factor of k years |
| Inflation.PurchasingPowerFalls | src/components/InflationCalculator.tsx:95-96 | at a non-negative rate the purchasing power never rises from one year to a later one |
| Inflation.Calculate | src/components/InflationCalculator.tsx:72-103 | nothing changes unless every field is valid; otherwise the four figures for the factor over the years and the chart are stored |
| Inflation.UpdateData | src/components/InflationCalculator.tsx:105-107 | only the named field changes |
| CalculatorValidation.ValidNumberCases | src/lib/calculator-validation.ts:5-7 | finite numbers are valid; NaN, infinities, `''` and other strings are not |
| CalculatorValidation.IsValidNumber | src/lib/calculator-validation.ts:5-7 | `isValidNumber`: a number that is neither NaN nor infinite; its cases are stated by `CalculatorValidation.ValidNumberCases` |
| CalculatorValidation.ToNumber | src/lib/calculator-validation.ts:10-12 | a number is kept, NaN included, and a string becomes 0 |
| CalculatorValidation.Rejected | src/lib/calculator-validation.ts:15-33 | never more fields reported than required |
| CalculatorValidation.ValidateCalculatorInputs | src/lib/calculator-validation.ts:15-33 | the loop reports exactly the required fields that are missing, empty, not finite or not positive, in order |
| CalculatorValidation.RejectedMembers | src/lib/calculator-validation.ts:21-30 | a field is reported exactly when it is required and fails a test |
| CalculatorValidation.RejectedAppend | src/lib/calculator-validation.ts:21-30 | the report keeps the order of `requiredFields` |
| CalculatorValidation.RejectedNone | src/lib/calculator-validation.ts:17-32 | no required fields, no errors |
| CalculatorValidation.SpaceBeforeCapitals | src/lib/calculator-validation.ts:38 | inserting spaces never shortens the name |
| CalculatorValidation.CapitalizeFirst | src/lib/calculator-validation.ts:39 | upper-casing the first character keeps the length, for the ASCII case mapping modelled |
| CalculatorValidation.FormattedNameIsTrimmed | src/lib/calculator-validation.ts:36-41 | a formatted name has no white space at either end |
| CalculatorValidation.FormatFieldName | src/lib/calculator-validation.ts:36-41 | `formatFieldName` as the three steps in order; its properties are stated by `FormattedNameIsTrimmed`, `FormatLowercaseName` and `FormatCamelCaseName` |
| CalculatorValidation.SpaceBeforeCapitalsOnlyAddsSpaces | src/lib/calculator-validation.ts:38 | the insertion adds spaces and nothing else |
| CalculatorValidation.SpaceBeforeCapitalsOfLowercase | src/lib/calculator-validation.ts:38 | a lower-case name gets no space |
| CalculatorValidation.FormatLowercaseName | src/lib/calculator-validation.ts:36-41 | a lower-case name comes back with only its first letter upper-cased ("years" → "Years") |
| CalculatorValidation.SpaceBeforeCapitalsAppend | src/lib/calculator-validation.ts:38 | the insertion distributes over concatenation |
| CalculatorValidation.SpacedCamelCase | src/lib/calculator-validation.ts:38 | a lower-case word and a capitalised one get one space between them |
| CalculatorValidation.SpaceBeforeCapitalized | src/lib/calculator-validation.ts:38 | a capitalised word gets one space in front and no other change |
| CalculatorValidation.FormatCamelCaseName | src/lib/calculator-validation.ts:36-41 | a two-word camel-case name becomes two capitalised words ("interestRate" → "Interest Rate") |
| Formatters.DigitRun | src/lib/formatters.ts:53 | the run of digits `parseFloat` reads is all digits and as long as possible |
| Formatters.PowerOfTen | src/lib/formatters.ts:53 | a power of ten, with any whole exponent, is positive |
| Formatters.StartsWithFirst | src/lib/formatters.ts:53 | a string with a non-empty prefix begins with that prefix's first character |
| Formatters.ParseFloat | src/lib/formatters.ts:53 | `parseFloat` always gives a number, NaN included |
| Formatters.DigitsValue | src/lib/formatters.ts:53 | the value of a digit string in `parseFloat`'s grammar; `Formatters.LeadingDecimalOfDigits` and `ParseFloatOfDigits` state it |
| Formatters.ExponentPart | src/lib/formatters.ts:53 | the optional `e`, sign and digits of a literal, 0 when absent; it is the exponent of `Formatters.LeadingDecimal` |
| Formatters.LeadingDecimal | src/lib/formatters.ts:53 | the longest unsigned decimal literal at the start; `Formatters.NoDecimalWithoutDigits`, `LeadingDecimalOfDigits` and `ParseFloatUnsigned` state it |
| Formatters.ParseTrimmed | src/lib/formatters.ts:53 | the text after the white space gives a number, NaN included |
| Formatters.Signed | src/lib/formatters.ts:53 | finite exactly when a literal was read, negated after a minus sign |
| Formatters.DigitRunOfDigits | src/lib/formatters.ts:53 | a string of digits is read whole |
| Formatters.LeadingDecimalOfDigits | src/lib/formatters.ts:53 | a string of digits is the integer literal it spells |
| Formatters.ParseFloatUnsigned | src/lib/formatters.ts:53 | text without a sign, white space or `I` in front reads as its leading decimal literal |
| Formatters.ParseFloatOfDigits | src/lib/formatters.ts:53 | a string of digits parses as the number it spells |
| Formatters.ParseFloatNegative | src/lib/formatters.ts:53 | a minus sign then text other than `Infinity` reads as the negated literal |
| Formatters.ParseFloatSkipsWhiteSpace | src/lib/formatters.ts:53 | leading white space does not change the result |
| Formatters.NoDecimalWithoutDigits | src/lib/formatters.ts:53 | neither the empty text nor a lone point is a literal |
| Formatters.ParseFloatOfSignAlone | src/lib/formatters.ts:49-53 | `parseFloat` of `'-'` and `'-.'` is NaN, which is why they are kept as they are |
| Formatters.ParseFormattedNumber | src/lib/formatters.ts:41-55 | the result is never NaN; a string result is `''` or an intermediate state; empty input, or input empty once cleaned, gives `''`; a cleaned `'-'` or `'-.'` is returned verbatim |
| Formatters.CleanNumber | src/lib/formatters.ts:45 | `value.replace(/,/g, '').trim()`; `Formatters.ParseFormattedIgnoresCommas` and `DigitsAreTrimmed` state what it does |
| Formatters.ParseFormattedIgnoresCommas | src/lib/formatters.ts:45 | the result is the same with every comma removed |
| Formatters.ParseFormattedOfDigits | src/lib/formatters.ts:45-54 | text whose cleaned form is a string of digits reads as that number |
| Formatters.DigitsAreTrimmed | src/lib/formatters.ts:45 | digits are their own trim |
| Formatters.ParseFormattedGroupedDigits | src/lib/formatters.ts:45-54 | digits with a comma between them read as the digits run together ("1,234" → 1234) |
| Formatters.FormatNumberWithCommas | src/lib/formatters.ts:23-34 | `''` gives `''`; `'-'` and `'-.'` are shown as they are; a number goes to the digit grouping; only numbers other than NaN are grouped |
| Formatters.IntermediateStatesSurvive | src/lib/formatters.ts:23-55 | `'-'` and `'-.'` survive parsing and are redisplayed unchanged |
| Formatters.ParsePercentage | src/lib/formatters.ts:74-80 | the result is never NaN and never a non-empty string; `''` gives `''` |
| Formatters.ParsePercentageIgnoresPercentSigns | src/lib/formatters.ts:77 | the result is the same with every `%` removed |
| Formatters.ParsePercentageOfDigits | src/lib/formatters.ts:74-80 | "5%" reads as 5 |

## Left out

- Rendering (JSX, markup, styles, the charts and the HP-12c page), the local-storage hooks, the app shell and the build scripts. They do no calculation.
- React state setters: each component's state is a record, and a setter is a field update of it.
- `Intl.NumberFormat`: `formatCurrency`, the grouping path of `formatNumberWithCommas` (modelled as a `Grouped` display of the number) and `formatPercentage`.
- IEEE-754 rounding: amounts are exact reals. NaN and infinities appear only where a division by zero produces them. The sign of an infinity is not kept.
- `null` and `undefined` field values: the field type has no such values.
- `try`/`catch` in the time-value-of-money calculator: no modelled operation throws.
- Local copies of `parseFormattedNumber`, `formatNumberWithCommas` and `parsePercentage` inside the components. The library versions are modelled.
- The `year` field of a credit card row. It is `Math.ceil(month / 12)`, which `Schedule.YearOf` computes wherever it is read.
- The order of `Object.values(yearlyData)`. The mortgage's yearly table is modelled as a map from year to entry. JavaScript lists integer-like keys in ascending order, so the rows come out by year; the map proves which years are present, not that order.
- The `break` of the credit card loop (`if (currentBalance <= 0.01) break`). It repeats the loop condition's own test, so the model ends the loop through its condition, with the same state.
- The rate solver's error message for a NaN result. With `pow` as an uninterpreted real function the solver's result is always a number, so that branch cannot be reached in the model.
- JsString.ToUpperAscii: `toUpperCase` is modelled for the ASCII letters only. Its Unicode case mapping is not modelled: "é" → "É", and "ß" → "SS", which is longer. So CalculatorValidation.CapitalizeFirst keeps the length only under the ASCII mapping. The field names `formatFieldName` receives are the calculators' ASCII keys.
- AutoLoan.Calculate: when the inputs are valid, requires `loanTerm × 12` to be a whole number of months, so 1.5 or 2.5 years (18 or 30 months) are modelled. A term whose months are fractional, such as 0.1 years, is excluded. For it the source's loop bound `month <= 1.2` and the exponent of `Math.pow` are not whole.
- Mortgage.Calculate: requires a whole number of months in the same way; it uses the corrected `Mortgage.MonthlyPayment` rather than the formula as written (see Findings).
- AutoLoan.EstimatedValue: the term is a whole number of years, so that `Math.pow(0.85, term - 1)` is a whole power. AutoLoan.EstimateOfData reads the fields as `toNumber(x || 0)`, but it requires a finite amount and a term that is whole or not positive. An infinite amount or term, and a fractional positive term, are not modelled.
- TimeValueOfMoney.Calculate: when validation passes, requires the rate, present value and payment fields to be finite numbers and the periods field a number or NaN. One of them may be the field solved for, which validation does not check. A chart from a NaN or infinite rate, present value or payment is not modelled. Invalid inputs are modelled for every value.
- TimeValueOfMoney.SolveForRate: convergence is a ghost flag. Nothing is claimed about whether Newton's method converges, only what the result is when the solver says it has.
- TimeValueOfMoney.SolveForPeriods: as for the rate solver, convergence is not proved, and `Math.pow`/`Math.log` are the parameters `pow` and `ln`.
- Inflation.Calculate: the results use the parameter `pow` for `Math.pow` with a possibly fractional number of years. Properties of the factor are proved for whole years (`Inflation.Factor`).

## Findings

| source | as written | input that shows it | evidently intended | confidence | as-written member | corrected member |
|---|---|---|---|---|---|---|
| src/components/MortgageCalculator.tsx:141-142 | the payment is `L·r·(1+r)^n / ((1+r)^n − 1)` with no zero-rate branch, although validation accepts a rate of 0 (line 118) | interest rate 0 with any valid price, down payment and term: the formula is 0/0, so the payment, every row and every total are NaN | an equal share of the loan per month at a zero rate, as the auto loan calculator does | not executed | Mortgage.PaymentAsWrittenAtZeroRate | Mortgage.MonthlyPayment |
