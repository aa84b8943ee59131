/** The credit card payoff calculator of src/components/CreditCardCalculator.tsx:
    a month-by-month payoff loop capped at 600 months, paying either a minimum
    payment (the larger of a floor and interest plus 1% of the balance) or a
    fixed amount, never more than what is owed; and the grouping of its
    schedule by year. */
module CreditCard {
  import opened Numeric
  import opened CalculatorValidation
  import opened Schedule

  datatype PaymentType = Minimum | Fixed

  /** The calculator's input fields. */
  datatype CreditCardData = CreditCardData(balance: NumericOrEmpty, apr: NumericOrEmpty,
                                           paymentType: PaymentType,
                                           fixedPayment: NumericOrEmpty, minimumPayment: NumericOrEmpty)

  // ---------------------------------------------------------------------------
  // validateInputs

  /** What the checks accept: a valid positive balance, a valid APR that is not
      negative, and a valid positive amount for the chosen payment type. */
  predicate InputsAccepted(data: CreditCardData) {
    && IsValidNumber(data.balance) && data.balance.value > 0.0
    && IsValidNumber(data.apr) && data.apr.value >= 0.0
    && (if data.paymentType == Fixed
        then IsValidNumber(data.fixedPayment) && data.fixedPayment.value > 0.0
        else IsValidNumber(data.minimumPayment) && data.minimumPayment.value > 0.0)
  }

  /** `validateInputs`: the message of the first check that fails, in order. */
  function ValidateInputs(data: CreditCardData): (r: Option<string>)
    ensures r.None? <==> InputsAccepted(data)
    ensures r.Some? && !IsValidNumber(data.balance) ==> r.value == "Please enter a valid balance"
    ensures IsValidNumber(data.balance) && !IsValidNumber(data.apr) ==> r == Some("Please enter a valid APR")
    ensures r.Some? && IsValidNumber(data.balance) && data.balance.value <= 0.0 && IsValidNumber(data.apr)
            ==> r.value == "Balance must be greater than 0"
    ensures IsValidNumber(data.balance) && IsValidNumber(data.apr) && data.balance.value > 0.0 && data.apr.value < 0.0
            ==> r == Some("APR cannot be negative")
    ensures IsValidNumber(data.balance) && IsValidNumber(data.apr) && data.balance.value > 0.0 && data.apr.value >= 0.0
            && data.paymentType == Fixed
            ==> && (!IsValidNumber(data.fixedPayment) ==> r == Some("Please enter a valid fixed payment amount"))
                && (IsValidNumber(data.fixedPayment) && data.fixedPayment.value <= 0.0
                    ==> r == Some("Fixed payment must be greater than 0"))
    ensures IsValidNumber(data.balance) && IsValidNumber(data.apr) && data.balance.value > 0.0 && data.apr.value >= 0.0
            && data.paymentType == Minimum
            ==> && (!IsValidNumber(data.minimumPayment) ==> r == Some("Please enter a valid minimum payment percentage"))
                && (IsValidNumber(data.minimumPayment) && data.minimumPayment.value <= 0.0
                    ==> r == Some("Minimum payment percentage must be greater than 0"))
  {
    if !IsValidNumber(data.balance) then Some("Please enter a valid balance")
    else if !IsValidNumber(data.apr) then Some("Please enter a valid APR")
    else if ToNumber(data.balance).value <= 0.0 then Some("Balance must be greater than 0")
    else if ToNumber(data.apr).value < 0.0 then Some("APR cannot be negative")
    else if data.paymentType == Fixed then
      if !IsValidNumber(data.fixedPayment) then Some("Please enter a valid fixed payment amount")
      else if ToNumber(data.fixedPayment).value <= 0.0 then Some("Fixed payment must be greater than 0")
      else None
    else
      if !IsValidNumber(data.minimumPayment) then Some("Please enter a valid minimum payment percentage")
      else if ToNumber(data.minimumPayment).value <= 0.0 then Some("Minimum payment percentage must be greater than 0")
      else None
  }

  /** The field of the payment type that is not chosen is never looked at. */
  lemma ValidationIgnoresOtherPayment(data: CreditCardData, other: NumericOrEmpty)
    ensures data.paymentType == Fixed ==> ValidateInputs(data.(minimumPayment := other)) == ValidateInputs(data)
    ensures data.paymentType == Minimum ==> ValidateInputs(data.(fixedPayment := other)) == ValidateInputs(data)
  {
  }

  // ---------------------------------------------------------------------------
  // The payoff loop

  /** 50 years: the loop's cap. */
  const MaxMonths: nat := 600

  /** A balance of at most a cent counts as paid off. */
  const PaidOff: real := 0.01

  /** The payment rule, with its amount. */
  datatype Policy = MinimumPolicy(minimumPayment: real) | FixedPolicy(fixedPayment: real)

  /** The payment a policy asks for before the cap: the larger of the minimum
      and interest plus 1% of the balance, or the fixed amount. */
  function RequestedPayment(policy: Policy, balance: real, interest: real): real {
    match policy
    case MinimumPolicy(m) => Max(m, interest + balance * 0.01)
    case FixedPolicy(p) => p
  }

  /** The row of one month that opens at `balance`: the requested payment
      capped at the balance plus this month's interest, and the new balance
      clamped at zero. */
  function PayoffRow(policy: Policy, balance: real, rate: real, month: nat): (r: Row)
    ensures r.month == month && r.interest == balance * rate
    ensures r.payment == Min(RequestedPayment(policy, balance, balance * rate), balance + balance * rate)
    ensures r.principal == r.payment - r.interest
  {
    var interest := balance * rate;
    var payment := Min(RequestedPayment(policy, balance, interest), balance + interest);
    var principal := payment - interest;
    Row(month, payment, principal, interest, Max(0.0, balance - principal))
  }

  /** The rows the loop records from a balance, when `month` months have
      already been recorded. */
  function Payoff(balance: real, rate: real, policy: Policy, month: nat): seq<Row>
    decreases MaxMonths - month
  {
    if balance > PaidOff && month < MaxMonths then
      var row := PayoffRow(policy, balance, rate, month + 1);
      [row] + Payoff(row.balance, rate, policy, month + 1)
    else []
  }

  /** The balance the loop ends on. */
  function FinalBalance(balance: real, rows: seq<Row>): real {
    if rows == [] then balance else rows[|rows| - 1].balance
  }

  datatype ChartPoint = ChartPoint(month: nat, principal: real, interest: real)

  /** The chart points pushed alongside the rows. */
  function ChartOf(rows: seq<Row>): (points: seq<ChartPoint>)
    ensures |points| == |rows|
    ensures forall i :: 0 <= i < |rows| ==>
              points[i] == ChartPoint(rows[i].month, rows[i].principal, rows[i].interest)
  {
    if rows == [] then []
    else ChartOf(rows[..|rows| - 1]) + [ChartPoint(rows[|rows| - 1].month, rows[|rows| - 1].principal,
                                                   rows[|rows| - 1].interest)]
  }

  /** One turn of the loop: the row it records, then the rest. */
  lemma PayoffUnfold(balance: real, rate: real, policy: Policy, month: nat)
    requires balance > PaidOff && month < MaxMonths
    ensures Payoff(balance, rate, policy, month)
            == [PayoffRow(policy, balance, rate, month + 1)]
               + Payoff(PayoffRow(policy, balance, rate, month + 1).balance, rate, policy, month + 1)
  {
  }

  lemma RowOfLoop(policy: Policy, balance: real, rate: real, month: nat,
                  interest: real, payment: real, principal: real, next: real)
    requires interest == balance * rate
    requires payment == Min(RequestedPayment(policy, balance, interest), balance + interest)
    requires principal == payment - interest && next == Max(0.0, balance - principal)
    ensures Row(month, payment, principal, interest, next) == PayoffRow(policy, balance, rate, month)
  {
  }

  lemma HistoryGrows(history: seq<Row>, row: Row, rest: seq<Row>)
    ensures (history + [row]) + rest == history + ([row] + rest)
  {
  }

  lemma ChartOfAppend(rows: seq<Row>, r: Row)
    ensures ChartOf(rows + [r]) == ChartOf(rows) + [ChartPoint(r.month, r.principal, r.interest)]
  {
    assert (rows + [r])[..|rows|] == rows;
  }

  /** One turn of the payoff loop keeps its invariants: the row recorded is
      the first of what remained, and the totals and chart grow by it. */
  lemma PayoffStep(start: real, rate: real, policy: Policy, month: nat,
                   history: seq<Row>, opening: real, row: Row)
    requires opening > PaidOff && month < MaxMonths
    requires history + Payoff(opening, rate, policy, month) == Payoff(start, rate, policy, 0)
    requires row == PayoffRow(policy, opening, rate, month + 1)
    ensures (history + [row]) + Payoff(row.balance, rate, policy, month + 1) == Payoff(start, rate, policy, 0)
    ensures SumInterest(history + [row]) == SumInterest(history) + row.interest
    ensures ChartOf(history + [row]) == ChartOf(history) + [ChartPoint(row.month, row.principal, row.interest)]
  {
    PayoffUnfold(opening, rate, policy, month);
    HistoryGrows(history, row, Payoff(row.balance, rate, policy, month + 1));
    SumsAppend(history, row);
    ChartOfAppend(history, row);
  }

  /** Nothing more is recorded once the balance is paid off or the cap is hit. */
  lemma PayoffEnds(balance: real, rate: real, policy: Policy, month: nat)
    requires balance <= PaidOff || month >= MaxMonths
    ensures Payoff(balance, rate, policy, month) == []
  {
  }

  /** The body of the payoff loop: this month's interest, the requested
      payment capped at what is owed, and the new balance clamped at zero. */
  method PayoffMonth(policy: Policy, currentBalance: real, monthlyRate: real, month: nat) returns (row: Row)
    ensures row == PayoffRow(policy, currentBalance, monthlyRate, month)
  {
    var interestPayment := currentBalance * monthlyRate;
    var payment: real;
    if policy.MinimumPolicy? {
      payment := Max(policy.minimumPayment, interestPayment + currentBalance * 0.01);
    } else {
      payment := policy.fixedPayment;
    }
    assert payment == RequestedPayment(policy, currentBalance, interestPayment);
    payment := Min(payment, currentBalance + interestPayment);
    var principalPayment := payment - interestPayment;
    var newBalance := Max(0.0, currentBalance - principalPayment);
    RowOfLoop(policy, currentBalance, monthlyRate, month, interestPayment, payment, principalPayment, newBalance);
    row := Row(month, payment, principalPayment, interestPayment, newBalance);
  }

  datatype Results = Results(monthsToPayoff: nat, totalInterest: real, totalPaid: real)

  /** The payoff loop of `calculate`, from the starting balance, the monthly
      rate and the payment rule. The source also breaks out of the loop as
      soon as the balance is at most a cent; that is the loop condition's own
      test, so here the loop ends through its condition with the same state. */
  method PayoffSchedule(balance: real, monthlyRate: real, policy: Policy)
    returns (month: nat, totalInterest: real, paymentHistory: seq<Row>, chartPoints: seq<ChartPoint>)
    ensures paymentHistory == Payoff(balance, monthlyRate, policy, 0)
    ensures month == |paymentHistory|
    ensures totalInterest == SumInterest(paymentHistory)
    ensures chartPoints == ChartOf(paymentHistory)
  {
    var currentBalance := balance;
    paymentHistory := [];
    chartPoints := [];
    month := 0;
    totalInterest := 0.0;
    while currentBalance > PaidOff && month < MaxMonths
      invariant Recorded(balance, monthlyRate, policy, month, currentBalance, totalInterest, paymentHistory, chartPoints)
      decreases MaxMonths - month
    {
      month, currentBalance, totalInterest, paymentHistory, chartPoints :=
        PayoffTurn(balance, monthlyRate, policy, month, currentBalance, totalInterest, paymentHistory, chartPoints);
    }
    PayoffEnds(currentBalance, monthlyRate, policy, month);
  }

  /** The state of the payoff loop after `month` months from `start`: what
      was recorded followed by what remains is the whole payoff, and the
      interest total and the chart are those of the recorded rows. */
  predicate Recorded(start: real, rate: real, policy: Policy, month: nat, currentBalance: real,
                     totalInterest: real, history: seq<Row>, chart: seq<ChartPoint>) {
    && month <= MaxMonths && month == |history|
    && history + Payoff(currentBalance, rate, policy, month) == Payoff(start, rate, policy, 0)
    && totalInterest == SumInterest(history)
    && chart == ChartOf(history)
  }

  /** One turn of the payoff loop: the month is counted, its row computed,
      and the balance, interest total, history and chart brought up to date. */
  method PayoffTurn(start: real, monthlyRate: real, policy: Policy, month: nat, currentBalance: real,
                    totalInterest: real, paymentHistory: seq<Row>, chartPoints: seq<ChartPoint>)
    returns (month': nat, currentBalance': real, totalInterest': real,
             paymentHistory': seq<Row>, chartPoints': seq<ChartPoint>)
    requires currentBalance > PaidOff && month < MaxMonths
    requires Recorded(start, monthlyRate, policy, month, currentBalance, totalInterest, paymentHistory, chartPoints)
    ensures month' == month + 1
    ensures Recorded(start, monthlyRate, policy, month', currentBalance', totalInterest', paymentHistory', chartPoints')
  {
    month' := month + 1;
    var row := PayoffMonth(policy, currentBalance, monthlyRate, month');
    PayoffStep(start, monthlyRate, policy, month, paymentHistory, currentBalance, row);
    currentBalance' := row.balance;
    totalInterest' := totalInterest + row.interest;
    paymentHistory' := paymentHistory + [row];
    chartPoints' := chartPoints + [ChartPoint(month', row.principal, row.interest)];
  }

  // ---------------------------------------------------------------------------
  // Properties of the payoff loop

  /** Every month's payment is at most what is owed that month, and no
      balance is negative; the new balance is the old one less the principal,
      so the clamp at zero never applies. */
  lemma RowBounds(policy: Policy, balance: real, rate: real, month: nat)
    ensures PayoffRow(policy, balance, rate, month).payment <= balance + balance * rate
    ensures PayoffRow(policy, balance, rate, month).balance >= 0.0
    ensures PayoffRow(policy, balance, rate, month).balance
            == balance - PayoffRow(policy, balance, rate, month).principal
  {
  }

  /** The rows are numbered on from `month` without a gap, there are no more
      than the cap leaves, and each row is the step from the balance the one
      before it left. */
  lemma {:induction false} PayoffShape(balance: real, rate: real, policy: Policy, month: nat)
    requires month <= MaxMonths
    ensures |Payoff(balance, rate, policy, month)| <= MaxMonths - month
    ensures forall i :: 0 <= i < |Payoff(balance, rate, policy, month)| ==>
              Payoff(balance, rate, policy, month)[i].month == month + i + 1
    ensures Payoff(balance, rate, policy, month) != [] ==>
              Payoff(balance, rate, policy, month)[0] == PayoffRow(policy, balance, rate, month + 1)
    ensures forall i :: 0 <= i < |Payoff(balance, rate, policy, month)| - 1 ==>
              Payoff(balance, rate, policy, month)[i + 1]
              == PayoffRow(policy, Payoff(balance, rate, policy, month)[i].balance, rate, month + i + 2)
    decreases MaxMonths - month
  {
    if balance > PaidOff && month < MaxMonths {
      var row := PayoffRow(policy, balance, rate, month + 1);
      var rest := Payoff(row.balance, rate, policy, month + 1);
      PayoffShape(row.balance, rate, policy, month + 1);
      assert Payoff(balance, rate, policy, month) == [row] + rest;
      if rest != [] {
        assert forall i :: 1 <= i < |rest| + 1 ==> ([row] + rest)[i] == rest[i - 1];
      }
    }
  }

  /** From the start, the loop records at most 600 months, numbered 1, 2, … */
  lemma PayoffMonths(balance: real, rate: real, policy: Policy)
    ensures |Payoff(balance, rate, policy, 0)| <= 600
    ensures forall i :: 0 <= i < |Payoff(balance, rate, policy, 0)| ==> Payoff(balance, rate, policy, 0)[i].month == i + 1
  {
    PayoffShape(balance, rate, policy, 0);
  }

  /** Nothing is recorded exactly when there is nothing to pay or no month
      left; once started, the loop stops early only on a paid-off balance. */
  lemma {:induction false} PayoffStops(balance: real, rate: real, policy: Policy, month: nat)
    requires month <= MaxMonths
    ensures Payoff(balance, rate, policy, month) == [] <==> balance <= PaidOff || month == MaxMonths
    ensures |Payoff(balance, rate, policy, month)| < MaxMonths - month && balance > PaidOff
            ==> FinalBalance(balance, Payoff(balance, rate, policy, month)) <= PaidOff
    decreases MaxMonths - month
  {
    if balance > PaidOff && month < MaxMonths {
      var row := PayoffRow(policy, balance, rate, month + 1);
      var rest := Payoff(row.balance, rate, policy, month + 1);
      PayoffStops(row.balance, rate, policy, month + 1);
      assert Payoff(balance, rate, policy, month) == [row] + rest;
    }
  }

  /** The principal column adds up to what the loop took off the balance. */
  lemma {:induction false} PayoffPrincipal(balance: real, rate: real, policy: Policy, month: nat)
    ensures SumPrincipal(Payoff(balance, rate, policy, month))
            == balance - FinalBalance(balance, Payoff(balance, rate, policy, month))
    decreases MaxMonths - month
  {
    if balance > PaidOff && month < MaxMonths {
      var row := PayoffRow(policy, balance, rate, month + 1);
      var rest := Payoff(row.balance, rate, policy, month + 1);
      PayoffPrincipal(row.balance, rate, policy, month + 1);
      RowBounds(policy, balance, rate, month + 1);
      assert Payoff(balance, rate, policy, month) == [row] + rest;
      assert ([row] + rest)[1..] == rest;
    }
  }

  /** The reported total paid, the starting balance plus all interest, is the
      sum of the payments plus whatever balance is left at the end. */
  lemma TotalPaidAccounts(balance: real, rate: real, policy: Policy)
    ensures balance + SumInterest(Payoff(balance, rate, policy, 0))
            == SumPayment(Payoff(balance, rate, policy, 0)) + FinalBalance(balance, Payoff(balance, rate, policy, 0))
  {
    PayoffPrincipal(balance, rate, policy, 0);
    PayoffSplit(balance, rate, policy, 0);
  }

  /** Every payment the loop records is its principal plus its interest, so
      the totals split the same way. */
  lemma {:induction false} PayoffSplit(balance: real, rate: real, policy: Policy, month: nat)
    ensures SumPayment(Payoff(balance, rate, policy, month))
            == SumPrincipal(Payoff(balance, rate, policy, month)) + SumInterest(Payoff(balance, rate, policy, month))
    decreases MaxMonths - month
  {
    if balance > PaidOff && month < MaxMonths {
      var row := PayoffRow(policy, balance, rate, month + 1);
      var rest := Payoff(row.balance, rate, policy, month + 1);
      PayoffSplit(row.balance, rate, policy, month + 1);
      PayoffUnfold(balance, rate, policy, month);
      assert ([row] + rest)[1..] == rest;
    }
  }

  /** In fixed mode, a payment no larger than the month's interest leaves the
      balance no lower than it was. */
  lemma FixedNegativeAmortization(p: real, balance: real, rate: real, month: nat)
    requires balance >= 0.0 && p <= balance * rate
    ensures PayoffRow(FixedPolicy(p), balance, rate, month).balance >= balance
  {
  }

  /** So a fixed payment that does not cover the first month's interest never
      pays anything off: the loop runs to the cap. */
  lemma {:induction false} FixedBelowInterestRunsToCap(p: real, balance: real, rate: real, month: nat)
    requires month <= MaxMonths && balance > PaidOff && rate >= 0.0 && p <= balance * rate
    ensures |Payoff(balance, rate, FixedPolicy(p), month)| == MaxMonths - month
    decreases MaxMonths - month
  {
    if month < MaxMonths {
      var next := PayoffRow(FixedPolicy(p), balance, rate, month + 1).balance;
      FixedNegativeAmortization(p, balance, rate, month + 1);
      InterestGrows(balance, next, rate);
      assert p <= next * rate;
      PayoffUnfold(balance, rate, FixedPolicy(p), month);
      FixedBelowInterestRunsToCap(p, next, rate, month + 1);
    }
  }

  lemma InterestGrows(balance: real, next: real, rate: real)
    requires balance <= next && rate >= 0.0
    ensures balance * rate <= next * rate
  {
  }

  /** In minimum mode every month takes at least 1% off a positive balance. */
  lemma MinimumReducesBalance(m: real, balance: real, rate: real, month: nat)
    requires balance > 0.0 && rate >= 0.0
    ensures PayoffRow(MinimumPolicy(m), balance, rate, month).balance <= balance * 0.99
  {
  }

  /** In minimum mode the recorded balances fall month after month. */
  lemma MinimumBalancesFall(m: real, balance: real, rate: real)
    requires rate >= 0.0
    ensures forall i :: 0 <= i < |Payoff(balance, rate, MinimumPolicy(m), 0)| - 1 ==>
              Payoff(balance, rate, MinimumPolicy(m), 0)[i + 1].balance
              < Payoff(balance, rate, MinimumPolicy(m), 0)[i].balance
  {
    var rows := Payoff(balance, rate, MinimumPolicy(m), 0);
    PayoffShape(balance, rate, MinimumPolicy(m), 0);
    forall i | 0 <= i < |rows| - 1 ensures rows[i + 1].balance < rows[i].balance {
      RowBounds(MinimumPolicy(m), rows[i].balance, rate, i + 2);
      if rows[i].balance > 0.0 {
        MinimumReducesBalance(m, rows[i].balance, rate, i + 2);
      } else {
        PayoffStopsAtZero(balance, rate, MinimumPolicy(m), 0, i);
      }
    }
  }

  /** Every recorded row but the last leaves more than a cent. */
  lemma {:induction false} PayoffStopsAtZero(balance: real, rate: real, policy: Policy, month: nat, i: nat)
    requires i < |Payoff(balance, rate, policy, month)| - 1
    ensures Payoff(balance, rate, policy, month)[i].balance > PaidOff
    decreases MaxMonths - month
  {
    var row := PayoffRow(policy, balance, rate, month + 1);
    var rest := Payoff(row.balance, rate, policy, month + 1);
    assert Payoff(balance, rate, policy, month) == [row] + rest;
    if i == 0 {
      assert rest != [];
    } else {
      PayoffStopsAtZero(row.balance, rate, policy, month + 1, i - 1);
    }
  }

  // ---------------------------------------------------------------------------
  // calculate

  /** The calculator's state: its inputs and what the last calculation set. */
  datatype CreditCardState = CreditCardState(data: CreditCardData, results: Option<Results>,
                                             schedule: seq<Row>, chartData: seq<ChartPoint>)

  /** The payment rule of valid inputs. */
  function PolicyOf(data: CreditCardData): Policy
    requires InputsAccepted(data)
  {
    if data.paymentType == Minimum then MinimumPolicy(ToNumber(data.minimumPayment).value)
    else FixedPolicy(ToNumber(data.fixedPayment).value)
  }

  /** `calculate`: nothing changes when validation fails; otherwise the
      results, schedule and chart are those of the payoff loop at the monthly
      rate `apr / 100 / 12`. */
  method Calculate(state: CreditCardState) returns (next: CreditCardState)
    ensures !InputsAccepted(state.data) ==> next == state
    ensures InputsAccepted(state.data) ==>
              var rows := Payoff(state.data.balance.value, state.data.apr.value / 100.0 / 12.0, PolicyOf(state.data), 0);
              && next.data == state.data
              && next.schedule == rows
              && next.chartData == ChartOf(rows)
              && next.results == Some(Results(|rows|, SumInterest(rows), state.data.balance.value + SumInterest(rows)))
  {
    var validationError := ValidateInputs(state.data);
    if validationError.Some? {
      return state;
    }
    var results, paymentHistory, chartPoints := Compute(state.data);
    next := state.(results := Some(results), schedule := paymentHistory, chartData := chartPoints);
  }

  /** The valid-input half of `calculate`: the payoff loop at the monthly rate
      `apr / 100 / 12` and the totals it leaves. */
  method Compute(data: CreditCardData) returns (results: Results, paymentHistory: seq<Row>, chartPoints: seq<ChartPoint>)
    requires InputsAccepted(data)
    ensures paymentHistory == Payoff(data.balance.value, data.apr.value / 100.0 / 12.0, PolicyOf(data), 0)
    ensures chartPoints == ChartOf(paymentHistory)
    ensures results == Results(|paymentHistory|, SumInterest(paymentHistory), data.balance.value + SumInterest(paymentHistory))
  {
    var balance := ToNumber(data.balance).value;
    var apr := ToNumber(data.apr).value;
    var monthlyRate := apr / 100.0 / 12.0;
    var months, totalInterest;
    months, totalInterest, paymentHistory, chartPoints := PayoffSchedule(balance, monthlyRate, PolicyOf(data));
    results := Results(months, totalInterest, balance + totalInterest);
  }

  // ---------------------------------------------------------------------------
  // yearlySchedule

  /** One year of the displayed table: its totals and its months. */
  datatype YearGroup = YearGroup(totals: YearTotals, months: seq<Row>)

  /** `acc` groups `rows` by year: one entry per year, holding that year's
      months in order and their totals. */
  predicate GroupsByYear(acc: map<nat, YearGroup>, rows: seq<Row>) {
    && acc.Keys == YearsOf(rows)
    && forall y :: y in acc ==>
         acc[y].months == InYear(rows, y) && Summarizes(acc[y].totals, y, acc[y].months)
  }

  /** The update one month makes to the table: its year's group is created
      when missing, then the month is added to it. */
  function AddToGroup(acc: map<nat, YearGroup>, r: Row): map<nat, YearGroup> {
    var y := YearOf(r.month);
    var g := if y in acc then acc[y] else YearGroup(NewYear(y), []);
    acc[y := YearGroup(AddMonth(g.totals, r), g.months + [r])]
  }

  /** Creating the year's group when missing and then updating it is the
      update `AddToGroup` describes. */
  lemma GroupUpdateInPlace(before: map<nat, YearGroup>, created: map<nat, YearGroup>, r: Row)
    requires var y := YearOf(r.month);
             created == if y in before then before else before[y := YearGroup(NewYear(y), [])]
    ensures var y := YearOf(r.month);
            created[y := YearGroup(AddMonth(created[y].totals, r), created[y].months + [r])] == AddToGroup(before, r)
  {
  }

  /** Adding the next month keeps the table a grouping of the longer schedule. */
  lemma GroupAddsRow(acc: map<nat, YearGroup>, rows: seq<Row>, r: Row)
    requires GroupsByYear(acc, rows)
    ensures GroupsByYear(AddToGroup(acc, r), rows + [r])
  {
    var y := YearOf(r.month);
    var acc' := AddToGroup(acc, r);
    YearsOfAppend(rows, r);
    InYearEmpty(rows, y);
    InYearAppend(rows, r, y);
    var g := if y in acc then acc[y] else YearGroup(NewYear(y), []);
    AddMonthSummarizes(g.totals, y, g.months, r);
    forall x | x in acc'
      ensures acc'[x].months == InYear(rows + [r], x) && Summarizes(acc'[x].totals, x, acc'[x].months)
    {
      if x != y {
        InYearAppend(rows, r, x);
      }
    }
  }

  /** The body of the `reduce`: the month's year group is created when
      missing, then updated with the month. */
  method AddPayment(acc: map<nat, YearGroup>, payment: Row) returns (updated: map<nat, YearGroup>)
    ensures updated == AddToGroup(acc, payment)
  {
    var year := YearOf(payment.month);
    updated := acc;
    if year !in updated {
      updated := updated[year := YearGroup(NewYear(year), [])];
    }
    GroupUpdateInPlace(acc, updated, payment);
    var g := updated[year];
    updated := updated[year := YearGroup(AddMonth(g.totals, payment), g.months + [payment])];
  }

  /** One turn of the `reduce` keeps the table a grouping of the months seen. */
  lemma GroupStep(acc: map<nat, YearGroup>, schedule: seq<Row>, i: nat)
    requires i < |schedule| && GroupsByYear(acc, schedule[..i])
    ensures GroupsByYear(AddToGroup(acc, schedule[i]), schedule[..i + 1])
  {
    var prefix := schedule[..i];
    GroupAddsRow(acc, prefix, schedule[i]);
    assert schedule[..i + 1] == prefix + [schedule[i]];
  }

  /** The `reduce` over the schedule that builds the yearly table, keyed by
      `Math.ceil(month / 12)`. */
  method YearlySchedule(schedule: seq<Row>) returns (acc: map<nat, YearGroup>)
    ensures GroupsByYear(acc, schedule)
  {
    acc := map[];
    for i := 0 to |schedule|
      invariant GroupsByYear(acc, schedule[..i])
    {
      GroupStep(acc, schedule, i);
      acc := AddPayment(acc, schedule[i]);
    }
    assert schedule[..|schedule|] == schedule;
  }
}
