/** The rows of a payment schedule and their grouping by year, as the credit
    card, auto loan and mortgage calculators produce them. */
module Schedule {

  /** One month of a schedule: its 1-based number, what was paid, how that
      splits into principal and interest, and the balance shown after it. */
  datatype Row = Row(month: nat, payment: real, principal: real, interest: real, balance: real)

  /** `Math.ceil(month / 12)`: the 1-based year a month falls in. */
  function YearOf(month: nat): (y: nat)
    ensures month >= 1 ==> y >= 1 && 12 * (y - 1) < month <= 12 * y
  {
    (month + 11) / 12
  }

  /** `loanTerm * 12`: a term in years that spans whole months, counted in
      months (2.5 years is 30 months). */
  function MonthsOfYears(years: real): (months: nat)
    requires years >= 0.0 && (years * 12.0).Floor as real == years * 12.0
    ensures months as real == years * 12.0
  {
    (years * 12.0).Floor as nat
  }

  function SumPayment(rows: seq<Row>): real {
    if rows == [] then 0.0 else rows[0].payment + SumPayment(rows[1..])
  }

  function SumPrincipal(rows: seq<Row>): real {
    if rows == [] then 0.0 else rows[0].principal + SumPrincipal(rows[1..])
  }

  function SumInterest(rows: seq<Row>): real {
    if rows == [] then 0.0 else rows[0].interest + SumInterest(rows[1..])
  }

  /** Adding a row at the end adds its amounts to the three sums. */
  lemma {:induction false} SumsAppend(rows: seq<Row>, r: Row)
    ensures SumPayment(rows + [r]) == SumPayment(rows) + r.payment
    ensures SumPrincipal(rows + [r]) == SumPrincipal(rows) + r.principal
    ensures SumInterest(rows + [r]) == SumInterest(rows) + r.interest
  {
    if rows != [] {
      assert (rows + [r])[1..] == rows[1..] + [r];
      SumsAppend(rows[1..], r);
    } else {
      assert [r][1..] == [];
    }
  }

  /** When every row's payment is its principal plus its interest, so are the
      schedule's totals. */
  lemma {:induction false} PaymentsSplit(rows: seq<Row>)
    requires forall i :: 0 <= i < |rows| ==> rows[i].principal == rows[i].payment - rows[i].interest
    ensures SumPayment(rows) == SumPrincipal(rows) + SumInterest(rows)
  {
    if rows != [] {
      PaymentsSplit(rows[1..]);
    }
  }

  /** The rows that fall in year `y`, in order. */
  function InYear(rows: seq<Row>, y: nat): (r: seq<Row>)
    ensures |r| <= |rows|
    ensures forall i :: 0 <= i < |r| ==> YearOf(r[i].month) == y && r[i] in rows
  {
    if rows == [] then []
    else (if YearOf(rows[0].month) == y then [rows[0]] else []) + InYear(rows[1..], y)
  }

  lemma {:induction false} InYearAppend(rows: seq<Row>, r: Row, y: nat)
    ensures InYear(rows + [r], y) == InYear(rows, y) + (if YearOf(r.month) == y then [r] else [])
  {
    if rows != [] {
      assert (rows + [r])[1..] == rows[1..] + [r];
      InYearAppend(rows[1..], r, y);
    } else {
      assert [r][1..] == [];
    }
  }

  /** The years the rows fall in. */
  function YearsOf(rows: seq<Row>): set<nat> {
    set i | 0 <= i < |rows| :: YearOf(rows[i].month)
  }

  lemma {:induction false} InYearEmpty(rows: seq<Row>, y: nat)
    ensures InYear(rows, y) == [] <==> y !in YearsOf(rows)
  {
    if rows != [] {
      InYearEmpty(rows[1..], y);
      assert YearsOf(rows) == {YearOf(rows[0].month)} + YearsOf(rows[1..]) by {
        forall x | x in YearsOf(rows) ensures x in {YearOf(rows[0].month)} + YearsOf(rows[1..]) {
          var i :| 0 <= i < |rows| && YearOf(rows[i].month) == x;
          if i > 0 {
            assert rows[1..][i - 1] == rows[i];
          }
        }
        forall x | x in YearsOf(rows[1..]) ensures x in YearsOf(rows) {
          var i :| 0 <= i < |rows[1..]| && YearOf(rows[1..][i].month) == x;
          assert rows[i + 1] == rows[1..][i];
        }
      }
    }
  }

  /** One entry of a yearly table: a year's totals and its closing balance. */
  datatype YearTotals = YearTotals(year: nat, totalPayment: real, totalPrincipal: real,
                                   totalInterest: real, endBalance: real)

  /** The entry a year starts with, before its first month is added. */
  function NewYear(y: nat): YearTotals {
    YearTotals(y, 0.0, 0.0, 0.0, 0.0)
  }

  /** The in-place update a month makes to its year's entry. */
  function AddMonth(t: YearTotals, r: Row): YearTotals {
    t.(totalPayment := t.totalPayment + r.payment,
       totalPrincipal := t.totalPrincipal + r.principal,
       totalInterest := t.totalInterest + r.interest,
       endBalance := r.balance)
  }

  /** `t` is the entry of year `y`, whose months are `months`: its totals are
      sums over those months and its end balance is the last month's. */
  predicate Summarizes(t: YearTotals, y: nat, months: seq<Row>) {
    && months != []
    && t.year == y
    && t.totalPayment == SumPayment(months)
    && t.totalPrincipal == SumPrincipal(months)
    && t.totalInterest == SumInterest(months)
    && t.endBalance == months[|months| - 1].balance
  }

  /** Adding a month to its year's entry (or to a fresh one) keeps the entry a
      summary of the year's months. */
  lemma AddMonthSummarizes(t: YearTotals, y: nat, months: seq<Row>, r: Row)
    requires (months == [] && t == NewYear(y)) || Summarizes(t, y, months)
    ensures Summarizes(AddMonth(t, r), y, months + [r])
  {
    SumsAppend(months, r);
  }

  /** `table` holds one entry per year of `rows`, each summarising that year. */
  predicate IsYearlyTable(table: map<nat, YearTotals>, rows: seq<Row>) {
    && table.Keys == YearsOf(rows)
    && forall y :: y in table ==> Summarizes(table[y], y, InYear(rows, y))
  }

  lemma YearsOfAppend(rows: seq<Row>, r: Row)
    ensures YearsOf(rows + [r]) == YearsOf(rows) + {YearOf(r.month)}
  {
    forall x | x in YearsOf(rows + [r]) ensures x in YearsOf(rows) + {YearOf(r.month)} {
      var i :| 0 <= i < |rows + [r]| && YearOf((rows + [r])[i].month) == x;
      if i < |rows| {
        assert (rows + [r])[i] == rows[i];
      }
    }
    forall x | x in YearsOf(rows) ensures x in YearsOf(rows + [r]) {
      var i :| 0 <= i < |rows| && YearOf(rows[i].month) == x;
      assert (rows + [r])[i] == rows[i];
    }
    assert (rows + [r])[|rows|] == r;
  }

  /** The table after the next row's month is added to its year's entry, the
      entry being created first when there is none yet. */
  function AddRow(table: map<nat, YearTotals>, r: Row): map<nat, YearTotals> {
    var y := YearOf(r.month);
    var t := if y in table then table[y] else NewYear(y);
    table[y := AddMonth(t, r)]
  }

  /** The empty table is the yearly table of no rows. */
  lemma EmptyTable()
    ensures IsYearlyTable(map[], [])
  {
    assert YearsOf([]) == {};
  }

  /** Adding the next row keeps the table a yearly table of the longer schedule. */
  lemma AddRowToTable(table: map<nat, YearTotals>, rows: seq<Row>, r: Row)
    requires IsYearlyTable(table, rows)
    ensures IsYearlyTable(AddRow(table, r), rows + [r])
  {
    var y := YearOf(r.month);
    var table' := AddRow(table, r);
    YearsOfAppend(rows, r);
    EntryOfNewRow(table, rows, r);
    forall x | x in table'
      ensures Summarizes(table'[x], x, InYear(rows + [r], x))
    {
      if x != y {
        OtherYearKept(table, rows, r, x);
      }
    }
  }

  lemma OtherYearKept(table: map<nat, YearTotals>, rows: seq<Row>, r: Row, x: nat)
    requires IsYearlyTable(table, rows)
    requires x in table && x != YearOf(r.month)
    ensures x in AddRow(table, r) && Summarizes(AddRow(table, r)[x], x, InYear(rows + [r], x))
  {
    InYearAppend(rows, r, x);
    assert InYear(rows + [r], x) == InYear(rows, x);
  }

  /** The entry of the new row's year summarises that year once the row is in. */
  lemma EntryOfNewRow(table: map<nat, YearTotals>, rows: seq<Row>, r: Row)
    requires IsYearlyTable(table, rows)
    ensures Summarizes(AddRow(table, r)[YearOf(r.month)], YearOf(r.month), InYear(rows + [r], YearOf(r.month)))
  {
    var y := YearOf(r.month);
    InYearEmpty(rows, y);
    InYearAppend(rows, r, y);
    var t := if y in table then table[y] else NewYear(y);
    AddMonthSummarizes(t, y, InYear(rows, y), r);
  }

  /** Creating the year's entry when it is missing and then updating it in
      place is the update `AddRow` describes. */
  lemma TableUpdateInPlace(before: map<nat, YearTotals>, created: map<nat, YearTotals>, r: Row)
    requires var y := YearOf(r.month);
             created == if y in before then before else before[y := NewYear(y)]
    ensures created[YearOf(r.month) := AddMonth(created[YearOf(r.month)], r)] == AddRow(before, r)
  {
  }

  /** The years of a schedule whose months run 1..n are the years 1..⌈n/12⌉. */
  lemma YearsOfConsecutive(rows: seq<Row>)
    requires forall i :: 0 <= i < |rows| ==> rows[i].month == i + 1
    ensures forall y: nat :: y in YearsOf(rows) <==> 1 <= y <= YearOf(|rows|)
  {
    forall y | 1 <= y <= YearOf(|rows|) ensures y in YearsOf(rows) {
      var m := 12 * (y - 1) + 1;
      assert YearOf(m) == y;
      assert rows[m - 1].month == m;
    }
    forall y | y in YearsOf(rows) ensures 1 <= y <= YearOf(|rows|) {
      var i :| 0 <= i < |rows| && YearOf(rows[i].month) == y;
      assert rows[i].month <= |rows|;
    }
  }
}
