/** The fixed-term amortization shared by the auto loan and mortgage
    calculators: a level monthly payment and the schedule of N months it
    produces, each month adding interest on the running balance and taking
    the payment off it. */
module Annuity {
  import opened Numeric
  import opened Schedule

  /** One month of the schedule loop: `balance -= payment - balance * rate`. */
  function Step(balance: real, rate: real, payment: real): (r: real)
    ensures r == balance * (1.0 + rate) - payment
  {
    balance - (payment - balance * rate)
  }

  /** The running (unclamped) balance after `k` months. */
  function BalanceAfter(loan: real, rate: real, payment: real, k: nat): real {
    if k == 0 then loan else Step(BalanceAfter(loan, rate, payment, k - 1), rate, payment)
  }

  /** The row pushed for month `k`: interest on the opening balance, the rest
      of the payment as principal, and the running balance clamped at zero. */
  function ScheduleRow(loan: real, rate: real, payment: real, k: nat): Row
    requires k >= 1
  {
    var interest := BalanceAfter(loan, rate, payment, k - 1) * rate;
    Row(k, payment, payment - interest, interest, Max(0.0, BalanceAfter(loan, rate, payment, k)))
  }

  /** The first `n` rows of the schedule. */
  function Amortize(loan: real, rate: real, payment: real, n: nat): seq<Row> {
    if n == 0 then [] else Amortize(loan, rate, payment, n - 1) + [ScheduleRow(loan, rate, payment, n)]
  }

  /** One month of a schedule loop: from the balance after `k − 1` months, the
      row it pushes is row `k` and the balance it leaves is the one after `k`. */
  lemma RowOfStep(loan: real, rate: real, payment: real, k: nat, opening: real, interest: real)
    requires k >= 1 && opening == BalanceAfter(loan, rate, payment, k - 1) && interest == opening * rate
    ensures opening - (payment - interest) == BalanceAfter(loan, rate, payment, k)
    ensures Row(k, payment, payment - interest, interest, Max(0.0, opening - (payment - interest)))
            == ScheduleRow(loan, rate, payment, k)
    ensures Amortize(loan, rate, payment, k) == Amortize(loan, rate, payment, k - 1) + [ScheduleRow(loan, rate, payment, k)]
  {
  }

  /** The annuity formula `L·r·(1+r)^n / ((1+r)^n − 1)`, defined for a positive rate. */
  function AnnuityPayment(loan: real, rate: real, n: nat): real
    requires rate > 0.0 && n >= 1
  {
    PowAboveOne(1.0 + rate, n);
    loan * rate * Pow(1.0 + rate, n) / (Pow(1.0 + rate, n) - 1.0)
  }

  /** The monthly payment of the auto loan calculator: the annuity formula, or
      an equal share of the loan when the rate is zero. */
  function LevelPayment(loan: real, rate: real, n: nat): real
    requires rate >= 0.0 && n >= 1
  {
    if rate == 0.0 then loan / n as real else AnnuityPayment(loan, rate, n)
  }

  // ---------------------------------------------------------------------------
  // The schedule

  /** The schedule has one row per month, numbered from 1, all with the same
      payment, each split into principal plus interest, with a balance that is
      never negative. */
  lemma {:induction false} AmortizeShape(loan: real, rate: real, payment: real, n: nat)
    ensures |Amortize(loan, rate, payment, n)| == n
    ensures forall i :: 0 <= i < n ==> Amortize(loan, rate, payment, n)[i] == ScheduleRow(loan, rate, payment, i + 1)
    ensures forall i :: 0 <= i < n ==>
              && Amortize(loan, rate, payment, n)[i].month == i + 1
              && Amortize(loan, rate, payment, n)[i].payment == payment
              && Amortize(loan, rate, payment, n)[i].principal
                 == payment - Amortize(loan, rate, payment, n)[i].interest
              && Amortize(loan, rate, payment, n)[i].balance >= 0.0
  {
    if n > 0 {
      AmortizeShape(loan, rate, payment, n - 1);
    }
  }

  /** Each row's principal is what it takes off the running balance. */
  lemma PrincipalIsReduction(loan: real, rate: real, payment: real, k: nat)
    requires k >= 1
    ensures ScheduleRow(loan, rate, payment, k).principal
            == BalanceAfter(loan, rate, payment, k - 1) - BalanceAfter(loan, rate, payment, k)
  {
  }

  /** The principal column adds up to what the payments took off the loan. */
  lemma {:induction false} PrincipalTelescopes(loan: real, rate: real, payment: real, n: nat)
    ensures SumPrincipal(Amortize(loan, rate, payment, n)) == loan - BalanceAfter(loan, rate, payment, n)
  {
    if n > 0 {
      PrincipalTelescopes(loan, rate, payment, n - 1);
      SumsAppend(Amortize(loan, rate, payment, n - 1), ScheduleRow(loan, rate, payment, n));
      PrincipalIsReduction(loan, rate, payment, n);
    }
  }

  /** The payment column adds up to n payments. */
  lemma {:induction false} PaymentsTotal(loan: real, rate: real, payment: real, n: nat)
    ensures SumPayment(Amortize(loan, rate, payment, n)) == n as real * payment
  {
    if n > 0 {
      PaymentsTotal(loan, rate, payment, n - 1);
      SumsAppend(Amortize(loan, rate, payment, n - 1), ScheduleRow(loan, rate, payment, n));
    }
  }

  /** The interest column is what was paid beyond the principal repaid. */
  lemma InterestTotal(loan: real, rate: real, payment: real, n: nat)
    ensures SumInterest(Amortize(loan, rate, payment, n))
            == n as real * payment - (loan - BalanceAfter(loan, rate, payment, n))
  {
    AmortizeShape(loan, rate, payment, n);
    PaymentsSplit(Amortize(loan, rate, payment, n));
    PaymentsTotal(loan, rate, payment, n);
    PrincipalTelescopes(loan, rate, payment, n);
  }

  /** At a zero rate no month charges interest: the balance falls by one
      payment a month and every payment is all principal. */
  lemma {:induction false} ZeroRateBalance(loan: real, payment: real, k: nat)
    ensures BalanceAfter(loan, 0.0, payment, k) == loan - k as real * payment
  {
    if k > 0 {
      ZeroRateBalance(loan, payment, k - 1);
    }
  }

  lemma ZeroRateRows(loan: real, payment: real, n: nat)
    ensures |Amortize(loan, 0.0, payment, n)| == n
    ensures forall i :: 0 <= i < n ==>
              Amortize(loan, 0.0, payment, n)[i].interest == 0.0
              && Amortize(loan, 0.0, payment, n)[i].principal == payment
  {
    AmortizeShape(loan, 0.0, payment, n);
  }

  /** One month of the closed form, as algebra on its quantities. */
  lemma ClosedFormStep(rate: real, loan: real, payment: real, q: real, prev: real)
    requires rate * prev == rate * loan * q - payment * (q - 1.0)
    ensures rate * (prev * (1.0 + rate) - payment)
            == rate * loan * ((1.0 + rate) * q) - payment * ((1.0 + rate) * q - 1.0)
  {
    var g := 1.0 + rate;
    calc {
      rate * (prev * g - payment);
      (rate * prev) * g - rate * payment;
      (rate * loan * q - payment * (q - 1.0)) * g - rate * payment;
      rate * loan * q * g - payment * (q - 1.0) * g - rate * payment;
      { assert payment * (q - 1.0) * g == payment * (q * g) - payment * g; }
      rate * loan * q * g - payment * (q * g) + payment * g - rate * payment;
      { assert payment * g == payment + rate * payment; }
      rate * loan * q * g - payment * (q * g) + payment;
      { assert q * g == g * q; }
      rate * loan * (g * q) - payment * (g * q - 1.0);
    }
  }

  /** The balance in closed form, multiplied through by the rate:
      r·B(k) = r·L·(1+r)^k − p·((1+r)^k − 1). */
  lemma {:induction false} BalanceClosedForm(loan: real, rate: real, payment: real, k: nat)
    ensures rate * BalanceAfter(loan, rate, payment, k)
            == rate * loan * Pow(1.0 + rate, k) - payment * (Pow(1.0 + rate, k) - 1.0)
  {
    if k > 0 {
      BalanceClosedForm(loan, rate, payment, k - 1);
      ClosedFormStep(rate, loan, payment, Pow(1.0 + rate, k - 1), BalanceAfter(loan, rate, payment, k - 1));
    }
  }

  /** The closed form with the annuity payment substituted, as algebra. */
  lemma AnnuityAlgebra(rate: real, loan: real, p: real, qn: real, qk: real, b: real)
    requires rate > 0.0
    requires p * (qn - 1.0) == loan * rate * qn
    requires rate * b == rate * loan * qk - p * (qk - 1.0)
    ensures b * (qn - 1.0) == loan * (qn - qk)
  {
    calc {
      rate * (b * (qn - 1.0));
      (rate * b) * (qn - 1.0);
      (rate * loan * qk - p * (qk - 1.0)) * (qn - 1.0);
      rate * loan * qk * (qn - 1.0) - (p * (qn - 1.0)) * (qk - 1.0);
      rate * loan * qk * (qn - 1.0) - loan * rate * qn * (qk - 1.0);
      rate * (loan * (qn - qk));
    }
    CancelFactor(rate, b * (qn - 1.0), loan * (qn - qk));
  }

  lemma CancelFactor(c: real, x: real, y: real)
    requires c != 0.0 && c * x == c * y
    ensures x == y
  {
    assert x == (c * x) / c;
  }

  /** `p·(q − 1) = L·r·q` for the annuity payment. */
  lemma AnnuityPaymentEquation(loan: real, rate: real, n: nat)
    requires rate > 0.0 && n >= 1
    ensures AnnuityPayment(loan, rate, n) * (Pow(1.0 + rate, n) - 1.0) == loan * rate * Pow(1.0 + rate, n)
  {
    PowAboveOne(1.0 + rate, n);
  }

  /** With the annuity payment, the balance after k of n months is
      L·((1+r)^n − (1+r)^k) / ((1+r)^n − 1). */
  lemma AnnuityBalance(loan: real, rate: real, n: nat, k: nat)
    requires rate > 0.0 && n >= 1
    ensures BalanceAfter(loan, rate, AnnuityPayment(loan, rate, n), k) * (Pow(1.0 + rate, n) - 1.0)
            == loan * (Pow(1.0 + rate, n) - Pow(1.0 + rate, k))
  {
    var p := AnnuityPayment(loan, rate, n);
    AnnuityPaymentEquation(loan, rate, n);
    BalanceClosedForm(loan, rate, p, k);
    AnnuityAlgebra(rate, loan, p, Pow(1.0 + rate, n), Pow(1.0 + rate, k), BalanceAfter(loan, rate, p, k));
  }

  /** The level payment retires the loan: nothing is left after n months. */
  lemma LevelPaymentRetiresLoan(loan: real, rate: real, n: nat)
    requires rate >= 0.0 && n >= 1
    ensures BalanceAfter(loan, rate, LevelPayment(loan, rate, n), n) == 0.0
  {
    if rate == 0.0 {
      ZeroRateBalance(loan, loan / n as real, n);
    } else {
      AnnuityBalance(loan, rate, n, n);
      PowAboveOne(1.0 + rate, n);
    }
  }

  /** With the level payment on a positive loan the running balance never goes
      below zero, so the clamp of the displayed balance never changes it. */
  lemma LevelBalanceNonNegative(loan: real, rate: real, n: nat, k: nat)
    requires loan >= 0.0 && rate >= 0.0 && n >= 1 && k <= n
    ensures BalanceAfter(loan, rate, LevelPayment(loan, rate, n), k) >= 0.0
  {
    if rate == 0.0 {
      ZeroRateBalance(loan, loan / n as real, k);
      assert k as real * (loan / n as real) <= n as real * (loan / n as real);
    } else {
      AnnuityBalance(loan, rate, n, k);
      PowAboveOne(1.0 + rate, n);
      PowMonotone(1.0 + rate, k, n);
      NonNegativeQuotient(BalanceAfter(loan, rate, LevelPayment(loan, rate, n), k),
                          Pow(1.0 + rate, n) - 1.0, loan, Pow(1.0 + rate, n) - Pow(1.0 + rate, k));
    }
  }

  lemma NonNegativeQuotient(b: real, d: real, x: real, y: real)
    requires d > 0.0 && x >= 0.0 && y >= 0.0 && b * d == x * y
    ensures b >= 0.0
  {
    assert b == (x * y) / d;
  }

  /** The whole n-month schedule of a level payment: its last row shows a zero
      balance, its principal column repays the loan exactly and its interest
      column is what the n payments cost beyond the loan. */
  lemma LevelSchedule(loan: real, rate: real, n: nat)
    requires loan >= 0.0 && rate >= 0.0 && n >= 1
    ensures |Amortize(loan, rate, LevelPayment(loan, rate, n), n)| == n
    ensures Amortize(loan, rate, LevelPayment(loan, rate, n), n)[n - 1].balance == 0.0
    ensures SumPrincipal(Amortize(loan, rate, LevelPayment(loan, rate, n), n)) == loan
    ensures loan + SumInterest(Amortize(loan, rate, LevelPayment(loan, rate, n), n))
            == n as real * LevelPayment(loan, rate, n)
  {
    var p := LevelPayment(loan, rate, n);
    LevelPaymentRetiresLoan(loan, rate, n);
    RetiredSchedule(loan, rate, p, n);
  }

  /** What a level-payment schedule looks like: N rows numbered 1..N with the same
      payment and a balance that is never negative, a last balance of zero,
      principal adding up to the loan, and a total paid of N payments. */
  lemma LevelScheduleShape(loan: real, rate: real, n: nat)
    requires loan >= 0.0 && rate >= 0.0 && n >= 1
    ensures var p := LevelPayment(loan, rate, n);
            var rows := Amortize(loan, rate, p, n);
            && |rows| == n
            && (forall i :: 0 <= i < n ==> rows[i].month == i + 1 && rows[i].payment == p && rows[i].balance >= 0.0)
            && rows[n - 1].balance == 0.0
            && SumPrincipal(rows) == loan
            && loan + SumInterest(rows) == n as real * p
  {
    AmortizeShape(loan, rate, LevelPayment(loan, rate, n), n);
    LevelSchedule(loan, rate, n);
  }

  /** The totals of any schedule whose payment leaves nothing after n months. */
  lemma RetiredSchedule(loan: real, rate: real, p: real, n: nat)
    requires n >= 1 && BalanceAfter(loan, rate, p, n) == 0.0
    ensures |Amortize(loan, rate, p, n)| == n
    ensures Amortize(loan, rate, p, n)[n - 1].balance == 0.0
    ensures SumPrincipal(Amortize(loan, rate, p, n)) == loan
    ensures loan + SumInterest(Amortize(loan, rate, p, n)) == n as real * p
  {
    AmortizeShape(loan, rate, p, n);
    PrincipalTelescopes(loan, rate, p, n);
    InterestTotal(loan, rate, p, n);
  }

  /** With the level payment the displayed balances are the running balances:
      the clamp at zero never applies. */
  lemma LevelScheduleUnclamped(loan: real, rate: real, n: nat)
    requires loan >= 0.0 && rate >= 0.0 && n >= 1
    ensures |Amortize(loan, rate, LevelPayment(loan, rate, n), n)| == n
    ensures forall i :: 0 <= i < n ==>
              Amortize(loan, rate, LevelPayment(loan, rate, n), n)[i].balance
              == BalanceAfter(loan, rate, LevelPayment(loan, rate, n), i + 1)
  {
    var p := LevelPayment(loan, rate, n);
    AmortizeShape(loan, rate, p, n);
    forall i | 0 <= i < n
      ensures Amortize(loan, rate, p, n)[i].balance == BalanceAfter(loan, rate, p, i + 1)
    {
      LevelBalanceNonNegative(loan, rate, n, i + 1);
    }
  }
}
