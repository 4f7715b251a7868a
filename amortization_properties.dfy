/** What the amortization recurrence guarantees: conservation of principal,
    interest totals, the closed form of the balance, strictly falling
    balances, a last payment equal to the regular one, and the loan-cost
    summary that follows. */
module AmortizationProperties {
  import opened Common
  import opened Amortization

  /** pay exactly amortizes principal over n months at monthly rate r:
      pay·((1+r)^n − 1) = principal·r·(1+r)^n. */
  predicate IsAnnuity(principal: real, r: real, pay: real, n: nat)
  {
    principal > 0.0 && r > 0.0 && n > 0 &&
    pay * (Pow(1.0 + r, n) - 1.0) == principal * r * Pow(1.0 + r, n)
  }

  // Pure real-number algebra behind the recurrence facts below.

  lemma PositiveFactor(x: real, d: real)
    requires d > 0.0 && x * d > 0.0
    ensures x > 0.0
  {
  }

  lemma StepAlgebra(p: real, r: real, pay: real, b: real, bigQ: real, kk: real, nb: real, nk: real)
    requires b * (bigQ - 1.0) == p * (bigQ - kk)
    requires pay * (bigQ - 1.0) == p * r * bigQ
    requires nb == b - (pay - b * r) && nk == (1.0 + r) * kk
    ensures nb * (bigQ - 1.0) == p * (bigQ - nk)
  {
    var d := bigQ - 1.0;
    calc {
      nb * d;
      (b - (pay - b * r)) * d;
      b * d - pay * d + r * (b * d);
      p * (bigQ - kk) - p * r * bigQ + r * (p * (bigQ - kk));
      p * (bigQ - kk * (1.0 + r));
    }
  }

  lemma ExceedsAlgebra(p: real, r: real, pay: real, g: real)
    requires p > 0.0 && r > 0.0 && g > 1.0
    requires pay * (g - 1.0) == p * r * g
    ensures pay > p * r
  {
    var d := g - 1.0;
    assert p * r > 0.0;
    assert p * r * g == (p * r) * d + p * r;
    assert pay * d - (p * r) * d == p * r;
    assert (pay - p * r) * d == p * r;
    PositiveFactor(pay - p * r, d);
  }

  lemma CancelFactor(x: real, y: real, d: real)
    requires d > 0.0 && x * d == y * d
    ensures x == y
  {
    assert (x - y) * d == 0.0;
  }

  lemma ExactPaymentIsAnnuity(principal: real, annualInterestRate: real, loanTermYears: int)
    requires ValidTerms(principal, annualInterestRate, loanTermYears)
    ensures IsAnnuity(principal, MonthlyRate(annualInterestRate),
                      ExactMonthlyPayment(principal, annualInterestRate, loanTermYears),
                      NumberOfPayments(loanTermYears))
  {
    var r := MonthlyRate(annualInterestRate);
    var n := NumberOfPayments(loanTermYears);
    var growth := Pow(1.0 + r, n);
    PowStrictlyIncreasing(1.0 + r, 0, n);
    var pay := ExactMonthlyPayment(principal, annualInterestRate, loanTermYears);
    assert pay == (principal * (r * growth)) / (growth - 1.0);
    QuotientTimes(principal * (r * growth), growth - 1.0);
    assert principal * (r * growth) == principal * r * growth;
  }

  lemma QuotientTimes(num: real, d: real)
    requires d != 0.0
    ensures (num / d) * d == num
  {
  }

  /** The regular payment exceeds the first month's interest, so every
      regular month pays down some principal. */
  lemma PaymentExceedsInterestOnPrincipal(principal: real, annualInterestRate: real, loanTermYears: int)
    requires ValidTerms(principal, annualInterestRate, loanTermYears)
    ensures ExactMonthlyPayment(principal, annualInterestRate, loanTermYears) > principal * MonthlyRate(annualInterestRate)
  {
    var r := MonthlyRate(annualInterestRate);
    var n := NumberOfPayments(loanTermYears);
    ExactPaymentIsAnnuity(principal, annualInterestRate, loanTermYears);
    PowStrictlyIncreasing(1.0 + r, 0, n);
    ExceedsAlgebra(principal, r, ExactMonthlyPayment(principal, annualInterestRate, loanTermYears), Pow(1.0 + r, n));
  }

  /** The unrounded loop state keeps balance + principal paid = principal. */
  lemma {:induction false} BalancePlusPrincipalPaid(principal: real, r: real, pay: real, n: nat, k: nat)
    requires k <= n
    ensures AccrualAfter(principal, r, pay, n, k).remainingBalance
          + AccrualAfter(principal, r, pay, n, k).totalPrincipal == principal
  {
    if k > 0 {
      BalancePlusPrincipalPaid(principal, r, pay, n, k - 1);
    }
  }

  /** Σ of the interest of months 1..k, each on the balance carried into it. */
  function InterestPaid(principal: real, r: real, pay: real, n: nat, k: nat): real
    requires k <= n
  {
    if k == 0 then 0.0
    else InterestPaid(principal, r, pay, n, k - 1) + AccrualAfter(principal, r, pay, n, k - 1).remainingBalance * r
  }

  /** The sum of `count` payments of the same amount. */
  function PaymentsOf(payment: real, count: int): real
  {
    payment * count as real
  }

  lemma OneMorePayment(payment: real, count: int)
    ensures PaymentsOf(payment, count) == PaymentsOf(payment, count - 1) + payment
  {
  }

  /** Σ of the payments of months 1..k. */
  function PaymentsMade(principal: real, r: real, pay: real, n: nat, k: nat): real
    requires k <= n
  {
    if k == 0 then 0.0
    else PaymentsMade(principal, r, pay, n, k - 1)
         + PaymentAmount(AccrualAfter(principal, r, pay, n, k - 1), r, pay, k == n)
  }

  /** The running interest total is the sum of the monthly interest amounts. */
  lemma {:induction false} TotalInterestIsSumOfMonthlyInterest(principal: real, r: real, pay: real, n: nat, k: nat)
    requires k <= n
    ensures AccrualAfter(principal, r, pay, n, k).totalInterest == InterestPaid(principal, r, pay, n, k)
  {
    if k > 0 {
      TotalInterestIsSumOfMonthlyInterest(principal, r, pay, n, k - 1);
    }
  }

  /** Every payment splits into interest and principal. */
  lemma {:induction false} PaymentsSplitIntoInterestAndPrincipal(principal: real, r: real, pay: real, n: nat, k: nat)
    requires k <= n
    ensures AccrualAfter(principal, r, pay, n, k).totalInterest
          + AccrualAfter(principal, r, pay, n, k).totalPrincipal == PaymentsMade(principal, r, pay, n, k)
  {
    if k > 0 {
      PaymentsSplitIntoInterestAndPrincipal(principal, r, pay, n, k - 1);
    }
  }

  // ---------------------------------------------------------------------
  // The balance in closed form. Every month but the last applies the same
  // step b ↦ b − (pay − b·r); iterated from the principal, that step gives
  // the balance P·(Q − (1+r)^k)/(Q − 1), where Q = (1+r)^n.

  /** The balance after a month that pays the regular payment. */
  function RegularStep(b: real, r: real, pay: real): real
  {
    b - (pay - b * r)
  }

  /** The principal after k regular months. */
  function RegularBalance(principal: real, r: real, pay: real, k: nat): real
  {
    if k == 0 then principal else RegularStep(RegularBalance(principal, r, pay, k - 1), r, pay)
  }

  /** P·(Q − g)/(Q − 1): the balance once the principal has grown by the factor g. */
  function ClosedBalance(principal: real, bigQ: real, growthK: real): real
    requires bigQ != 1.0
  {
    principal * (bigQ - growthK) / (bigQ - 1.0)
  }

  lemma ClosedBalanceTimes(principal: real, bigQ: real, growthK: real)
    requires bigQ > 1.0
    ensures ClosedBalance(principal, bigQ, growthK) * (bigQ - 1.0) == principal * (bigQ - growthK)
  {
  }

  /** One regular month moves the closed form from growth g to growth g·(1+r). */
  lemma ClosedBalanceStep(principal: real, r: real, pay: real, bigQ: real, growthK: real)
    requires bigQ > 1.0
    requires pay * (bigQ - 1.0) == principal * r * bigQ
    ensures RegularStep(ClosedBalance(principal, bigQ, growthK), r, pay)
         == ClosedBalance(principal, bigQ, growthK * (1.0 + r))
  {
    var b := ClosedBalance(principal, bigQ, growthK);
    var nb := RegularStep(b, r, pay);
    var ng := growthK * (1.0 + r);
    ClosedBalanceTimes(principal, bigQ, growthK);
    ClosedBalanceTimes(principal, bigQ, ng);
    StepAlgebra(principal, r, pay, b, bigQ, growthK, nb, (1.0 + r) * growthK);
    CancelFactor(nb, ClosedBalance(principal, bigQ, ng), bigQ - 1.0);
  }

  lemma {:induction false} RegularBalanceClosedForm(principal: real, r: real, pay: real, bigQ: real, k: nat)
    requires bigQ > 1.0 && pay * (bigQ - 1.0) == principal * r * bigQ
    ensures RegularBalance(principal, r, pay, k) == ClosedBalance(principal, bigQ, Pow(1.0 + r, k))
  {
    if k > 0 {
      RegularBalanceClosedForm(principal, r, pay, bigQ, k - 1);
      PowStep(1.0 + r, k);
      var g := Pow(1.0 + r, k - 1);
      ClosedBalanceStep(principal, r, pay, bigQ, g);
      calc {
        RegularBalance(principal, r, pay, k);
        RegularStep(RegularBalance(principal, r, pay, k - 1), r, pay);
        RegularStep(ClosedBalance(principal, bigQ, g), r, pay);
        ClosedBalance(principal, bigQ, g * (1.0 + r));
        { assert g * (1.0 + r) == Pow(1.0 + r, k); }
        ClosedBalance(principal, bigQ, Pow(1.0 + r, k));
      }
    } else {
      var d := bigQ - 1.0;
      assert principal * d / d == principal;
    }
  }

  /** Before the last month the loop's balance is the regular balance. */
  lemma {:induction false} AccrualBalanceIsRegular(principal: real, r: real, pay: real, n: nat, k: nat)
    requires k < n
    ensures AccrualAfter(principal, r, pay, n, k).remainingBalance == RegularBalance(principal, r, pay, k)
  {
    if k > 0 {
      AccrualBalanceIsRegular(principal, r, pay, n, k - 1);
      assert AccrualAfter(principal, r, pay, n, k).remainingBalance
          == RegularStep(AccrualAfter(principal, r, pay, n, k - 1).remainingBalance, r, pay);
    }
  }

  lemma LastAlgebra(principal: real, r: real, pay: real, bigQ: real, growthK: real)
    requires bigQ > 1.0 && bigQ == growthK * (1.0 + r)
    requires pay * (bigQ - 1.0) == principal * r * bigQ
    ensures var b := ClosedBalance(principal, bigQ, growthK); b + b * r == pay
  {
    var b := ClosedBalance(principal, bigQ, growthK);
    var d := bigQ - 1.0;
    ClosedBalanceTimes(principal, bigQ, growthK);
    calc {
      (b + b * r) * d;
      (1.0 + r) * (b * d);
      (1.0 + r) * (principal * (bigQ - growthK));
      principal * (bigQ * (1.0 + r) - bigQ);
      principal * r * bigQ;
    }
    CancelFactor(b + b * r, pay, d);
  }

  lemma PositiveAlgebra(principal: real, bigQ: real, growthK: real)
    requires principal > 0.0 && bigQ > growthK && bigQ > 1.0
    ensures ClosedBalance(principal, bigQ, growthK) > 0.0
  {
    ClosedBalanceTimes(principal, bigQ, growthK);
    assert principal * (bigQ - growthK) > 0.0;
    PositiveFactor(ClosedBalance(principal, bigQ, growthK), bigQ - 1.0);
  }

  lemma DecreaseAlgebra(principal: real, r: real, pay: real, bigQ: real, growthK: real)
    requires principal > 0.0 && r > 0.0 && growthK > 0.0 && bigQ > 1.0
    requires pay * (bigQ - 1.0) == principal * r * bigQ
    ensures ClosedBalance(principal, bigQ, growthK) * r < pay
  {
    var b := ClosedBalance(principal, bigQ, growthK);
    var d := bigQ - 1.0;
    ClosedBalanceTimes(principal, bigQ, growthK);
    assert (pay - b * r) * d == pay * d - r * (b * d);
    assert (pay - b * r) * d == principal * r * growthK;
    assert principal * r * growthK > 0.0 by {
      assert principal * r > 0.0;
    }
    PositiveFactor(pay - b * r, d);
  }

  /** The n-th regular month leaves exactly nothing to pay beyond the payment:
      the balance before it plus its interest is the payment. */
  lemma RegularLastMonth(principal: real, r: real, pay: real, n: nat, bigQ: real)
    requires n > 0 && bigQ == Pow(1.0 + r, n) && bigQ > 1.0
    requires pay * (bigQ - 1.0) == principal * r * bigQ
    ensures var b := RegularBalance(principal, r, pay, n - 1); b + b * r == pay
  {
    var growthK := Pow(1.0 + r, n - 1);
    RegularBalanceClosedForm(principal, r, pay, bigQ, n - 1);
    PowStep(1.0 + r, n);
    assert bigQ == growthK * (1.0 + r);
    LastAlgebra(principal, r, pay, bigQ, growthK);
  }

  /** Before the last month the regular balance is positive and its interest
      is below the payment. */
  lemma RegularBalanceBounds(principal: real, r: real, pay: real, n: nat, bigQ: real, k: nat)
    requires principal > 0.0 && r > 0.0 && k < n && bigQ == Pow(1.0 + r, n) && bigQ > 1.0
    requires pay * (bigQ - 1.0) == principal * r * bigQ
    ensures RegularBalance(principal, r, pay, k) > 0.0
    ensures RegularBalance(principal, r, pay, k) * r < pay
  {
    RegularBalanceClosedForm(principal, r, pay, bigQ, k);
    PowStrictlyIncreasing(1.0 + r, k, n);
    PositiveAlgebra(principal, bigQ, Pow(1.0 + r, k));
    DecreaseAlgebra(principal, r, pay, bigQ, Pow(1.0 + r, k));
  }

  lemma RegularBalanceDecreases(principal: real, r: real, pay: real, n: nat, bigQ: real, k: nat)
    requires principal > 0.0 && r > 0.0 && 0 < k < n && bigQ == Pow(1.0 + r, n) && bigQ > 1.0
    requires pay * (bigQ - 1.0) == principal * r * bigQ
    ensures RegularBalance(principal, r, pay, k) < RegularBalance(principal, r, pay, k - 1)
  {
    RegularBalanceBounds(principal, r, pay, n, bigQ, k - 1);
  }

  /** The last month leaves a zero balance. */
  lemma PaidOff(principal: real, r: real, pay: real, n: nat)
    requires n > 0
    ensures AccrualAfter(principal, r, pay, n, n).remainingBalance == 0.0
  {
  }

  /** In exact arithmetic the forced last payment equals the regular payment. */
  lemma LastPaymentIsRegular(principal: real, r: real, pay: real, n: nat)
    requires IsAnnuity(principal, r, pay, n)
    ensures PaymentAmount(AccrualAfter(principal, r, pay, n, n - 1), r, pay, true) == pay
  {
    AnnuityGrowth(principal, r, pay, n);
    RegularLastMonth(principal, r, pay, n, Pow(1.0 + r, n));
    AccrualLastPayment(principal, r, pay, n);
  }

  lemma AccrualLastPayment(principal: real, r: real, pay: real, n: nat)
    requires n > 0
    requires RegularBalance(principal, r, pay, n - 1) + RegularBalance(principal, r, pay, n - 1) * r == pay
    ensures PaymentAmount(AccrualAfter(principal, r, pay, n, n - 1), r, pay, true) == pay
  {
    AccrualBalanceIsRegular(principal, r, pay, n, n - 1);
  }

  /** Every month, including the last, pays exactly the annuity payment. */
  lemma EveryPaymentIsRegular(principal: real, r: real, pay: real, n: nat, k: nat)
    requires IsAnnuity(principal, r, pay, n) && 1 <= k <= n
    ensures PaymentAmount(AccrualAfter(principal, r, pay, n, k - 1), r, pay, k == n) == pay
  {
    if k == n {
      LastPaymentIsRegular(principal, r, pay, n);
    }
  }

  lemma {:induction false} PaymentsMadeAreRegular(principal: real, r: real, pay: real, n: nat, k: nat)
    requires IsAnnuity(principal, r, pay, n) && k <= n
    ensures PaymentsMade(principal, r, pay, n, k) == PaymentsOf(pay, k)
  {
    if k > 0 {
      PaymentsMadeAreRegular(principal, r, pay, n, k - 1);
      EveryPaymentIsRegular(principal, r, pay, n, k);
      OneMorePayment(pay, k);
    }
  }

  /** An annuity's interest factor over the whole term exceeds one. */
  lemma AnnuityGrowth(principal: real, r: real, pay: real, n: nat)
    requires IsAnnuity(principal, r, pay, n)
    ensures Pow(1.0 + r, n) > 1.0
  {
    PowStrictlyIncreasing(1.0 + r, 0, n);
  }

  /** The balance is strictly positive before the last month. */
  lemma BalancePositiveBeforePayoff(principal: real, r: real, pay: real, n: nat, k: nat)
    requires IsAnnuity(principal, r, pay, n) && k < n
    ensures AccrualAfter(principal, r, pay, n, k).remainingBalance > 0.0
  {
    AnnuityGrowth(principal, r, pay, n);
    RegularBalanceBounds(principal, r, pay, n, Pow(1.0 + r, n), k);
    AccrualPositive(principal, r, pay, n, k);
  }

  lemma AccrualPositive(principal: real, r: real, pay: real, n: nat, k: nat)
    requires k < n && RegularBalance(principal, r, pay, k) > 0.0
    ensures AccrualAfter(principal, r, pay, n, k).remainingBalance > 0.0
  {
    AccrualBalanceIsRegular(principal, r, pay, n, k);
  }

  /** Each month strictly lowers the balance, the last one to zero. */
  lemma BalanceStrictlyDecreases(principal: real, r: real, pay: real, n: nat, k: nat)
    requires IsAnnuity(principal, r, pay, n) && 1 <= k <= n
    ensures AccrualAfter(principal, r, pay, n, k).remainingBalance
          < AccrualAfter(principal, r, pay, n, k - 1).remainingBalance
  {
    if k < n {
      AnnuityGrowth(principal, r, pay, n);
      RegularBalanceDecreases(principal, r, pay, n, Pow(1.0 + r, n), k);
      AccrualDecreases(principal, r, pay, n, k);
    } else {
      BalancePositiveBeforePayoff(principal, r, pay, n, n - 1);
      PaidOff(principal, r, pay, n);
    }
  }

  lemma AccrualDecreases(principal: real, r: real, pay: real, n: nat, k: nat)
    requires 0 < k < n
    requires RegularBalance(principal, r, pay, k) < RegularBalance(principal, r, pay, k - 1)
    ensures AccrualAfter(principal, r, pay, n, k).remainingBalance
          < AccrualAfter(principal, r, pay, n, k - 1).remainingBalance
  {
    AccrualBalanceIsRegular(principal, r, pay, n, k);
    AccrualBalanceIsRegular(principal, r, pay, n, k - 1);
  }

  lemma {:induction false} BalanceNonIncreasing(principal: real, r: real, pay: real, n: nat, j: nat, k: nat)
    requires IsAnnuity(principal, r, pay, n) && j <= k <= n
    ensures AccrualAfter(principal, r, pay, n, k).remainingBalance
         <= AccrualAfter(principal, r, pay, n, j).remainingBalance
  {
    if j < k {
      BalanceNonIncreasing(principal, r, pay, n, j, k - 1);
      BalanceStrictlyDecreases(principal, r, pay, n, k);
    }
  }

  /** At payoff the balance is zero, all principal is repaid, and the
      interest paid is n regular payments less the principal. */
  lemma TotalsAtPayoff(principal: real, r: real, pay: real, n: nat)
    requires IsAnnuity(principal, r, pay, n)
    ensures AccrualAfter(principal, r, pay, n, n).remainingBalance == 0.0
    ensures AccrualAfter(principal, r, pay, n, n).totalPrincipal == principal
    ensures AccrualAfter(principal, r, pay, n, n).totalInterest == PaymentsOf(pay, n) - principal
  {
    BalancePlusPrincipalPaid(principal, r, pay, n, n);
    PaymentsSplitIntoInterestAndPrincipal(principal, r, pay, n, n);
    PaymentsMadeAreRegular(principal, r, pay, n, n);
  }

  // ---------------------------------------------------------------------
  // The same facts, read off the rounded schedule that is returned.

  lemma Round2Zero()
    ensures Round2(0.0) == 0.0
  {
    Round2OfCents(0);
  }

  /** The last entry's balance is exactly zero. */
  lemma ScheduleEndsAtZero(principal: real, annualInterestRate: real, loanTermYears: int)
    requires ValidTerms(principal, annualInterestRate, loanTermYears)
    ensures var s := Schedule(principal, annualInterestRate, loanTermYears);
            s[|s| - 1].remainingBalance == 0.0
  {
    var n := NumberOfPayments(loanTermYears);
    var s := Schedule(principal, annualInterestRate, loanTermYears);
    assert s[n] == ScheduleEntry(principal, MonthlyRate(annualInterestRate),
                                 ExactMonthlyPayment(principal, annualInterestRate, loanTermYears), n, n);
    Round2Zero();
  }

  /** Entry k's balance is the rounded running balance after k months. */
  lemma ScheduleBalanceAt(principal: real, annualInterestRate: real, loanTermYears: int, k: nat)
    requires ValidTerms(principal, annualInterestRate, loanTermYears)
    requires k <= NumberOfPayments(loanTermYears)
    ensures Schedule(principal, annualInterestRate, loanTermYears)[k].remainingBalance
         == Round2(AccrualAfter(principal, MonthlyRate(annualInterestRate),
                                ExactMonthlyPayment(principal, annualInterestRate, loanTermYears),
                                NumberOfPayments(loanTermYears), k).remainingBalance)
  {
    var s := Schedule(principal, annualInterestRate, loanTermYears);
    if k > 0 {
      assert s[k] == ScheduleEntry(principal, MonthlyRate(annualInterestRate),
                                   ExactMonthlyPayment(principal, annualInterestRate, loanTermYears),
                                   NumberOfPayments(loanTermYears), k);
    }
  }

  /** The entry stored for a month from the running totals before and
      after it: the interest on the balance carried in, the fall of the
      balance, and the two together as the payment. */
  lemma StoredAmounts(before: Accrual, after: Accrual, r: real, pay: real, isLast: bool, e: Entry)
    requires after == NextAccrual(before, r, pay, isLast)
    requires e.paymentAmount == Round2(PaymentAmount(before, r, pay, isLast))
    requires e.principalPayment == Round2(PrincipalPart(before, r, pay, isLast))
    requires e.interestPayment == Round2(Interest(before, r))
    ensures e.interestPayment == Round2(before.remainingBalance * r)
    ensures e.principalPayment == Round2(before.remainingBalance - after.remainingBalance)
    ensures e.paymentAmount
         == Round2(before.remainingBalance * r + (before.remainingBalance - after.remainingBalance))
  {
    assert PaymentAmount(before, r, pay, isLast)
        == before.remainingBalance * r + (before.remainingBalance - after.remainingBalance);
  }

  /** An entry that stores a month carried in at balance `before` and left
      at balance `after`, at monthly rate r: the interest on `before`, the
      fall of the balance, the two together as the payment, and the interest
      paid so far, each rounded to cents. */
  predicate StoredAsMonth(e: Entry, before: real, after: real, r: real, interestSoFar: real)
  {
    && e.interestPayment == Round2(before * r)
    && e.principalPayment == Round2(before - after)
    && e.paymentAmount == Round2(before * r + (before - after))
    && e.totalInterest == Round2(interestSoFar)
  }

  /** Month k's entry, for any rate and payment, stores month k: each amount
      is rounded only as it is stored, and the interest total is the sum of
      the monthly interest of months 1..k. */
  lemma EntryAmounts(principal: real, r: real, pay: real, n: nat, k: nat)
    requires 1 <= k <= n
    ensures StoredAsMonth(ScheduleEntry(principal, r, pay, n, k),
                          AccrualAfter(principal, r, pay, n, k - 1).remainingBalance,
                          AccrualAfter(principal, r, pay, n, k).remainingBalance,
                          r, InterestPaid(principal, r, pay, n, k))
  {
    var before := AccrualAfter(principal, r, pay, n, k - 1);
    var after := AccrualAfter(principal, r, pay, n, k);
    EntryFromTotals(principal, r, pay, n, k);
    StoredAmounts(before, after, r, pay, k == n, ScheduleEntry(principal, r, pay, n, k));
    TotalInterestIsSumOfMonthlyInterest(principal, r, pay, n, k);
  }

  /** Entry k holds month k's amounts from the running totals before and after it. */
  lemma EntryFromTotals(principal: real, r: real, pay: real, n: nat, k: nat)
    requires 1 <= k <= n
    ensures var e := ScheduleEntry(principal, r, pay, n, k);
            var before := AccrualAfter(principal, r, pay, n, k - 1);
            && AccrualAfter(principal, r, pay, n, k) == NextAccrual(before, r, pay, k == n)
            && e.paymentAmount == Round2(PaymentAmount(before, r, pay, k == n))
            && e.principalPayment == Round2(PrincipalPart(before, r, pay, k == n))
            && e.interestPayment == Round2(Interest(before, r))
            && e.totalInterest == Round2(AccrualAfter(principal, r, pay, n, k).totalInterest)
  {
  }

  /** Entry k of the schedule is month k's entry. */
  lemma ScheduleEntryAt(principal: real, annualInterestRate: real, loanTermYears: int, k: nat)
    requires ValidTerms(principal, annualInterestRate, loanTermYears)
    requires 1 <= k <= NumberOfPayments(loanTermYears)
    ensures Schedule(principal, annualInterestRate, loanTermYears)[k]
         == ScheduleEntry(principal, MonthlyRate(annualInterestRate),
                          ExactMonthlyPayment(principal, annualInterestRate, loanTermYears),
                          NumberOfPayments(loanTermYears), k)
  {
  }

  /** Entry k of the schedule stores month k: its interest is the month's
      interest on the balance carried into it, its principal is what the
      balance fell by, its payment is the two together, and its interest
      total is the sum of the monthly interest of months 1..k; each is
      rounded only as it is stored. */
  lemma ScheduleEntryAmounts(principal: real, annualInterestRate: real, loanTermYears: int, k: nat)
    requires ValidTerms(principal, annualInterestRate, loanTermYears)
    requires 1 <= k <= NumberOfPayments(loanTermYears)
    ensures var r := MonthlyRate(annualInterestRate);
            var pay := ExactMonthlyPayment(principal, annualInterestRate, loanTermYears);
            var n := NumberOfPayments(loanTermYears);
            StoredAsMonth(Schedule(principal, annualInterestRate, loanTermYears)[k],
                          AccrualAfter(principal, r, pay, n, k - 1).remainingBalance,
                          AccrualAfter(principal, r, pay, n, k).remainingBalance,
                          r, InterestPaid(principal, r, pay, n, k))
  {
    ScheduleEntryAt(principal, annualInterestRate, loanTermYears, k);
    EntryAmounts(principal, MonthlyRate(annualInterestRate),
                 ExactMonthlyPayment(principal, annualInterestRate, loanTermYears),
                 NumberOfPayments(loanTermYears), k);
  }

  /** The stored balances never go up from one entry to a later one. */
  lemma ScheduleBalancesNonIncreasing(principal: real, annualInterestRate: real, loanTermYears: int, j: nat, k: nat)
    requires ValidTerms(principal, annualInterestRate, loanTermYears)
    requires j <= k <= NumberOfPayments(loanTermYears)
    ensures var s := Schedule(principal, annualInterestRate, loanTermYears);
            s[k].remainingBalance <= s[j].remainingBalance
  {
    var r := MonthlyRate(annualInterestRate);
    var pay := ExactMonthlyPayment(principal, annualInterestRate, loanTermYears);
    var n := NumberOfPayments(loanTermYears);
    ExactPaymentIsAnnuity(principal, annualInterestRate, loanTermYears);
    BalanceNonIncreasing(principal, r, pay, n, j, k);
    ScheduleBalanceAt(principal, annualInterestRate, loanTermYears, j);
    ScheduleBalanceAt(principal, annualInterestRate, loanTermYears, k);
    Round2Monotone(AccrualAfter(principal, r, pay, n, k).remainingBalance,
                   AccrualAfter(principal, r, pay, n, j).remainingBalance);
  }

  /** Every entry after the opening one shows the monthly payment that
      `calculateMonthlyPayment` reports, the last one included. */
  lemma SchedulePaymentsMatchMonthlyPayment(principal: real, annualInterestRate: real, loanTermYears: int, k: nat)
    requires ValidTerms(principal, annualInterestRate, loanTermYears)
    requires 1 <= k <= NumberOfPayments(loanTermYears)
    ensures Schedule(principal, annualInterestRate, loanTermYears)[k].paymentAmount
         == CalculateMonthlyPayment(principal, annualInterestRate, loanTermYears).value
  {
    var r := MonthlyRate(annualInterestRate);
    var pay := ExactMonthlyPayment(principal, annualInterestRate, loanTermYears);
    var n := NumberOfPayments(loanTermYears);
    ExactPaymentIsAnnuity(principal, annualInterestRate, loanTermYears);
    EveryPaymentIsRegular(principal, r, pay, n, k);
    var s := Schedule(principal, annualInterestRate, loanTermYears);
    assert s[k] == ScheduleEntry(principal, r, pay, n, k);
  }

  /** The last entry's interest total is n regular payments less the principal. */
  lemma ScheduleTotalInterest(principal: real, annualInterestRate: real, loanTermYears: int)
    requires ValidTerms(principal, annualInterestRate, loanTermYears)
    ensures var s := Schedule(principal, annualInterestRate, loanTermYears);
            s[|s| - 1].totalInterest
            == Round2(PaymentsOf(ExactMonthlyPayment(principal, annualInterestRate, loanTermYears), NumberOfPayments(loanTermYears))
                      - principal)
  {
    var r := MonthlyRate(annualInterestRate);
    var pay := ExactMonthlyPayment(principal, annualInterestRate, loanTermYears);
    var n := NumberOfPayments(loanTermYears);
    var s := Schedule(principal, annualInterestRate, loanTermYears);
    ExactPaymentIsAnnuity(principal, annualInterestRate, loanTermYears);
    TotalsAtPayoff(principal, r, pay, n);
    assert s[n] == ScheduleEntry(principal, r, pay, n, n);
    assert |s| - 1 == n;
  }

  /** n − 1 monthly payments and a last one of the same amount cost n payments. */
  lemma ManyPayments(m: real, n: int, last: real)
    requires last == m
    ensures TotalCost(m, n, last) == PaymentsOf(m, n)
  {
  }

  lemma LoanCostsOfLastEntry(principal: real, annualInterestRate: real, loanTermYears: int)
    requires ValidTerms(principal, annualInterestRate, loanTermYears)
    ensures var s := Schedule(principal, annualInterestRate, loanTermYears);
            var n := NumberOfPayments(loanTermYears);
            var last := s[n];
            var m := CalculateMonthlyPayment(principal, annualInterestRate, loanTermYears).value;
            CalculateLoanCosts(principal, annualInterestRate, loanTermYears).value
            == LoanCosts(m, last.paymentAmount, n + 1, Round2(principal), last.totalInterest,
                         Round2(TotalCost(m, n, last.paymentAmount)))
  {
    var s := Schedule(principal, annualInterestRate, loanTermYears);
    assert |s| - 1 == NumberOfPayments(loanTermYears);
  }

  /** The loan-cost summary: n + 1 entries counted, a final payment equal to
      the monthly one, interest of n payments less the principal, and a total
      cost of n monthly payments. */
  lemma LoanCostsSummary(principal: real, annualInterestRate: real, loanTermYears: int)
    requires ValidTerms(principal, annualInterestRate, loanTermYears)
    ensures CalculateLoanCosts(principal, annualInterestRate, loanTermYears).value.monthlyPayment
         == CalculateMonthlyPayment(principal, annualInterestRate, loanTermYears).value
    ensures CalculateLoanCosts(principal, annualInterestRate, loanTermYears).value.finalPayment
         == CalculateMonthlyPayment(principal, annualInterestRate, loanTermYears).value
    ensures CalculateLoanCosts(principal, annualInterestRate, loanTermYears).value.totalPayments
         == NumberOfPayments(loanTermYears) + 1
    ensures CalculateLoanCosts(principal, annualInterestRate, loanTermYears).value.totalInterest
         == Round2(PaymentsOf(ExactMonthlyPayment(principal, annualInterestRate, loanTermYears), NumberOfPayments(loanTermYears))
                   - principal)
    ensures CalculateLoanCosts(principal, annualInterestRate, loanTermYears).value.totalCost
         == Round2(PaymentsOf(CalculateMonthlyPayment(principal, annualInterestRate, loanTermYears).value,
                              NumberOfPayments(loanTermYears)))
  {
    var n := NumberOfPayments(loanTermYears);
    var m := CalculateMonthlyPayment(principal, annualInterestRate, loanTermYears).value;
    LoanCostsOfLastEntry(principal, annualInterestRate, loanTermYears);
    ScheduleTotalInterest(principal, annualInterestRate, loanTermYears);
    SchedulePaymentsMatchMonthlyPayment(principal, annualInterestRate, loanTermYears, n);
    var last := Schedule(principal, annualInterestRate, loanTermYears)[n].paymentAmount;
    ManyPayments(m, n, last);
  }
}
