/** The amortization engine: the fixed-rate annuity payment, the
    month-by-month schedule and the loan-cost summary derived from it. */
module Amortization {
  import opened Common

  /** One row of a schedule as it is returned: every amount rounded to cents. */
  datatype Entry = Entry(
    paymentNumber: nat,
    paymentAmount: real,
    principalPayment: real,
    interestPayment: real,
    totalInterest: real,
    remainingBalance: real)

  /** The running totals the schedule loop carries from month to month, at
      full precision. */
  datatype Accrual = Accrual(remainingBalance: real, totalInterest: real, totalPrincipal: real)

  /** The summary of a loan's cost. */
  datatype LoanCosts = LoanCosts(
    monthlyPayment: real,
    finalPayment: real,
    totalPayments: nat,
    totalPrincipal: real,
    totalInterest: real,
    totalCost: real)

  /** Every entry point refuses a principal, rate or term that is not positive. */
  predicate ValidTerms(principal: real, annualInterestRate: real, loanTermYears: int)
  {
    principal > 0.0 && annualInterestRate > 0.0 && loanTermYears > 0
  }

  function MonthlyRate(annualInterestRate: real): real
  {
    annualInterestRate / 100.0 / 12.0
  }

  function NumberOfPayments(loanTermYears: int): int
  {
    loanTermYears * 12
  }

  /** The unrounded annuity payment P·r·(1+r)^n / ((1+r)^n − 1). */
  function ExactMonthlyPayment(principal: real, annualInterestRate: real, loanTermYears: int): (pay: real)
    requires ValidTerms(principal, annualInterestRate, loanTermYears)
    ensures pay > 0.0
  {
    var r := MonthlyRate(annualInterestRate);
    var growth := Pow(1.0 + r, NumberOfPayments(loanTermYears));
    PowStrictlyIncreasing(1.0 + r, 0, NumberOfPayments(loanTermYears));
    ProductPositive(r, growth);
    ProductPositive(principal, r * growth);
    (principal * (r * growth)) / (growth - 1.0)
  }

  /** The payment rounded for display, or the refusal of invalid terms. */
  function CalculateMonthlyPayment(principal: real, annualInterestRate: real, loanTermYears: int): (res: Result<real>)
    ensures res.Ok? <==> ValidTerms(principal, annualInterestRate, loanTermYears)
    ensures res.Err? ==> res.error == InvalidParameter
    ensures res.Ok? ==>
      var exact := ExactMonthlyPayment(principal, annualInterestRate, loanTermYears);
      exact - 0.005 < res.value <= exact + 0.005
  {
    if !ValidTerms(principal, annualInterestRate, loanTermYears) then Err(InvalidParameter)
    else
      var exact := ExactMonthlyPayment(principal, annualInterestRate, loanTermYears);
      Ok(Round2(exact))
  }

  // ---------------------------------------------------------------------
  // The monthly recurrence, for a principal P, a monthly rate r, a regular
  // payment pay and n payments in all.

  function Interest(a: Accrual, r: real): real
  {
    a.remainingBalance * r
  }

  /** The last month pays off the exact remaining balance; every other month
      puts what the regular payment leaves after interest towards principal. */
  function PrincipalPart(a: Accrual, r: real, pay: real, isLast: bool): real
  {
    if isLast then a.remainingBalance else pay - Interest(a, r)
  }

  function PaymentAmount(a: Accrual, r: real, pay: real, isLast: bool): real
  {
    if isLast then PrincipalPart(a, r, pay, isLast) + Interest(a, r) else pay
  }

  function NextAccrual(a: Accrual, r: real, pay: real, isLast: bool): (next: Accrual)
    ensures next.remainingBalance + next.totalPrincipal == a.remainingBalance + a.totalPrincipal
    ensures next.totalInterest == a.totalInterest + Interest(a, r)
    ensures isLast ==> next.remainingBalance == 0.0
  {
    var principal := PrincipalPart(a, r, pay, isLast);
    Accrual(a.remainingBalance - principal, a.totalInterest + Interest(a, r), a.totalPrincipal + principal)
  }

  /** The running totals after k of the n months. */
  function AccrualAfter(principal: real, r: real, pay: real, n: nat, k: nat): (acc: Accrual)
    requires k <= n
    ensures 0 < k == n ==> acc.remainingBalance == 0.0
    decreases k
  {
    if k == 0 then Accrual(principal, 0.0, 0.0)
    else NextAccrual(AccrualAfter(principal, r, pay, n, k - 1), r, pay, k == n)
  }

  /** Entry k (1 <= k <= n): the amounts of month k, rounded only as they are stored. */
  function ScheduleEntry(principal: real, r: real, pay: real, n: nat, k: nat): (e: Entry)
    requires 1 <= k <= n
    ensures e.paymentNumber == k
    ensures k < n ==> e.paymentAmount == Round2(pay)
  {
    var before := AccrualAfter(principal, r, pay, n, k - 1);
    var after := AccrualAfter(principal, r, pay, n, k);
    var isLast := k == n;
    Entry(k,
          Round2(PaymentAmount(before, r, pay, isLast)),
          Round2(PrincipalPart(before, r, pay, isLast)),
          Round2(Interest(before, r)),
          Round2(after.totalInterest),
          Round2(after.remainingBalance))
  }

  function OpeningEntry(principal: real): (e: Entry)
    ensures e.paymentNumber == 0 && e.paymentAmount == 0.0 && e.totalInterest == 0.0
    ensures principal - 0.005 < e.remainingBalance <= principal + 0.005
  {
    Entry(0, 0.0, 0.0, 0.0, 0.0, Round2(principal))
  }

  /** The schedule of valid terms: an opening entry, then one entry per month. */
  function Schedule(principal: real, annualInterestRate: real, loanTermYears: int): (s: seq<Entry>)
    requires ValidTerms(principal, annualInterestRate, loanTermYears)
    ensures |s| == NumberOfPayments(loanTermYears) + 1
    ensures forall k :: 0 <= k < |s| ==> s[k].paymentNumber == k
    ensures s[0] == Entry(0, 0.0, 0.0, 0.0, 0.0, Round2(principal))
  {
    var r := MonthlyRate(annualInterestRate);
    var n := NumberOfPayments(loanTermYears);
    var pay := ExactMonthlyPayment(principal, annualInterestRate, loanTermYears);
    [OpeningEntry(principal)] + seq(n, i requires 0 <= i < n => ScheduleEntry(principal, r, pay, n, i + 1))
  }

  /** What `generateAmortizationSchedule` returns or throws. */
  function AmortizationSchedule(principal: real, annualInterestRate: real, loanTermYears: int): (res: Result<seq<Entry>>)
    ensures res.Ok? <==> ValidTerms(principal, annualInterestRate, loanTermYears)
    ensures res.Err? ==> res.error == InvalidParameter
    ensures res.Ok? ==> |res.value| == NumberOfPayments(loanTermYears) + 1
  {
    if !ValidTerms(principal, annualInterestRate, loanTermYears) then Err(InvalidParameter)
    else Ok(Schedule(principal, annualInterestRate, loanTermYears))
  }

  /** The schedule loop: running totals are carried unrounded; only the stored
      entries are rounded. */
  method GenerateAmortizationSchedule(principal: real, annualInterestRate: real, loanTermYears: int)
    returns (res: Result<seq<Entry>>)
    ensures res == AmortizationSchedule(principal, annualInterestRate, loanTermYears)
  {
    if principal <= 0.0 || annualInterestRate <= 0.0 || loanTermYears <= 0 {
      return Err(InvalidParameter);
    }
    var monthlyRate := annualInterestRate / 100.0 / 12.0;
    var numberOfPayments := loanTermYears * 12;
    var exactMonthlyPayment := ExactMonthlyPayment(principal, annualInterestRate, loanTermYears);

    var schedule := [Entry(0, 0.0, 0.0, 0.0, 0.0, Round2(principal))];
    var remainingBalance := principal;
    var totalInterest := 0.0;
    var totalPrincipal := 0.0;

    var month := 1;
    while month <= numberOfPayments
      invariant 1 <= month <= numberOfPayments + 1
      invariant Accrual(remainingBalance, totalInterest, totalPrincipal)
             == AccrualAfter(principal, monthlyRate, exactMonthlyPayment, numberOfPayments, month - 1)
      invariant |schedule| == month
      invariant schedule[0] == OpeningEntry(principal)
      invariant forall k :: 1 <= k < month ==>
                  schedule[k] == ScheduleEntry(principal, monthlyRate, exactMonthlyPayment, numberOfPayments, k)
    {
      ghost var balance, interestSoFar, principalSoFar := remainingBalance, totalInterest, totalPrincipal;
      var isLastPayment := month == numberOfPayments;
      var interestPayment := remainingBalance * monthlyRate;
      var principalPayment, paymentAmount;
      if isLastPayment {
        principalPayment := remainingBalance;
        paymentAmount := principalPayment + interestPayment;
      } else {
        paymentAmount := exactMonthlyPayment;
        principalPayment := paymentAmount - interestPayment;
      }
      totalInterest := totalInterest + interestPayment;
      totalPrincipal := totalPrincipal + principalPayment;
      remainingBalance := remainingBalance - principalPayment;
      var entry := Entry(month,
                         Round2(paymentAmount),
                         Round2(principalPayment),
                         Round2(interestPayment),
                         Round2(totalInterest),
                         Round2(remainingBalance));
      EntryOfMonth(principal, monthlyRate, exactMonthlyPayment, numberOfPayments, month,
                   balance, interestSoFar, principalSoFar, interestPayment, principalPayment, paymentAmount,
                   remainingBalance, totalInterest, totalPrincipal);
      schedule := schedule + [entry];
      month := month + 1;
    }
    ScheduleFromEntries(principal, annualInterestRate, loanTermYears, schedule);
    return Ok(schedule);
  }

  /** The amounts the loop computes in month k are those of entry k. */
  lemma EntryOfMonth(principal: real, r: real, pay: real, n: nat, k: nat,
                     balance: real, interestSoFar: real, principalSoFar: real,
                     interest: real, principalPart: real, payment: real,
                     newBalance: real, newInterest: real, newPrincipal: real)
    requires 1 <= k <= n
    requires Accrual(balance, interestSoFar, principalSoFar) == AccrualAfter(principal, r, pay, n, k - 1)
    requires interest == balance * r
    requires principalPart == if k == n then balance else pay - interest
    requires payment == if k == n then principalPart + interest else pay
    requires newBalance == balance - principalPart
    requires newInterest == interestSoFar + interest
    requires newPrincipal == principalSoFar + principalPart
    ensures Accrual(newBalance, newInterest, newPrincipal) == AccrualAfter(principal, r, pay, n, k)
    ensures Entry(k, Round2(payment), Round2(principalPart), Round2(interest), Round2(newInterest), Round2(newBalance))
            == ScheduleEntry(principal, r, pay, n, k)
  {
  }

  lemma ScheduleFromEntries(principal: real, annualInterestRate: real, loanTermYears: int, s: seq<Entry>)
    requires ValidTerms(principal, annualInterestRate, loanTermYears)
    requires |s| == NumberOfPayments(loanTermYears) + 1
    requires s[0] == OpeningEntry(principal)
    requires forall k :: 1 <= k < |s| ==>
               s[k] == ScheduleEntry(principal, MonthlyRate(annualInterestRate),
                                     ExactMonthlyPayment(principal, annualInterestRate, loanTermYears),
                                     NumberOfPayments(loanTermYears), k)
    ensures s == Schedule(principal, annualInterestRate, loanTermYears)
  {
    var spec := Schedule(principal, annualInterestRate, loanTermYears);
    forall k | 0 <= k < |spec|
      ensures s[k] == spec[k]
    {
    }
  }

  /** n − 1 regular payments followed by the final one. */
  function TotalCost(monthlyPayment: real, numberOfPayments: int, finalPayment: real): real
  {
    monthlyPayment * (numberOfPayments - 1) as real + finalPayment
  }

  /** What `calculateLoanCosts` returns or throws. */
  function CalculateLoanCosts(principal: real, annualInterestRate: real, loanTermYears: int): (res: Result<LoanCosts>)
    ensures res.Ok? <==> ValidTerms(principal, annualInterestRate, loanTermYears)
    ensures res.Err? ==> res.error == InvalidParameter
    ensures res.Ok? ==> res.value.totalPayments == NumberOfPayments(loanTermYears) + 1
    ensures res.Ok? ==> res.value.totalPrincipal == Round2(principal)
  {
    if !ValidTerms(principal, annualInterestRate, loanTermYears) then Err(InvalidParameter)
    else
      var schedule := Schedule(principal, annualInterestRate, loanTermYears);
      var lastPayment := schedule[|schedule| - 1];
      var baseMonthlyPayment := CalculateMonthlyPayment(principal, annualInterestRate, loanTermYears).value;
      var exactTotalCost := TotalCost(baseMonthlyPayment, NumberOfPayments(loanTermYears), lastPayment.paymentAmount);
      Ok(LoanCosts(baseMonthlyPayment, lastPayment.paymentAmount, |schedule|, Round2(principal),
                   lastPayment.totalInterest, Round2(exactTotalCost)))
  }
}
