# Rental-portfolio growth engine, modelled in Dafny

This project models the financial engine of a tool that plans a rental-house
portfolio. It covers five parts:

- **Amortization calculator.** It computes a fixed-rate loan's monthly payment,
  its month-by-month schedule and the summary of its costs. Stored amounts are
  rounded to cents. The running totals are carried unrounded.
- **House.** A house can report its appreciated value, its equity, and the
  cash a refinance would pay out. A refinance replaces the house's loan in
  place with 75 percent of its value.
- **Growth simulation.** It starts with a number of identical houses. Each
  month it refinances every house whose payout exceeds the cost of getting
  into another house, and buys one house per such refinance. Buying stops in
  the last 24 months. At the end it turns the portfolio's value into a
  monthly income.
- **Requirement search.** It finds the smallest starting count, from 1 to 99,
  whose income beats an inflation-adjusted target.
- **Simulation runner.** It admits the user's starting houses into the
  simulation month by month.

How the model is built:

- Pure code becomes functions, with lemmas about them: the calculator, the
  house queries, the refinance specification, and the month, growth and
  search specifications.
- Code that changes things becomes methods with loops:
  - the schedule loop;
  - the `House` class, whose `DoARefinance` updates its fields;
  - the loops of the growth phase, the withdrawal and the search;
  - the admission loop of the runner.

  Each method is proved equal to the specification function beside it.
- Monetary arithmetic is done over `real`.
- `Math.round` is half-up rounding (`RoundHalfUp`). Display rounding to cents
  is `Round2`.
- `Math.pow` with a whole-number exponent is `Pow`.
- Appreciation, `price * (1 + a/100)^(months/12)`, has a fractional exponent,
  so it is a parameter `grow: GrowthCurve`. The curve is required to keep a
  positive price positive and to be the price itself after zero months.
- Every thrown error becomes a `Result` error:
  - `InvalidParameter`: a loan principal, rate or term that is not positive;
  - `IllegalOperation`: a payout asked for in the month of the latest loan;
  - `DownPaymentTooLow`: a refinance with less than 25 percent down;
  - `ScheduleLookupOutOfRange`: a schedule read past its end, which makes the
    JavaScript code throw.

Behaviour modelled exactly as the code has it:

- The payout query and the refinance value the house by appreciation since
  its latest loan, not since its purchase. `ValueSinceLatestLoan` is this
  value. `CurrentHomeValue` is the value since purchase.
- A refinance assigns its new loan fields before it generates the new
  schedule. If the new terms are refused, those fields stay written.
- The loan-cost summary counts `totalPayments` as the schedule's length,
  which includes the opening entry (n + 1).

## Model

| member | source | states |
|---|---|---|
| Common.RoundHalfUp | src/lib/AmortizationCalculator.js:182-186 | Half-up rounding to an integer lies within half a unit of its argument. |
| Common.Round2 | src/lib/AmortizationCalculator.js:178-187 | Display rounding to cents moves a value by at most half a cent. |
| Common.Round2IsWholeCents | src/lib/AmortizationCalculator.js:178-187 | The rounded value is a whole number of cents. |
| Common.Round2Monotone | src/lib/AmortizationCalculator.js:178-187 | Display rounding never reverses the order of two values. |
| Common.Round2OfCents | src/lib/AmortizationCalculator.js:178-187 | A whole number of cents is left unchanged by display rounding. |
| Common.Pow | src/lib/AmortizationCalculator.js:28-31 | A whole-number power of a positive base, such as `(1 + r)^n`, is positive. Any power of 1 is 1. |
| Common.PowStrictlyIncreasing | src/lib/AmortizationCalculator.js:28-31 | For a base above 1, the power strictly grows with the exponent. So the payment formula's denominator `(1 + r)^n - 1` is positive. |
| Amortization.CalculateMonthlyPayment | src/lib/AmortizationCalculator.js:14-34 | Succeeds exactly when principal, rate and term are positive. Otherwise it fails with InvalidParameter. On success the result is within half a cent of the exact annuity payment. |
| Amortization.ExactMonthlyPayment | src/lib/AmortizationCalculator.js:25-31 | The unrounded annuity payment of positive terms is positive. |
| Amortization.AmortizationSchedule | src/lib/AmortizationCalculator.js:53-129 | Succeeds exactly on positive terms and fails with InvalidParameter otherwise. A schedule has n + 1 entries, where n is 12 times the term. |
| Amortization.Schedule | src/lib/AmortizationCalculator.js:76-128 | Has one entry per month plus an opening entry. Entry k is payment number k. The opening entry shows the rounded principal and zero amounts. |
| Amortization.NextAccrual | src/lib/AmortizationCalculator.js:94-113 | One month keeps balance plus principal repaid unchanged and adds the month's interest to the interest total. The last month leaves a zero balance. |
| Amortization.AccrualAfter | src/lib/AmortizationCalculator.js:77-113 | The running totals after all n months show a zero balance. |
| Amortization.ScheduleEntry | src/lib/AmortizationCalculator.js:91-123 | Entry k is payment number k. Every month but the last stores the regular payment rounded to cents. AmortizationProperties.EntryAmounts gives the entry's other amounts. |
| Amortization.OpeningEntry | src/lib/AmortizationCalculator.js:82-88 | The opening entry is payment 0 with zero payment and interest. Its balance is the principal to within half a cent. |
| Amortization.GenerateAmortizationSchedule | src/lib/AmortizationCalculator.js:53-129 | The schedule loop returns exactly AmortizationSchedule, its refusals included. |
| Amortization.EntryOfMonth | src/lib/AmortizationCalculator.js:91-123 | The amounts the loop computes in month k are the running totals after k months, and they form entry k. The last month pays off the exact remaining balance. |
| Amortization.ScheduleFromEntries | src/lib/AmortizationCalculator.js:76-128 | A list holding the opening entry and entry k at each index k is the schedule. |
| Amortization.CalculateLoanCosts | src/lib/AmortizationCalculator.js:138-175 | Succeeds exactly on positive terms and fails with InvalidParameter otherwise. On success it counts n + 1 payments and reports the rounded principal as the total principal. |
| AmortizationProperties.ExactPaymentIsAnnuity | src/lib/AmortizationCalculator.js:69-74 | The exact payment satisfies the annuity equation `pay * ((1+r)^n - 1) = P * r * (1+r)^n`. |
| AmortizationProperties.PaymentExceedsInterestOnPrincipal | src/lib/AmortizationCalculator.js:69-74 | The exact payment exceeds the first month's interest, so every regular payment repays some principal. |
| AmortizationProperties.AnnuityGrowth | src/lib/AmortizationCalculator.js:69-74 | Under the annuity equation, `(1 + r)^n` exceeds 1. |
| AmortizationProperties.BalancePlusPrincipalPaid | src/lib/AmortizationCalculator.js:110-113 | After any number of months, the remaining balance plus the principal repaid equals the loan. |
| AmortizationProperties.TotalInterestIsSumOfMonthlyInterest | src/lib/AmortizationCalculator.js:94-111 | The running interest total is the sum of each month's interest. |
| AmortizationProperties.PaymentsSplitIntoInterestAndPrincipal | src/lib/AmortizationCalculator.js:97-113 | The payments made so far equal the interest plus the principal paid so far. |
| AmortizationProperties.RegularBalanceClosedForm | src/lib/AmortizationCalculator.js:104-113 | After k regular months, the balance is `P * ((1+r)^n - (1+r)^k) / ((1+r)^n - 1)`. |
| AmortizationProperties.AccrualBalanceIsRegular | src/lib/AmortizationCalculator.js:91-113 | Before the last month, the loop's balance is the regular-payment balance. |
| AmortizationProperties.LastPaymentIsRegular | src/lib/AmortizationCalculator.js:100-103 | In exact arithmetic, the forced last payment (balance plus interest) equals the regular payment. |
| AmortizationProperties.EveryPaymentIsRegular | src/lib/AmortizationCalculator.js:100-108 | Every month's payment, the last one included, is the exact annuity payment. |
| AmortizationProperties.PaymentsMadeAreRegular | src/lib/AmortizationCalculator.js:100-113 | The payments made in k months are k regular payments. |
| AmortizationProperties.BalancePositiveBeforePayoff | src/lib/AmortizationCalculator.js:91-113 | The balance stays strictly positive before the last month. |
| AmortizationProperties.BalanceStrictlyDecreases | src/lib/AmortizationCalculator.js:91-113 | Every month strictly lowers the balance. |
| AmortizationProperties.BalanceNonIncreasing | src/lib/AmortizationCalculator.js:91-113 | The balance never rises from one month to a later one. |
| AmortizationProperties.TotalsAtPayoff | src/lib/AmortizationCalculator.js:91-113 | At payoff the balance is zero and all principal is repaid. The interest paid is n regular payments less the principal. |
| AmortizationProperties.ScheduleEndsAtZero | src/lib/AmortizationCalculator.js:100-122 | The last stored entry shows a balance of exactly zero. |
| AmortizationProperties.ScheduleBalanceAt | src/lib/AmortizationCalculator.js:113-122 | Entry k's balance is the rounded running balance after k months. |
| AmortizationProperties.EntryAmounts | src/lib/AmortizationCalculator.js:91-123 | For any rate and payment, entry k stores month k. Its interest is the interest on the balance carried into the month. Its principal is the fall of the balance, and its payment is the two together. Its interest total is the sum of the monthly interest of months 1..k. Each amount is rounded to cents only as it is stored. |
| AmortizationProperties.ScheduleEntryAt | src/lib/AmortizationCalculator.js:82-125 | Entry k of the generated schedule is month k's entry. |
| AmortizationProperties.ScheduleEntryAmounts | src/lib/AmortizationCalculator.js:91-123 | Entry k of the generated schedule stores month k, with the amounts EntryAmounts states. |
| AmortizationProperties.ScheduleBalancesNonIncreasing | src/lib/AmortizationCalculator.js:113-125 | The stored balances never rise from one entry to a later one. |
| AmortizationProperties.SchedulePaymentsMatchMonthlyPayment | src/lib/AmortizationCalculator.js:100-118 | Every stored payment, the last one included, equals what CalculateMonthlyPayment reports. |
| AmortizationProperties.ScheduleTotalInterest | src/lib/AmortizationCalculator.js:111-121 | The last entry's interest total is n exact payments less the principal, rounded. |
| AmortizationProperties.ManyPayments | src/lib/AmortizationCalculator.js:164-165 | n - 1 monthly payments plus a final payment of the same amount cost n payments. |
| AmortizationProperties.LoanCostsOfLastEntry | src/lib/AmortizationCalculator.js:151-174 | The summary is read off the schedule's last entry and the rounded monthly payment. |
| AmortizationProperties.LoanCostsSummary | src/lib/AmortizationCalculator.js:138-175 | The final payment equals the monthly payment. The summary counts n + 1 entries. Total interest is n exact payments less the principal. Total cost is n monthly payments. |
| Houses.NewHouse | src/lib/House.js:4-31 | A house is built exactly when its loan (price less down payment) and its rate and term are positive. Otherwise construction fails with InvalidParameter. |
| Houses.LoanAmountFor | src/lib/House.js:21 | The loan plus the down payment is the price. |
| Houses.NewHouseIsValid | src/lib/House.js:4-31 | A new house is valid: its schedule amortizes its loan, its latest loan is the purchase, and its refinance log is empty. |
| Houses.FullDownPaymentIsRefused | src/lib/House.js:21-27 | A down payment of 100 percent or more leaves no loan, and construction is refused. |
| Houses.House.constructor | src/lib/House.js:4-31 | The object's state is the house NewHouse builds. |
| Houses.House.Create | src/lib/House.js:4-31 | Creates a fresh house exactly when NewHouse succeeds, with its state. Otherwise it returns the same error. |
| Houses.CurrentHomeValue | src/lib/House.js:33-39 | In the purchase month the value is the price. A positive price gives a positive value. |
| Houses.ValueSinceLatestLoan | src/lib/House.js:61-64 | The value the payout and the refinance use is the price in the month of the latest loan, and positive for a positive price. While the house has not been refinanced it is the value since purchase. |
| Houses.BalanceAt | src/lib/House.js:66-67 | A schedule lookup succeeds exactly within the schedule and returns that entry's balance. Otherwise it fails with ScheduleLookupOutOfRange. |
| Houses.PossibleRefinancePayout | src/lib/House.js:57-71 | Fails with IllegalOperation exactly in the month of the latest loan. Otherwise it succeeds exactly inside the schedule. The payout plus the refinance cost plus the balance owed is 75 percent of the value. |
| Houses.CurrentEquity | src/lib/House.js:41-49 | As written: the ownership percentage (down payment plus share repaid, times 100) multiplied by the value. |
| Houses.Equity | src/lib/House.js:41-49 | Corrected: the value less the balance owed. It succeeds exactly inside the schedule. |
| Houses.EquityAsWrittenOverstates | src/lib/House.js:45-47 | Shows a house of 100000 with 25 percent down at 5 percent, on any term, for which the written formula reports 2500000 in the purchase month. The equity is 25000. |
| Houses.RefinanceRefusesLowDownPayment | src/lib/House.js:74-76 | A down payment below 25 percent, and only that, is refused with DownPaymentTooLow. The house is left unchanged. |
| Houses.Refinance | src/lib/House.js:73-111 | A refusal for the down payment or the schedule lookup leaves the house as it was. A refusal of the new terms leaves the new latest-loan month written, with the old schedule and log. |
| Houses.RefinanceOutcome | src/lib/House.js:89-110 | Once the payout is known and the new loan fields written, the refinance ends with the new schedule's refusal, or with the new schedule and a log entry holding the payout. |
| Houses.RefinancePaysPossiblePayout | src/lib/House.js:78-87 | Outside the latest loan's month, with acceptable terms, the refinance returns exactly what the payout query reports. |
| Houses.RefinanceSucceeds | src/lib/House.js:73-111 | A valid house refinances exactly when all of these hold: the down payment is at least 25 percent, the month lies within its schedule, and the new rate and term are positive. |
| Houses.RefinanceReplacesLoan | src/lib/House.js:89-103 | After success the loan is 75 percent of the value, on the new terms, amortized afresh from this month. The log gains one entry holding the payout. |
| Houses.RefinanceKeepsIdentity | src/lib/House.js:89-103 | Whatever the outcome, the purchase data, the cost and the id stay. Earlier log entries are kept, and one entry is added exactly on success. |
| Houses.RefinancePreservesValid | src/lib/House.js:89-103 | A successful refinance keeps a house valid. |
| Houses.RefinanceRestartsSchedule | src/lib/House.js:90-99 | Right after a refinance the payout query refuses the month. The balance owed is the new loan, rounded. |
| Houses.House.DoARefinance | src/lib/House.js:73-111 | The method's result and the object's new state are exactly what Refinance gives for the old state, partial writes on refusal included. |
| BizLogic.InitialHomes | src/lib/BizLogic.js:55-58 | The starting houses are that many houses bought in month 0 on the market terms, with ids 0, 1, and so on. |
| BizLogic.CostToGetIn | src/lib/BizLogic.js:51 | Getting into a house costs its down payment plus 7 percent of its price. |
| BizLogic.Top | src/lib/BizLogic.js:51-52 | The money put in is the cost of getting into one house at the base price, times the number of starting houses. |
| BizLogic.PurchasedHouse | src/lib/BizLogic.js:67 | A purchase succeeds exactly when the market terms give a valid loan, whatever the month and id. The new house is bought in that month at the base price, with that id and an empty refinance log. |
| BizLogic.VisitHome | src/lib/BizLogic.js:63-70 | In the last 24 months a visit changes nothing. In a buying month, a house whose latest loan is from this month is refused with IllegalOperation. A visit buys at most one house. |
| BizLogic.BuyInitialHomes | src/lib/BizLogic.js:55-58 | The purchase loop builds fresh, distinct objects whose states are InitialHomes. Otherwise it fails with its error. |
| BizLogic.VisitFrom | src/lib/BizLogic.js:62-71 | Visiting the rest of a month never changes the number of houses in the portfolio. |
| BizLogic.ProcessMonth | src/lib/BizLogic.js:60-73 | A month never shrinks the portfolio. |
| BizLogic.GrowthFrom | src/lib/BizLogic.js:60-73 | The rest of the growth phase never shrinks the portfolio. |
| BizLogic.Growth | src/lib/BizLogic.js:55-73 | The grown portfolio holds at least the starting houses. |
| BizLogic.VisitHouse | src/lib/BizLogic.js:63-70 | The body of the month loop for one house leaves the house as VisitHome specifies, and returns the house it buys. |
| BizLogic.VisitNext | src/lib/BizLogic.js:62-71 | One step of the month loop advances the specification by one house, and the purchases keep their order. |
| BizLogic.VisitAll | src/lib/BizLogic.js:61-71 | The month loop over the houses yields exactly the month specification's houses and purchases. |
| BizLogic.GrowOneMonth | src/lib/BizLogic.js:61-72 | One month updates the houses in place and appends the fresh purchases, as ProcessMonth specifies. |
| BizLogic.GrowPortfolio | src/lib/BizLogic.js:55-73 | The growth phase ends with houses whose states are Growth, or with Growth's error. |
| BizLogic.TotalsFrom | src/lib/BizLogic.js:81-85 | Summing from any house on keeps equity plus debt minus value unchanged. TotalsFromSums gives what is added. |
| BizLogic.ValueSum | src/lib/BizLogic.js:81-82 | The portfolio's value adds up every house's current value. It is positive for a non-empty portfolio of houses with positive prices. |
| BizLogic.TotalsFromSums | src/lib/BizLogic.js:81-85 | From house k on, the loop adds exactly the current value of every remaining house (ValueSum) and its remaining balance for the month (DebtSum). Every one of those houses has a schedule entry for the month. |
| BizLogic.TotalsDefinedIff | src/lib/BizLogic.js:81-85 | The sums exist exactly when every house's schedule covers the withdrawal month. Otherwise the lookup fails with ScheduleLookupOutOfRange. |
| BizLogic.TotalsOf | src/lib/BizLogic.js:77-85 | Total equity plus total debt equals the portfolio's value. TotalsOfSums ties the totals to the houses. |
| BizLogic.TotalsOfSums | src/lib/BizLogic.js:77-85 | The totals exist exactly when every house has a schedule entry for the month. Otherwise they fail with ScheduleLookupOutOfRange. The value is the sum of the houses' values and the debt the sum of their balances. The equity is the value minus the debt. |
| BizLogic.SumTotals | src/lib/BizLogic.js:77-85 | The withdrawal loop returns exactly TotalsOf. |
| BizLogic.IncomeSpec | src/lib/BizLogic.js:40-100 | A run reports the money put in for the starting houses, withdrawal from month 12·growthYears, and the year growthYears. Equity plus debt equals the value. Twelve months of income are 75 percent of one year's appreciation of the portfolio. IncomeOutcome gives the portfolio. |
| BizLogic.IncomeOutcome | src/lib/BizLogic.js:40-100 | A run succeeds exactly when the growth phase does and every grown house has a schedule entry for month 12·growthYears. It then returns the grown houses. Its value and debt are the sums of their values and balances in that month. |
| BizLogic.YearlyIncome | src/lib/BizLogic.js:86 | For a positive portfolio and appreciation, the yearly income is positive and less than one year's appreciation. |
| BizLogic.IncomeFromHomeCountAndYears | src/lib/BizLogic.js:40-100 | The run returns exactly IncomeSpec, its houses read as states, or the same error. |
| BizLogic.SearchStep | src/lib/BizLogic.js:106-113 | Trying count i stops at a failure or at an income above the target. Otherwise the search goes on to i + 1. |
| BizLogic.InflationAdjusted | src/lib/BizLogic.js:103 | With no years or no inflation, the target is the desired income. |
| BizLogic.SearchFrom | src/lib/BizLogic.js:106-119 | A count found from i on is between i and 99, comes with the target, and its run's income beats the target. |
| BizLogic.RequirementSpec | src/lib/BizLogic.js:102-121 | A found count is between 1 and 99, carries the inflation-adjusted target, and its run's income beats that target. |
| BizLogic.TryHomeCount | src/lib/BizLogic.js:107-113 | One iteration of the search either decides the outcome or leaves it to the next count. |
| BizLogic.PropertyRequirementCalculation | src/lib/BizLogic.js:102-121 | The search returns exactly RequirementSpec, its houses read as states. |
| BizLogicProperties.VisitOutcome | src/lib/BizLogic.js:62-70 | A successful visit refinances the house and buys house `nextId` exactly when the refinance is due. Otherwise it leaves the house alone. |
| BizLogicProperties.LowDownPaymentAborts | src/lib/BizLogic.js:64-66 | A due refinance with a down payment under 25 percent aborts the run with DownPaymentTooLow. |
| BizLogicProperties.VisitNeverIllegal | src/lib/BizLogic.js:63-66 | A house whose latest loan is not from this month is never refused with IllegalOperation. |
| BizLogicProperties.VisitFromNext | src/lib/BizLogic.js:62-71 | A month that succeeds from house j on first succeeds in visiting house j. |
| BizLogicProperties.VisitFromHomes | src/lib/BizLogic.js:62-71 | The rest of a month leaves earlier houses alone and treats each later house as VisitedAs says. |
| BizLogicProperties.VisitFromPurchaseCount | src/lib/BizLogic.js:61-72 | A month buys one house per due refinance and keeps earlier purchases. |
| BizLogicProperties.VisitFromPurchaseIds | src/lib/BizLogic.js:67 | The k-th purchase of a month is a new house of this month, with id equal to the portfolio size plus k. |
| BizLogicProperties.ProcessMonthOutcome | src/lib/BizLogic.js:60-73 | After a month the portfolio holds one more house per due refinance. Old houses are refinanced exactly when due. New houses are appended, bought this month, with their index as id. |
| BizLogicProperties.FrozenMonth | src/lib/BizLogic.js:64 | In the last 24 months, visiting houses changes nothing. |
| BizLogicProperties.FrozenProcessMonth | src/lib/BizLogic.js:60-73 | In the last 24 months, a month leaves the portfolio as it was. |
| BizLogicProperties.FrozenGrowth | src/lib/BizLogic.js:60-73 | Once purchases freeze, the rest of the growth phase changes nothing. |
| BizLogicProperties.VisitFromNeverIllegal | src/lib/BizLogic.js:62-71 | A month whose houses all took their latest loan earlier never fails with IllegalOperation. |
| BizLogicProperties.MonthKeepsInvariants | src/lib/BizLogic.js:61-72 | A month keeps ids equal to indices, never shrinks the portfolio, and leaves every loan in or before that month. |
| BizLogicProperties.GrowthFromInvariants | src/lib/BizLogic.js:60-73 | From any month on: ids stay indices, the portfolio never shrinks, and IllegalOperation never stops the run. |
| BizLogicProperties.GrowthInvariants | src/lib/BizLogic.js:55-73 | The whole growth phase keeps ids equal to indices and holds at least the starting houses. IllegalOperation never stops it. |
| BizLogicProperties.IncomeFailsWithGrowth | src/lib/BizLogic.js:40-100 | A growth failure, a refused refinance included, aborts the run with the same error. |
| BizLogicProperties.SearchFromFound | src/lib/BizLogic.js:106-113 | A found count is the first from i on whose run beats the target. It carries that run and the target. |
| BizLogicProperties.AllBelowIsUnachievable | src/lib/BizLogic.js:106-119 | When every run from i to 99 succeeds below the target, the search reports the income unachievable. |
| BizLogicProperties.UnachievableIsAllBelow | src/lib/BizLogic.js:106-119 | The search reports unachievable only when every run from i to 99 succeeds below the target. |
| BizLogicProperties.SearchFromFails | src/lib/BizLogic.js:106-108 | A failed search fails with the error of its first failed run, all earlier runs having fallen short. |
| BizLogicProperties.RequirementIsFirst | src/lib/BizLogic.js:102-113 | A found starting count is the smallest from 1 to 99 whose run beats the inflation-adjusted target. It carries that run and target. |
| BizLogicProperties.RequirementUnachievable | src/lib/BizLogic.js:102-119 | The income is reported unachievable exactly when every count from 1 to 99 runs and falls short. |
| BizLogicProperties.RequirementFails | src/lib/BizLogic.js:102-108 | A failed search carries the error of the first run that failed, all earlier runs having fallen short. |
| BizLogicProperties.InflationRaisesTarget | src/lib/BizLogic.js:103 | With positive inflation over at least a year, the target exceeds the desired income. |
| Simulation.WithMonth | src/lib/Simulation.js:19-23 | Selects houses of month m only, never more than the input holds. |
| Simulation.Without | src/lib/Simulation.js:24 | The filter keeps only houses not of month m, never more than the input holds. |
| Simulation.Pending | src/lib/Simulation.js:17-24 | The houses still waiting when a month begins were bought in none of the earlier months. |
| Simulation.Window | src/lib/Simulation.js:17 | The houses within the projection are bought in months 0 to the last month. |
| Simulation.AdmitMonth | src/lib/Simulation.js:19-23 | One pass appends this month's waiting houses, in their order. |
| Simulation.PendingWithMonth | src/lib/Simulation.js:19-23 | Among the waiting houses, those of this month are the starting houses of this month. |
| Simulation.PendingWithout | src/lib/Simulation.js:24 | Dropping this month's houses from the waiting list leaves the houses waiting for the next month. |
| Simulation.AdmittedFrom | src/lib/Simulation.js:17-25 | The houses admitted from month `month` to `last` were all bought within those months. |
| Simulation.RunSimulation | src/lib/Simulation.js:14-26 | The admission loop builds exactly the houses of months 0 to 12 times the projection years, month by month. |
| Simulation.AdmittedByMonth | src/lib/Simulation.js:17-24 | The admitted houses of month m are the starting houses of month m when m is in the projection, and none otherwise. |
| Simulation.AdmittedInOrder | src/lib/Simulation.js:17-23 | Admitted houses lie within the projection, in ascending month of purchase. |
| Simulation.AdmittedIsWindow | src/lib/Simulation.js:17-24 | Counting repeats, the admitted houses are exactly the starting houses bought within the projection. |
| Simulation.Admission | src/lib/Simulation.js:14-26 | Every starting house of the projection is admitted exactly once, and nothing else. Admission is in ascending month, with ties in input order. |

## Left out

- Floating point: amounts are exact reals. Binary rounding error is not modelled, and neither is the string-based `roundDisplay`, which becomes exact half-up rounding to cents.
- Fractional powers: `Math.pow(1 + a/100, months/12)` is the `GrowthCurve` parameter, constrained only to keep a positive price positive and to equal the price at zero months. The positivity constraint is stronger than the real curve for an appreciation at or below -100 percent. There the JavaScript code's value is 0 or not a number, and a refinance would then be refused for a loan of 0.
- Type checks: the `typeof` guards and the `Number()` casts are not modelled. Arguments are typed, so a non-number cannot reach the model.
- Missing arguments: `roundDisplay`'s refusal of undefined, null and NaN is not modelled. Values are typed reals, so those inputs cannot occur.
- Non-whole months and terms: month counts and loan terms are integers, so a fractional `monthOfPurchase` or term is not modelled.
- `refinanceSpillOver`: the growth loop accumulates it but never reads it, so the model drops it.
- UI and test code: the currency formatter (`formatCurrency`), the logging, the user-interface components and the test harness are not part of this model.
- Simulation.RunSimulation: the JavaScript code returns nothing. The model returns the list its loop builds, so that the contract can state what the loop computes.
- Simulation.RunSimulation: the JavaScript code rebinds its parameter to a filtered copy, so the caller's array is never changed. The model works on sequences, which are values.
- BizLogic.PropertyRequirementCalculation: the number of years is a natural number, because `Math.pow` with a fractional or negative exponent is not modelled.
- Houses.CurrentEquity: requires a non-zero loan amount. The JavaScript code would produce an infinite or undefined number there. Every house the constructor or a refinance builds has a positive loan.
- Houses.House: the getters are modelled as functions of the house's state (`State()`), not as methods of the class. The object used by the JavaScript code only to generate schedules is the pure amortization model here.

## Findings

| source | as written | input that shows it | evidently intended | confidence | as-written member | corrected member |
|---|---|---|---|---|---|---|
| src/lib/House.js:45-47 | The equity is an ownership percentage (0 to 100) multiplied by the home value, which is 100 times the currency amount. | A house priced at 100000 with 25 percent down at 5 percent, on any term, asked in its purchase month: it reports 2500000. | Equity in currency, meaning the value less the balance owed: 25000 here. The withdrawal loop at src/lib/BizLogic.js:83 computes it this way. | not executed | Houses.CurrentEquity, Houses.EquityAsWrittenOverstates | Houses.Equity |
