/** The growth simulation: a portfolio that starts with identical houses,
    refinances every house whose payout can fund another purchase and buys
    that house, then turns the grown portfolio into a monthly income; and the
    search for the number of starting houses that reaches an income target. */
module BizLogic {
  import opened Common
  import opened Amortization
  import opened Houses

  datatype MarketConditions = MarketConditions(
    initialHomePrice: real,
    percentAnnualHomeAppreciation: real,
    percentDownPayment: real,
    percentAnnualInterestRate: real,
    loanTermYears: int,
    refinanceCost: real,
    inflationRate: real)

  /** What a purchase costs as a fraction of the price: the down payment
      plus 7 percent of closing costs. */
  function FractionOfHomePriceToGetIn(mc: MarketConditions): real
  {
    (mc.percentDownPayment + 7.0) / 100.0
  }

  /** What getting into another house costs, at a given house price. */
  function CostToGetIn(mc: MarketConditions, homePrice: real): (cost: real)
    ensures cost == homePrice * mc.percentDownPayment / 100.0 + homePrice * 7.0 / 100.0
  {
    homePrice * FractionOfHomePriceToGetIn(mc)
  }

  /** The money put in to buy the starting houses. */
  function Top(mc: MarketConditions, initialHomeCount: int): (top: real)
    ensures top == CostToGetIn(mc, mc.initialHomePrice) * initialHomeCount as real
  {
    mc.initialHomePrice * FractionOfHomePriceToGetIn(mc) * initialHomeCount as real
  }

  /** Purchases stop in the last 24 months before the withdrawal starts. */
  predicate Buying(growthYears: int, month: int)
  {
    growthYears * 12 - month > 24
  }

  /** Every house of the run is bought at the base price on the market terms. */
  function PurchasedHouse(mc: MarketConditions, month: int, id: int): (res: Result<HouseState>)
    ensures res.Ok? <==> ValidTerms(LoanAmountFor(mc.initialHomePrice, mc.percentDownPayment),
                                    mc.percentAnnualInterestRate, mc.loanTermYears)
    ensures res.Ok? ==> res.value.monthOfPurchase == month && res.value.monthOfLatestMortgageOrRefinance == month
                        && res.value.id == id && res.value.initialHomePrice == mc.initialHomePrice
                        && res.value.refinanceSchedule == []
  {
    NewHouse(month, mc.initialHomePrice, mc.percentAnnualHomeAppreciation, mc.percentDownPayment,
             mc.percentAnnualInterestRate, mc.loanTermYears, mc.refinanceCost, id)
  }

  /** The starting houses, bought in month 0 with ids 0, 1, …; all of them are
      built on the same terms, so either all are accepted or the first fails. */
  function InitialHomes(mc: MarketConditions, initialHomeCount: int): (res: Result<seq<HouseState>>)
    ensures res.Ok? ==> |res.value| == (if initialHomeCount > 0 then initialHomeCount else 0)
    ensures res.Ok? ==> forall i :: 0 <= i < |res.value| ==>
                          PurchasedHouse(mc, 0, i).Ok? && res.value[i] == PurchasedHouse(mc, 0, i).value
  {
    if initialHomeCount <= 0 then Ok([])
    else if PurchasedHouse(mc, 0, 0).Err? then Err(PurchasedHouse(mc, 0, 0).error)
    else Ok(seq(initialHomeCount, i requires 0 <= i < initialHomeCount => PurchasedHouse(mc, 0, i).value))
  }

  /** What visiting one house in one month yields: the house, and the house
      bought with its payout, if any. */
  datatype Visit = Visit(home: HouseState, bought: seq<HouseState>)

  /** One house in one month: outside the freeze window, a payout that
      exceeds the cost of getting into another house at this house's value
      triggers a refinance and a purchase with id `nextId`. */
  function VisitHome(mc: MarketConditions, grow: GrowthCurve, growthYears: int, month: int,
                     h: HouseState, nextId: int): (res: Result<Visit>)
    ensures !Buying(growthYears, month) ==> res == Ok(Visit(h, []))
    ensures Buying(growthYears, month) && month == h.monthOfLatestMortgageOrRefinance ==> res == Err(IllegalOperation)
    ensures res.Ok? ==> |res.value.bought| <= 1
  {
    var currentHomePrice := CurrentHomeValue(h, grow, month);
    if !Buying(growthYears, month) then Ok(Visit(h, []))
    else
      match PossibleRefinancePayout(h, grow, month)
      case Err(e) => Err(e)
      case Ok(payout) =>
        if !(payout > CostToGetIn(mc, currentHomePrice)) then Ok(Visit(h, []))
        else
          var r := Refinance(h, grow, month, mc.percentAnnualInterestRate, mc.percentDownPayment, mc.loanTermYears);
          if r.result.Err? then Err(r.result.error)
          else
            match PurchasedHouse(mc, month, nextId)
            case Err(e) => Err(e)
            case Ok(bought) => Ok(Visit(r.after, [bought]))
  }

  /** The houses and this month's purchases part-way through a month. */
  datatype MonthState = MonthState(homes: seq<HouseState>, added: seq<HouseState>)

  /** The month after the visit of house j: its new state recorded, its
      purchases appended. */
  function Advance(st: MonthState, j: int, v: Visit): MonthState
    requires 0 <= j < |st.homes|
  {
    MonthState(st.homes[j := v.home], st.added + v.bought)
  }

  /** The rest of month `month` from house j on, given the month so far; the
      houses bought are held apart and numbered after all the houses of the
      portfolio. */
  function VisitFrom(mc: MarketConditions, grow: GrowthCurve, growthYears: int, month: int,
                     st: MonthState, j: nat): (res: Result<MonthState>)
    requires j <= |st.homes|
    ensures res.Ok? ==> |res.value.homes| == |st.homes|
    decreases |st.homes| - j
  {
    if j == |st.homes| then Ok(st)
    else
      match VisitHome(mc, grow, growthYears, month, st.homes[j], |st.homes| + |st.added|)
      case Err(e) => Err(e)
      case Ok(v) => VisitFrom(mc, grow, growthYears, month, Advance(st, j, v), j + 1)
  }

  /** One month of growth: every house visited, then the purchases appended. */
  function ProcessMonth(mc: MarketConditions, grow: GrowthCurve, growthYears: int, month: int,
                        homes: seq<HouseState>): (res: Result<seq<HouseState>>)
    ensures res.Ok? ==> |homes| <= |res.value|
  {
    match VisitFrom(mc, grow, growthYears, month, MonthState(homes, []), 0)
    case Err(e) => Err(e)
    case Ok(st) => Ok(st.homes + st.added)
  }

  /** The growth phase from month `month` on, up to month growthYears * 12. */
  function GrowthFrom(mc: MarketConditions, grow: GrowthCurve, growthYears: int, month: int,
                      homes: seq<HouseState>): (res: Result<seq<HouseState>>)
    ensures res.Ok? ==> |homes| <= |res.value|
    decreases growthYears * 12 - month
  {
    if month > growthYears * 12 then Ok(homes)
    else
      match ProcessMonth(mc, grow, growthYears, month, homes)
      case Err(e) => Err(e)
      case Ok(next) => GrowthFrom(mc, grow, growthYears, month + 1, next)
  }

  /** The portfolio at the end of the growth phase. */
  function Growth(mc: MarketConditions, grow: GrowthCurve, initialHomeCount: int, growthYears: int)
    : (res: Result<seq<HouseState>>)
    ensures res.Ok? ==> initialHomeCount <= |res.value|
  {
    match InitialHomes(mc, initialHomeCount)
    case Err(e) => Err(e)
    case Ok(homes) => GrowthFrom(mc, grow, growthYears, 1, homes)
  }

  datatype Totals = Totals(totalPortfolioValue: real, totalEquity: real, totalDebt: real)

  /** Every house of the portfolio has an amortization entry for the month. */
  predicate Covers(homes: seq<HouseState>, month: int)
  {
    forall i :: 0 <= i < |homes| ==>
      0 <= month - homes[i].monthOfLatestMortgageOrRefinance < |homes[i].schedule|
  }

  /** What the houses of a portfolio are worth in a month, added up; a
      portfolio of houses with positive prices is worth something. */
  function ValueSum(homes: seq<HouseState>, grow: GrowthCurve, month: int): (total: real)
    ensures (forall i :: 0 <= i < |homes| ==> homes[i].initialHomePrice > 0.0) ==>
              (if homes == [] then total == 0.0 else total > 0.0)
  {
    if homes == [] then 0.0 else CurrentHomeValue(homes[0], grow, month) + ValueSum(homes[1..], grow, month)
  }

  /** What is still owed on the houses of a portfolio in a month, added up. */
  function DebtSum(homes: seq<HouseState>, month: int): real
    requires Covers(homes, month)
  {
    if homes == [] then 0.0
    else homes[0].schedule[month - homes[0].monthOfLatestMortgageOrRefinance].remainingBalance
         + DebtSum(homes[1..], month)
  }

  /** The withdrawal loop from house k on, with the sums so far: each house
      adds its value, its equity and its remaining balance. */
  function TotalsFrom(homes: seq<HouseState>, grow: GrowthCurve, month: int, k: nat, acc: Totals)
    : (res: Result<Totals>)
    requires k <= |homes|
    ensures res.Ok? ==> res.value.totalEquity + res.value.totalDebt - res.value.totalPortfolioValue
                        == acc.totalEquity + acc.totalDebt - acc.totalPortfolioValue
    decreases |homes| - k
  {
    if k == |homes| then Ok(acc)
    else
      var h := homes[k];
      match Equity(h, grow, month)
      case Err(e) => Err(e)
      case Ok(equity) =>
        var debt := BalanceAt(h.schedule, month - h.monthOfLatestMortgageOrRefinance).value;
        TotalsFrom(homes, grow, month, k + 1,
                   Totals(acc.totalPortfolioValue + CurrentHomeValue(h, grow, month),
                          acc.totalEquity + equity,
                          acc.totalDebt + debt))
  }

  /** The values, equities and balances of a portfolio in a month, summed. */
  function TotalsOf(homes: seq<HouseState>, grow: GrowthCurve, month: int): (res: Result<Totals>)
    ensures res.Ok? ==> res.value.totalEquity + res.value.totalDebt == res.value.totalPortfolioValue
  {
    TotalsFrom(homes, grow, month, 0, Totals(0.0, 0.0, 0.0))
  }

  /** From house k on, the withdrawal loop adds exactly the value and the
      balance of every remaining house, each of which has an entry for the
      month. */
  lemma {:induction false} TotalsFromSums(homes: seq<HouseState>, grow: GrowthCurve, month: int, k: nat, acc: Totals)
    requires k <= |homes|
    ensures var res := TotalsFrom(homes, grow, month, k, acc);
            res.Ok? ==> && Covers(homes[k..], month)
                        && res.value.totalPortfolioValue == acc.totalPortfolioValue + ValueSum(homes[k..], grow, month)
                        && res.value.totalDebt == acc.totalDebt + DebtSum(homes[k..], month)
    decreases |homes| - k
  {
    if k < |homes| {
      var h := homes[k];
      assert homes[k..][1..] == homes[k + 1..];
      if 0 <= month - h.monthOfLatestMortgageOrRefinance < |h.schedule| {
        var value := CurrentHomeValue(h, grow, month);
        var debt := h.schedule[month - h.monthOfLatestMortgageOrRefinance].remainingBalance;
        var next := Totals(acc.totalPortfolioValue + value, acc.totalEquity + (value - debt), acc.totalDebt + debt);
        TotalsFromStep(homes, grow, month, k, acc, value, debt, next);
        TotalsFromSums(homes, grow, month, k + 1, next);
      } else {
        TotalsFromStop(homes, grow, month, k, acc);
      }
    }
  }

  /** The totals exist exactly when every house has an entry for the month;
      then the value and the debt are the portfolio's, and the equity is
      their difference. */
  lemma TotalsOfSums(homes: seq<HouseState>, grow: GrowthCurve, month: int)
    ensures var res := TotalsOf(homes, grow, month);
            && (res.Ok? <==> Covers(homes, month))
            && (res.Err? ==> res.error == ScheduleLookupOutOfRange)
            && (res.Ok? ==> && res.value.totalPortfolioValue == ValueSum(homes, grow, month)
                            && res.value.totalDebt == DebtSum(homes, month)
                            && res.value.totalEquity == ValueSum(homes, grow, month) - DebtSum(homes, month))
  {
    TotalsDefinedIff(homes, grow, month, 0, Totals(0.0, 0.0, 0.0));
    TotalsFromSums(homes, grow, month, 0, Totals(0.0, 0.0, 0.0));
    assert homes[0..] == homes;
  }

  /** The withdrawal rule: a year's income is 75 percent of a year's
      appreciation of the whole portfolio. */
  function YearlyIncome(totalPortfolioValue: real, percentAnnualHomeAppreciation: real): (income: real)
    ensures totalPortfolioValue > 0.0 && percentAnnualHomeAppreciation > 0.0 ==>
              0.0 < income < totalPortfolioValue * (percentAnnualHomeAppreciation / 100.0)
  {
    totalPortfolioValue * (percentAnnualHomeAppreciation / 100.0) * 0.75
  }

  /** The result object of a run, over houses of type H. */
  datatype Income<H> = Income(
    top: real,
    monthWithdrawlStarts: int,
    totalPortfolioValue: real,
    totalEquity: real,
    totalDebt: real,
    yearlyIncome: real,
    monthlyIncome: real,
    homes: seq<H>,
    year: int)

  /** incomeFromHomeCountAndYears: the whole run; IncomeOutcome says what
      the portfolio in the result is. */
  function IncomeSpec(mc: MarketConditions, grow: GrowthCurve, initialHomeCount: int, growthYears: int)
    : (res: Result<Income<HouseState>>)
    ensures res.Ok? ==> res.value.monthWithdrawlStarts == growthYears * 12 && res.value.year == growthYears
    ensures res.Ok? ==> res.value.top == Top(mc, initialHomeCount)
    ensures res.Ok? ==> res.value.totalEquity + res.value.totalDebt == res.value.totalPortfolioValue
    ensures res.Ok? ==> res.value.monthlyIncome * 12.0
                        == res.value.totalPortfolioValue * (mc.percentAnnualHomeAppreciation / 100.0) * 0.75
  {
    match Growth(mc, grow, initialHomeCount, growthYears)
    case Err(e) => Err(e)
    case Ok(homes) =>
      var monthWithdrawlStarts := growthYears * 12;
      match TotalsOf(homes, grow, monthWithdrawlStarts)
      case Err(e) => Err(e)
      case Ok(t) =>
        var yearlyIncome := YearlyIncome(t.totalPortfolioValue, mc.percentAnnualHomeAppreciation);
        Ok(Income(Top(mc, initialHomeCount), monthWithdrawlStarts, t.totalPortfolioValue, t.totalEquity,
                  t.totalDebt, yearlyIncome, yearlyIncome / 12.0, homes, growthYears))
  }

  /** A run succeeds exactly when the growth phase does and every grown
      house has an entry for the withdrawal month; the result then carries
      the grown portfolio and that portfolio's value and debt in that month. */
  lemma IncomeOutcome(mc: MarketConditions, grow: GrowthCurve, initialHomeCount: int, growthYears: int)
    ensures var res := IncomeSpec(mc, grow, initialHomeCount, growthYears);
            var grown := Growth(mc, grow, initialHomeCount, growthYears);
            && (res.Ok? <==> grown.Ok? && Covers(grown.value, growthYears * 12))
            && (res.Ok? ==> && res.value.homes == grown.value
                            && res.value.totalPortfolioValue == ValueSum(grown.value, grow, growthYears * 12)
                            && res.value.totalDebt == DebtSum(grown.value, growthYears * 12))
  {
    var grown := Growth(mc, grow, initialHomeCount, growthYears);
    if grown.Ok? {
      TotalsOfSums(grown.value, grow, growthYears * 12);
    }
  }

  /** The income to beat after `years` of inflation. */
  function InflationAdjusted(desiredIncome: real, years: nat, inflationRate: real): (target: real)
    ensures years == 0 ==> target == desiredIncome
    ensures inflationRate == 0.0 ==> target == desiredIncome
  {
    desiredIncome * Pow(1.0 + inflationRate / 100.0, years)
  }

  /** What the search for a starting portfolio yields: the first run that
      beats the target, annotated with its starting count and the target, or
      the report that no count up to 99 does. */
  datatype Requirement<H> =
    | Found(result: Income<H>, initialHomeCount: int, inflationAdjustedDesiredIncome: real)
    | Unachievable

  /** The search from starting count i on, up to 99. */
  function SearchFrom(mc: MarketConditions, grow: GrowthCurve, years: nat, target: real, i: int)
    : (res: Result<Requirement<HouseState>>)
    requires 1 <= i <= 100
    ensures res.Ok? && res.value.Found? ==>
              i <= res.value.initialHomeCount < 100 && res.value.inflationAdjustedDesiredIncome == target
              && res.value.result.monthlyIncome > target
    decreases 100 - i
  {
    if i == 100 then Ok(Unachievable)
    else
      match IncomeSpec(mc, grow, i, years)
      case Err(e) => Err(e)
      case Ok(r) =>
        if r.monthlyIncome > target then Ok(Found(r, i, target))
        else SearchFrom(mc, grow, years, target, i + 1)
  }

  /** propertyRequirementCalculation: the search from one starting house on. */
  function RequirementSpec(desiredIncome: real, years: nat, mc: MarketConditions, grow: GrowthCurve)
    : (res: Result<Requirement<HouseState>>)
    ensures res.Ok? && res.value.Found? ==>
              1 <= res.value.initialHomeCount <= 99
              && res.value.inflationAdjustedDesiredIncome == InflationAdjusted(desiredIncome, years, mc.inflationRate)
              && res.value.result.monthlyIncome > res.value.inflationAdjustedDesiredIncome
  {
    SearchFrom(mc, grow, years, InflationAdjusted(desiredIncome, years, mc.inflationRate), 1)
  }

  /** One step of the search: the run with i starting houses decides it or
      passes it on to i + 1. */
  lemma SearchStep(mc: MarketConditions, grow: GrowthCurve, years: nat, target: real, i: int)
    requires 1 <= i < 100
    ensures var run := IncomeSpec(mc, grow, i, years);
            SearchFrom(mc, grow, years, target, i)
            == if run.Err? then Err(run.error)
               else if run.value.monthlyIncome > target then Ok(Found(run.value, i, target))
               else SearchFrom(mc, grow, years, target, i + 1)
  {
  }

  /** The totals exist exactly when every house from k on has a schedule
      entry for the month, and a missing entry is reported as a lookup out of
      range. */
  lemma {:induction false} TotalsDefinedIff(homes: seq<HouseState>, grow: GrowthCurve, month: int, k: nat,
                                            acc: Totals)
    requires k <= |homes|
    ensures TotalsFrom(homes, grow, month, k, acc).Ok? <==>
              forall i :: k <= i < |homes| ==>
                0 <= month - homes[i].monthOfLatestMortgageOrRefinance < |homes[i].schedule|
    ensures TotalsFrom(homes, grow, month, k, acc).Err? ==>
              TotalsFrom(homes, grow, month, k, acc).error == ScheduleLookupOutOfRange
    decreases |homes| - k
  {
    if k < |homes| {
      var h := homes[k];
      if 0 <= month - h.monthOfLatestMortgageOrRefinance < |h.schedule| {
        var value := CurrentHomeValue(h, grow, month);
        var debt := BalanceAt(h.schedule, month - h.monthOfLatestMortgageOrRefinance).value;
        TotalsDefinedIff(homes, grow, month, k + 1,
                         Totals(acc.totalPortfolioValue + value, acc.totalEquity + Equity(h, grow, month).value,
                                acc.totalDebt + debt));
      }
    }
  }

  // ---------------------------------------------------------------------
  // The run over House objects.

  /** The states of a list of houses. */
  function States(hs: seq<House>): (s: seq<HouseState>)
    reads hs
    ensures |s| == |hs|
    ensures forall i :: 0 <= i < |hs| ==> s[i] == hs[i].State()
  {
    seq(|hs|, i requires 0 <= i < |hs| reads hs => hs[i].State())
  }

  lemma StatesAppend(xs: seq<House>, ys: seq<House>)
    ensures States(xs + ys) == States(xs) + States(ys)
  {
    assert forall k :: 0 <= k < |xs + ys| ==> States(xs + ys)[k] == (States(xs) + States(ys))[k];
  }

  predicate Distinct(hs: seq<House>)
  {
    forall a, b :: 0 <= a < b < |hs| ==> hs[a] != hs[b]
  }

  lemma DistinctAppend(xs: seq<House>, ys: seq<House>)
    requires Distinct(xs) && |ys| <= 1
    requires forall y :: y in ys ==> y !in xs
    ensures Distinct(xs + ys)
  {
    var zs := xs + ys;
    forall a, b | 0 <= a < b < |zs|
      ensures zs[a] != zs[b]
    {
      if b >= |xs| {
        assert zs[b] in ys;
        assert zs[a] in xs;
      }
    }
  }

  /** A result object with each house replaced by its state. */
  function Snapshot(r: Income<House>): Income<HouseState>
    reads r.homes
  {
    Income(r.top, r.monthWithdrawlStarts, r.totalPortfolioValue, r.totalEquity, r.totalDebt,
           r.yearlyIncome, r.monthlyIncome, States(r.homes), r.year)
  }

  /** incomeFromHomeCountAndYears, proved against IncomeSpec. */
  method IncomeFromHomeCountAndYears(initialHomeCount: int, growthYears: int, mc: MarketConditions, grow: GrowthCurve)
    returns (res: Result<Income<House>>)
    ensures var spec := IncomeSpec(mc, grow, initialHomeCount, growthYears);
            (res.Ok? <==> spec.Ok?)
            && (res.Err? ==> res.error == spec.error)
            && (res.Ok? ==> Snapshot(res.value) == spec.value)
  {
    var top := Top(mc, initialHomeCount);
    var grown := GrowPortfolio(initialHomeCount, growthYears, mc, grow);
    if grown.Err? {
      return Err(grown.error);
    }
    var homes := grown.value;
    var monthWithdrawlStarts := growthYears * 12;
    var totals := SumTotals(homes, grow, monthWithdrawlStarts);
    if totals.Err? {
      return Err(totals.error);
    }
    var yearlyIncome := YearlyIncome(totals.value.totalPortfolioValue, mc.percentAnnualHomeAppreciation);
    var monthlyIncome := yearlyIncome / 12.0;
    res := Ok(Income(top, monthWithdrawlStarts, totals.value.totalPortfolioValue, totals.value.totalEquity,
                     totals.value.totalDebt, yearlyIncome, monthlyIncome, homes, growthYears));
    assert Snapshot(res.value).homes == States(homes);
  }

  /** A search outcome with each house replaced by its state. */
  function RequirementSnapshot(r: Result<Requirement<House>>): Result<Requirement<HouseState>>
    reads if r.Ok? && r.value.Found? then r.value.result.homes else []
  {
    match r
    case Err(e) => Err(e)
    case Ok(Found(result, count, target)) => Ok(Found(Snapshot(result), count, target))
    case Ok(Unachievable) => Ok(Unachievable)
  }

  /** propertyRequirementCalculation, proved against RequirementSpec. */
  method PropertyRequirementCalculation(desiredIncome: real, years: nat, mc: MarketConditions, grow: GrowthCurve)
    returns (res: Result<Requirement<House>>)
    ensures RequirementSnapshot(res) == RequirementSpec(desiredIncome, years, mc, grow)
  {
    var inflationAdjustedDesiredIncome := InflationAdjusted(desiredIncome, years, mc.inflationRate);
    var i := 1;
    while i < 100
      invariant 1 <= i <= 100
      invariant SearchFrom(mc, grow, years, inflationAdjustedDesiredIncome, i)
             == RequirementSpec(desiredIncome, years, mc, grow)
    {
      var decided, outcome := TryHomeCount(i, years, inflationAdjustedDesiredIncome, mc, grow);
      if decided {
        return outcome;
      }
      i := i + 1;
    }
    return Ok(Unachievable);
  }

  /** One pass of the search loop: the run with i starting houses, returned
      when it fails or beats the target. */
  method TryHomeCount(i: int, years: nat, target: real, mc: MarketConditions, grow: GrowthCurve)
    returns (decided: bool, res: Result<Requirement<House>>)
    requires 1 <= i < 100
    ensures decided ==> RequirementSnapshot(res) == SearchFrom(mc, grow, years, target, i)
    ensures !decided ==> SearchFrom(mc, grow, years, target, i) == SearchFrom(mc, grow, years, target, i + 1)
  {
    var result := IncomeFromHomeCountAndYears(i, years, mc, grow);
    SearchStep(mc, grow, years, target, i);
    if result.Err? {
      return true, Err(result.error);
    }
    var monthlyIncome := result.value.monthlyIncome;
    if monthlyIncome > target {
      return true, Ok(Found(result.value, i, target));
    }
    return false, Ok(Unachievable);
  }

  /** The initial purchase and the month loop of the growth phase. */
  method GrowPortfolio(initialHomeCount: int, growthYears: int, mc: MarketConditions, grow: GrowthCurve)
    returns (res: Result<seq<House>>)
    ensures var spec := Growth(mc, grow, initialHomeCount, growthYears);
            (res.Ok? <==> spec.Ok?)
            && (res.Err? ==> res.error == spec.error)
            && (res.Ok? ==> States(res.value) == spec.value
                            && forall k :: 0 <= k < |res.value| ==> fresh(res.value[k]))
  {
    var bought := BuyInitialHomes(initialHomeCount, mc);
    if bought.Err? {
      return Err(bought.error);
    }
    var homes := bought.value;
    ghost var current := States(homes);

    var month := 1;
    while month <= growthYears * 12
      invariant GrowthFrom(mc, grow, growthYears, month, current) == Growth(mc, grow, initialHomeCount, growthYears)
      invariant States(homes) == current
      invariant forall k :: 0 <= k < |homes| ==> fresh(homes[k])
      invariant Distinct(homes)
      decreases growthYears * 12 - month
    {
      var grown;
      ghost var added;
      grown, added := GrowOneMonth(homes, month, growthYears, mc, grow);
      if grown.Err? {
        return Err(grown.error);
      }
      homes := grown.value;
      current := States(homes);
      month := month + 1;
    }
    return Ok(homes);
  }

  /** The loop that buys the starting houses. */
  method BuyInitialHomes(initialHomeCount: int, mc: MarketConditions) returns (res: Result<seq<House>>)
    ensures var spec := InitialHomes(mc, initialHomeCount);
            (res.Ok? <==> spec.Ok?)
            && (res.Err? ==> res.error == spec.error)
            && (res.Ok? ==> States(res.value) == spec.value && Distinct(res.value)
                            && forall k :: 0 <= k < |res.value| ==> fresh(res.value[k]))
  {
    var homes: seq<House> := [];
    var i := 0;
    while i < initialHomeCount
      invariant 0 <= i && (initialHomeCount > 0 ==> i <= initialHomeCount) && (initialHomeCount <= 0 ==> i == 0)
      invariant |homes| == i
      invariant forall k :: 0 <= k < i ==> fresh(homes[k])
      invariant Distinct(homes)
      invariant forall k :: 0 <= k < i ==>
                  PurchasedHouse(mc, 0, k).Ok? && homes[k].State() == PurchasedHouse(mc, 0, k).value
    {
      var created := House.Create(0, mc.initialHomePrice, mc.percentAnnualHomeAppreciation, mc.percentDownPayment,
                                  mc.percentAnnualInterestRate, mc.loanTermYears, mc.refinanceCost, |homes|);
      if created.Err? {
        return Err(created.error);
      }
      homes := homes + [created.value];
      i := i + 1;
    }
    return Ok(homes);
  }

  /** One pass of the month loop over the houses, then the purchases appended. */
  method GrowOneMonth(homes: seq<House>, month: int, growthYears: int, mc: MarketConditions, grow: GrowthCurve)
    returns (res: Result<seq<House>>, ghost added: seq<House>)
    requires Distinct(homes)
    modifies homes
    ensures var spec := ProcessMonth(mc, grow, growthYears, month, old(States(homes)));
            (res.Ok? <==> spec.Ok?)
            && (res.Err? ==> res.error == spec.error)
            && (res.Ok? ==> States(res.value) == spec.value && Distinct(res.value)
                            && res.value == homes + added && forall k :: 0 <= k < |added| ==> fresh(added[k]))
  {
    var visited;
    ghost var st;
    ghost var start := States(homes);
    visited, st := VisitAll(homes, month, growthYears, mc, grow, start);
    if visited.Err? {
      return Err(visited.error), [];
    }
    var newHomesAddedThisMonth := visited.value;
    added := newHomesAddedThisMonth;
    MirrorsStates(homes, st.homes);
    MirrorsStates(newHomesAddedThisMonth, st.added);
    StatesAppend(homes, newHomesAddedThisMonth);
    DistinctConcat(homes, newHomesAddedThisMonth);
    res := Ok(homes + newHomesAddedThisMonth);
  }

  /** The houses of `hs` hold the states `ss`, one for one. */
  predicate Mirrors(hs: seq<House>, ss: seq<HouseState>)
    reads hs
  {
    |hs| == |ss| && forall k :: 0 <= k < |hs| ==> hs[k].State() == ss[k]
  }

  lemma MirrorsAppend(xs: seq<House>, ss: seq<HouseState>, ys: seq<House>, ts: seq<HouseState>)
    requires Mirrors(xs, ss) && Mirrors(ys, ts)
    ensures Mirrors(xs + ys, ss + ts)
  {
  }

  lemma MirrorsStates(hs: seq<House>, ss: seq<HouseState>)
    requires Mirrors(hs, ss)
    ensures States(hs) == ss
  {
  }

  /** No house of `xs` is a house of `ys`. */
  predicate Disjoint(xs: seq<House>, ys: seq<House>)
  {
    forall a, b :: 0 <= a < |xs| && 0 <= b < |ys| ==> xs[a] != ys[b]
  }

  lemma DistinctConcat(xs: seq<House>, ys: seq<House>)
    requires Distinct(xs) && Distinct(ys) && Disjoint(xs, ys)
    ensures Distinct(xs + ys)
  {
    var zs := xs + ys;
    forall a, b | 0 <= a < b < |zs|
      ensures zs[a] != zs[b]
    {
      if b >= |xs| {
        if a >= |xs| {
          assert zs[a] == ys[a - |xs|] && zs[b] == ys[b - |xs|];
        } else {
          assert zs[a] == xs[a] && zs[b] == ys[b - |xs|];
        }
      }
    }
  }

  /** The loop over the houses of one month: each visited in turn, the
      purchases collected apart. */
  method VisitAll(homes: seq<House>, month: int, growthYears: int, mc: MarketConditions, grow: GrowthCurve,
                  ghost start: seq<HouseState>)
    returns (res: Result<seq<House>>, ghost st: MonthState)
    requires Distinct(homes) && Mirrors(homes, start)
    modifies homes
    ensures res.Err? ==> VisitFrom(mc, grow, growthYears, month, MonthState(start, []), 0) == Err(res.error)
    ensures res.Ok? ==> VisitFrom(mc, grow, growthYears, month, MonthState(start, []), 0) == Ok(st)
                        && Mirrors(homes, st.homes) && Mirrors(res.value, st.added) && Distinct(res.value)
                        && Disjoint(homes, res.value)
                        && forall k :: 0 <= k < |res.value| ==> fresh(res.value[k])
  {
    var newHomesAddedThisMonth: seq<House> := [];
    st := MonthState(start, []);
    var j := 0;
    while j < |homes|
      invariant 0 <= j <= |homes| == |st.homes|
      invariant VisitFrom(mc, grow, growthYears, month, st, j)
                == VisitFrom(mc, grow, growthYears, month, MonthState(start, []), 0)
      invariant Mirrors(homes, st.homes) && Mirrors(newHomesAddedThisMonth, st.added)
      invariant Distinct(newHomesAddedThisMonth) && Disjoint(homes, newHomesAddedThisMonth)
      invariant forall k :: 0 <= k < |newHomesAddedThisMonth| ==> fresh(newHomesAddedThisMonth[k])
    {
      var visited;
      ghost var next, extra;
      visited, next, extra := VisitNext(homes, newHomesAddedThisMonth, j, month, growthYears, mc, grow, st);
      if visited.Err? {
        return Err(visited.error), st;
      }
      newHomesAddedThisMonth := visited.value;
      st := next;
      j := j + 1;
    }
    return Ok(newHomesAddedThisMonth), st;
  }

  /** A successful visit of house j hands the rest of the month on to house j + 1. */
  lemma VisitFromStep(mc: MarketConditions, grow: GrowthCurve, growthYears: int, month: int,
                      st: MonthState, j: nat, v: Visit)
    requires j < |st.homes|
    requires VisitHome(mc, grow, growthYears, month, st.homes[j], |st.homes| + |st.added|) == Ok(v)
    ensures VisitFrom(mc, grow, growthYears, month, st, j)
            == VisitFrom(mc, grow, growthYears, month, Advance(st, j, v), j + 1)
  {
  }

  /** One iteration of the month loop: house `j` visited and what it buys
      appended to the month's purchases. */
  method VisitNext(homes: seq<House>, added: seq<House>, j: int, month: int, growthYears: int,
                   mc: MarketConditions, grow: GrowthCurve, ghost st: MonthState)
    returns (res: Result<seq<House>>, ghost next: MonthState, ghost extra: seq<House>)
    requires Distinct(homes) && Distinct(added) && 0 <= j < |homes|
    requires Mirrors(homes, st.homes) && Mirrors(added, st.added)
    requires Disjoint(homes, added)
    modifies homes[j]
    ensures res.Err? ==> VisitFrom(mc, grow, growthYears, month, st, j) == Err(res.error)
    ensures res.Ok? ==>
              |next.homes| == |st.homes| && |added| <= |res.value|
              && VisitFrom(mc, grow, growthYears, month, st, j) == VisitFrom(mc, grow, growthYears, month, next, j + 1)
              && Mirrors(homes, next.homes) && Mirrors(res.value, next.added)
              && Distinct(res.value) && Disjoint(homes, res.value)
              && res.value == added + extra && (forall k :: 0 <= k < |extra| ==> fresh(extra[k]))
  {
    ghost var visit := VisitHome(mc, grow, growthYears, month, st.homes[j], |st.homes| + |st.added|);
    var visited := VisitHouse(homes[j], month, growthYears, mc, grow, |homes| + |added|, st.homes[j]);
    if visited.Err? {
      return Err(visited.error), st, [];
    }
    extra := visited.value;
    DistinctAppend(added, visited.value);
    MirrorsAppend(added, st.added, visited.value, visit.value.bought);
    next := Advance(st, j, visit.value);
    VisitFromStep(mc, grow, growthYears, month, st, j, visit.value);
    res := Ok(added + visited.value);
  }

  /** The body of the month loop for one house: the payout test, the
      refinance and the purchase it funds. */
  method VisitHouse(home: House, month: int, growthYears: int, mc: MarketConditions, grow: GrowthCurve, nextId: int,
                    ghost before: HouseState)
    returns (res: Result<seq<House>>)
    requires home.State() == before
    modifies home
    ensures var spec := VisitHome(mc, grow, growthYears, month, before, nextId);
            (res.Ok? <==> spec.Ok?)
            && (res.Err? ==> res.error == spec.error)
            && (res.Ok? ==> home.State() == spec.value.home && Mirrors(res.value, spec.value.bought)
                            && |res.value| <= 1 && forall k :: 0 <= k < |res.value| ==> fresh(res.value[k]))
  {
    var currentHomePrice := CurrentHomeValue(home.State(), grow, month);
    if growthYears * 12 - month > 24 {
      var payout := PossibleRefinancePayout(home.State(), grow, month);
      if payout.Err? {
        return Err(payout.error);
      }
      if payout.value > CostToGetIn(mc, currentHomePrice) {
        var refinanced := home.DoARefinance(grow, month, mc.percentAnnualInterestRate, mc.percentDownPayment,
                                            mc.loanTermYears);
        if refinanced.Err? {
          return Err(refinanced.error);
        }
        var created := House.Create(month, mc.initialHomePrice, mc.percentAnnualHomeAppreciation,
                                    mc.percentDownPayment, mc.percentAnnualInterestRate, mc.loanTermYears,
                                    mc.refinanceCost, nextId);
        if created.Err? {
          return Err(created.error);
        }
        return Ok([created.value]);
      }
    }
    return Ok([]);
  }

  /** The withdrawal loop: the portfolio's value, equity and debt summed. */
  method SumTotals(homes: seq<House>, grow: GrowthCurve, monthWithdrawlStarts: int) returns (res: Result<Totals>)
    ensures res == TotalsOf(States(homes), grow, monthWithdrawlStarts)
  {
    var totalPortfolioValue := 0.0;
    var totalEquity := 0.0;
    var totalDebt := 0.0;
    ghost var grown := States(homes);
    var k := 0;
    while k < |homes|
      invariant 0 <= k <= |homes|
      invariant TotalsFrom(grown, grow, monthWithdrawlStarts, k, Totals(totalPortfolioValue, totalEquity, totalDebt))
                == TotalsOf(grown, grow, monthWithdrawlStarts)
    {
      var home := homes[k];
      ghost var h := grown[k];
      assert home.State() == h;
      var value := CurrentHomeValue(home.State(), grow, monthWithdrawlStarts);
      var index := monthWithdrawlStarts - home.monthOfLatestMortgageOrRefinance;
      if index < 0 || index >= |home.schedule| {
        TotalsFromStop(grown, grow, monthWithdrawlStarts, k, Totals(totalPortfolioValue, totalEquity, totalDebt));
        return Err(ScheduleLookupOutOfRange);
      }
      var debt := home.schedule[index].remainingBalance;
      ghost var acc := Totals(totalPortfolioValue, totalEquity, totalDebt);
      totalPortfolioValue := totalPortfolioValue + value;
      totalEquity := totalEquity + (value - debt);
      totalDebt := totalDebt + debt;
      TotalsFromStep(grown, grow, monthWithdrawlStarts, k, acc, value, debt,
                     Totals(totalPortfolioValue, totalEquity, totalDebt));
      k := k + 1;
    }
    return Ok(Totals(totalPortfolioValue, totalEquity, totalDebt));
  }

  /** A house with an entry for the month adds its value, equity and debt. */
  lemma TotalsFromStep(homes: seq<HouseState>, grow: GrowthCurve, month: int, k: nat, acc: Totals,
                       value: real, debt: real, next: Totals)
    requires k < |homes|
    requires 0 <= month - homes[k].monthOfLatestMortgageOrRefinance < |homes[k].schedule|
    requires value == CurrentHomeValue(homes[k], grow, month)
    requires debt == homes[k].schedule[month - homes[k].monthOfLatestMortgageOrRefinance].remainingBalance
    requires next == Totals(acc.totalPortfolioValue + value, acc.totalEquity + (value - debt), acc.totalDebt + debt)
    ensures TotalsFrom(homes, grow, month, k, acc) == TotalsFrom(homes, grow, month, k + 1, next)
  {
  }

  /** A house without an entry for the month stops the totals. */
  lemma TotalsFromStop(homes: seq<HouseState>, grow: GrowthCurve, month: int, k: nat, acc: Totals)
    requires k < |homes|
    requires !(0 <= month - homes[k].monthOfLatestMortgageOrRefinance < |homes[k].schedule|)
    ensures TotalsFrom(homes, grow, month, k, acc) == Err(ScheduleLookupOutOfRange)
  {
  }
}
