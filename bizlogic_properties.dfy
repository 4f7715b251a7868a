/** What the growth simulation guarantees: which houses are refinanced and
    bought each month, how the portfolio grows, that ids stay the indices,
    that purchases freeze near the end, and which errors can stop a run. */
module BizLogicProperties {
  import opened Common
  import opened Amortization
  import opened Houses
  import opened BizLogic

  /** The month-loop test: outside the freeze window, the payout beats the
      cost of getting into another house at this house's current value. */
  predicate RefinanceDue(mc: MarketConditions, grow: GrowthCurve, growthYears: int, month: int, h: HouseState)
  {
    Buying(growthYears, month)
    && PossibleRefinancePayout(h, grow, month).Ok?
    && PossibleRefinancePayout(h, grow, month).value > CostToGetIn(mc, CurrentHomeValue(h, grow, month))
  }

  /** The house a due refinance leaves behind. */
  function RefinancedHouse(mc: MarketConditions, grow: GrowthCurve, month: int, h: HouseState): HouseState
  {
    Refinance(h, grow, month, mc.percentAnnualInterestRate, mc.percentDownPayment, mc.loanTermYears).after
  }

  /** The number of houses of a portfolio due for a refinance in a month. */
  function DueCount(mc: MarketConditions, grow: GrowthCurve, growthYears: int, month: int,
                    homes: seq<HouseState>): (count: nat)
    ensures count <= |homes|
  {
    if |homes| == 0 then 0
    else (if RefinanceDue(mc, grow, growthYears, month, homes[0]) then 1 else 0)
         + DueCount(mc, grow, growthYears, month, homes[1..])
  }

  /** How one visited house relates to the house the month found. */
  predicate VisitedAs(mc: MarketConditions, grow: GrowthCurve, growthYears: int, month: int,
                      h: HouseState, after: HouseState)
  {
    after.id == h.id && after.monthOfPurchase == h.monthOfPurchase
    && (!RefinanceDue(mc, grow, growthYears, month, h) ==> after == h)
    && (RefinanceDue(mc, grow, growthYears, month, h) ==>
          after == RefinancedHouse(mc, grow, month, h)
          && after.monthOfLatestMortgageOrRefinance == month
          && |after.refinanceSchedule| == |h.refinanceSchedule| + 1)
  }

  // ---------------------------------------------------------------------
  // One house in one month.

  /** A successful visit refinances the house and buys house `nextId` exactly
      when the refinance is due, and otherwise leaves the house alone. */
  lemma VisitOutcome(mc: MarketConditions, grow: GrowthCurve, growthYears: int, month: int,
                     h: HouseState, nextId: int, v: Visit)
    requires VisitHome(mc, grow, growthYears, month, h, nextId) == Ok(v)
    ensures VisitedAs(mc, grow, growthYears, month, h, v.home)
    ensures RefinanceDue(mc, grow, growthYears, month, h) ==>
              |v.bought| == 1 && PurchasedHouse(mc, month, nextId) == Ok(v.bought[0])
    ensures !RefinanceDue(mc, grow, growthYears, month, h) ==> v.bought == []
  {
    var rate, down, term := mc.percentAnnualInterestRate, mc.percentDownPayment, mc.loanTermYears;
    RefinanceKeepsIdentity(h, grow, month, rate, down, term);
    if RefinanceDue(mc, grow, growthYears, month, h) {
      RefinanceReplacesLoan(h, grow, month, rate, down, term);
    }
  }

  /** A refinance that is due with a down payment under 25 percent aborts
      the visit with DownPaymentTooLow. */
  lemma LowDownPaymentAborts(mc: MarketConditions, grow: GrowthCurve, growthYears: int, month: int,
                             h: HouseState, nextId: int)
    requires RefinanceDue(mc, grow, growthYears, month, h) && mc.percentDownPayment < 25.0
    ensures VisitHome(mc, grow, growthYears, month, h, nextId) == Err(DownPaymentTooLow)
  {
    RefinanceRefusesLowDownPayment(h, grow, month, mc.percentAnnualInterestRate, mc.percentDownPayment,
                                   mc.loanTermYears);
  }

  /** A visit of a house whose latest loan is not from this month never
      fails with the payout query's same-month refusal. */
  lemma VisitNeverIllegal(mc: MarketConditions, grow: GrowthCurve, growthYears: int, month: int,
                          h: HouseState, nextId: int)
    requires h.monthOfLatestMortgageOrRefinance != month
    ensures VisitHome(mc, grow, growthYears, month, h, nextId) != Err(IllegalOperation)
  {
    var r := Refinance(h, grow, month, mc.percentAnnualInterestRate, mc.percentDownPayment, mc.loanTermYears);
    assert r.result.Err? ==> r.result.error != IllegalOperation;
  }

  // ---------------------------------------------------------------------
  // One month.

  /** A month that succeeds from house j on succeeds in visiting house j
      and then from house j + 1 on. */
  lemma VisitFromNext(mc: MarketConditions, grow: GrowthCurve, growthYears: int, month: int,
                      st: MonthState, j: nat, fin: MonthState) returns (v: Visit)
    requires j < |st.homes|
    requires VisitFrom(mc, grow, growthYears, month, st, j) == Ok(fin)
    ensures VisitHome(mc, grow, growthYears, month, st.homes[j], |st.homes| + |st.added|) == Ok(v)
    ensures VisitFrom(mc, grow, growthYears, month, Advance(st, j, v), j + 1) == Ok(fin)
  {
    v := VisitHome(mc, grow, growthYears, month, st.homes[j], |st.homes| + |st.added|).value;
  }

  /** The rest of a month from house j on leaves the earlier houses alone
      and visits every later house as the month found it. */
  lemma {:induction false} VisitFromHomes(mc: MarketConditions, grow: GrowthCurve, growthYears: int, month: int,
                                          st: MonthState, j: nat, fin: MonthState)
    requires j <= |st.homes|
    requires VisitFrom(mc, grow, growthYears, month, st, j) == Ok(fin)
    ensures |fin.homes| == |st.homes|
    ensures forall i :: 0 <= i < j ==> fin.homes[i] == st.homes[i]
    ensures forall i :: j <= i < |st.homes| ==> VisitedAs(mc, grow, growthYears, month, st.homes[i], fin.homes[i])
    decreases |st.homes| - j
  {
    if j < |st.homes| {
      var h := st.homes[j];
      var v := VisitFromNext(mc, grow, growthYears, month, st, j, fin);
      VisitOutcome(mc, grow, growthYears, month, h, |st.homes| + |st.added|, v);
      VisitFromHomes(mc, grow, growthYears, month, Advance(st, j, v), j + 1, fin);
    }
  }

  /** The rest of a month from house j on buys one house per due refinance
      among the houses from j on and keeps the purchases made so far. */
  lemma {:induction false} VisitFromPurchaseCount(mc: MarketConditions, grow: GrowthCurve, growthYears: int,
                                                  month: int, st: MonthState, j: nat, fin: MonthState)
    requires j <= |st.homes|
    requires VisitFrom(mc, grow, growthYears, month, st, j) == Ok(fin)
    ensures |fin.added| == |st.added| + DueCount(mc, grow, growthYears, month, st.homes[j..])
    ensures fin.added[..|st.added|] == st.added
    decreases |st.homes| - j
  {
    if j == |st.homes| {
      assert st.homes[j..] == [];
    } else {
      var h := st.homes[j];
      var v := VisitFromNext(mc, grow, growthYears, month, st, j, fin);
      var st' := Advance(st, j, v);
      VisitOutcome(mc, grow, growthYears, month, h, |st.homes| + |st.added|, v);
      VisitFromPurchaseCount(mc, grow, growthYears, month, st', j + 1, fin);
      assert st.homes[j..] == [h] + st'.homes[j + 1..];
      assert fin.added[..|st.added|] == fin.added[..|st'.added|][..|st.added|];
    }
  }

  /** The houses bought from house j on are numbered after the portfolio and
      the purchases made so far, in visiting order. */
  lemma {:induction false} VisitFromPurchaseIds(mc: MarketConditions, grow: GrowthCurve, growthYears: int,
                                                month: int, st: MonthState, j: nat, fin: MonthState)
    requires j <= |st.homes|
    requires VisitFrom(mc, grow, growthYears, month, st, j) == Ok(fin)
    ensures forall k :: |st.added| <= k < |fin.added| ==> PurchasedHouse(mc, month, |st.homes| + k) == Ok(fin.added[k])
    decreases |st.homes| - j
  {
    if j < |st.homes| {
      var h := st.homes[j];
      var nextId := |st.homes| + |st.added|;
      var v := VisitFromNext(mc, grow, growthYears, month, st, j, fin);
      var st' := Advance(st, j, v);
      VisitOutcome(mc, grow, growthYears, month, h, nextId, v);
      VisitFromPurchaseIds(mc, grow, growthYears, month, st', j + 1, fin);
      VisitFromPurchaseCount(mc, grow, growthYears, month, st', j + 1, fin);
      forall k | |st.added| <= k < |st'.added|
        ensures PurchasedHouse(mc, month, |st.homes| + k) == Ok(fin.added[k])
      {
        assert RefinanceDue(mc, grow, growthYears, month, h) && k == |st.added|;
        assert fin.added[k] == st'.added[k] == v.bought[0];
      }
    }
  }

  /** A month of growth: each house is refinanced exactly when it is due,
      the portfolio grows by the number of due refinances, and the houses
      bought are appended in order, bought this month at the base price, each
      with its index as id. */
  lemma ProcessMonthOutcome(mc: MarketConditions, grow: GrowthCurve, growthYears: int, month: int,
                            homes: seq<HouseState>)
    requires ProcessMonth(mc, grow, growthYears, month, homes).Ok?
    ensures var next := ProcessMonth(mc, grow, growthYears, month, homes).value;
            |next| == |homes| + DueCount(mc, grow, growthYears, month, homes)
            && (forall i :: 0 <= i < |homes| ==> VisitedAs(mc, grow, growthYears, month, homes[i], next[i]))
            && (forall i :: |homes| <= i < |next| ==>
                  PurchasedHouse(mc, month, i) == Ok(next[i]) && next[i].monthOfPurchase == month && next[i].id == i)
  {
    var start := MonthState(homes, []);
    var fin := VisitFrom(mc, grow, growthYears, month, start, 0).value;
    VisitFromHomes(mc, grow, growthYears, month, start, 0, fin);
    VisitFromPurchaseCount(mc, grow, growthYears, month, start, 0, fin);
    VisitFromPurchaseIds(mc, grow, growthYears, month, start, 0, fin);
    assert homes[0..] == homes;
    var next := fin.homes + fin.added;
    forall i | |homes| <= i < |next|
      ensures PurchasedHouse(mc, month, i) == Ok(next[i]) && next[i].monthOfPurchase == month && next[i].id == i
    {
      assert next[i] == fin.added[i - |homes|];
    }
  }

  /** In the last 24 months before the withdrawal nothing is refinanced and
      nothing is bought: the month leaves the portfolio as it found it. */
  lemma {:induction false} FrozenMonth(mc: MarketConditions, grow: GrowthCurve, growthYears: int, month: int,
                                       st: MonthState, j: nat)
    requires !Buying(growthYears, month) && j <= |st.homes|
    ensures VisitFrom(mc, grow, growthYears, month, st, j) == Ok(st)
    decreases |st.homes| - j
  {
    if j < |st.homes| {
      assert Advance(st, j, Visit(st.homes[j], [])) == st;
      FrozenMonth(mc, grow, growthYears, month, st, j + 1);
    }
  }

  lemma FrozenProcessMonth(mc: MarketConditions, grow: GrowthCurve, growthYears: int, month: int,
                           homes: seq<HouseState>)
    requires !Buying(growthYears, month)
    ensures ProcessMonth(mc, grow, growthYears, month, homes) == Ok(homes)
  {
    FrozenMonth(mc, grow, growthYears, month, MonthState(homes, []), 0);
    assert homes + [] == homes;
  }

  /** Once purchases have frozen, the rest of the growth phase changes
      nothing. */
  lemma {:induction false} FrozenGrowth(mc: MarketConditions, grow: GrowthCurve, growthYears: int, month: int,
                                        homes: seq<HouseState>)
    requires !Buying(growthYears, month)
    ensures GrowthFrom(mc, grow, growthYears, month, homes) == Ok(homes)
    decreases growthYears * 12 - month
  {
    if month <= growthYears * 12 {
      FrozenProcessMonth(mc, grow, growthYears, month, homes);
      FrozenGrowth(mc, grow, growthYears, month + 1, homes);
    }
  }

  /** A month never fails with the same-month refusal when no house has
      taken a loan in that month. */
  lemma {:induction false} VisitFromNeverIllegal(mc: MarketConditions, grow: GrowthCurve, growthYears: int,
                                                 month: int, st: MonthState, j: nat)
    requires j <= |st.homes|
    requires forall i :: j <= i < |st.homes| ==> st.homes[i].monthOfLatestMortgageOrRefinance < month
    ensures VisitFrom(mc, grow, growthYears, month, st, j) != Err(IllegalOperation)
    decreases |st.homes| - j
  {
    if j < |st.homes| {
      var h := st.homes[j];
      var nextId := |st.homes| + |st.added|;
      VisitNeverIllegal(mc, grow, growthYears, month, h, nextId);
      var visit := VisitHome(mc, grow, growthYears, month, h, nextId);
      if visit.Ok? {
        VisitFromNeverIllegal(mc, grow, growthYears, month, Advance(st, j, visit.value), j + 1);
      }
    }
  }

  // ---------------------------------------------------------------------
  // The growth phase.

  /** Every house's id is its index in the portfolio. */
  predicate IdsAreIndices(homes: seq<HouseState>)
  {
    forall i :: 0 <= i < |homes| ==> homes[i].id == i
  }

  /** Every house's latest loan event lies before the month. */
  predicate LoansBefore(homes: seq<HouseState>, month: int)
  {
    forall i :: 0 <= i < |homes| ==> homes[i].monthOfLatestMortgageOrRefinance < month
  }

  /** A month keeps ids equal to indices and leaves every loan event at or
      before that month. */
  lemma MonthKeepsInvariants(mc: MarketConditions, grow: GrowthCurve, growthYears: int, month: int,
                             homes: seq<HouseState>)
    requires IdsAreIndices(homes) && LoansBefore(homes, month)
    requires ProcessMonth(mc, grow, growthYears, month, homes).Ok?
    ensures var next := ProcessMonth(mc, grow, growthYears, month, homes).value;
            IdsAreIndices(next) && LoansBefore(next, month + 1) && |homes| <= |next|
  {
    ProcessMonthOutcome(mc, grow, growthYears, month, homes);
  }

  /** From any month on, given a portfolio whose ids are its indices and
      whose loans all predate the month: the portfolio only grows, ids stay
      indices, and no failure is the payout query's same-month refusal. */
  lemma {:induction false} GrowthFromInvariants(mc: MarketConditions, grow: GrowthCurve, growthYears: int,
                                                month: int, homes: seq<HouseState>)
    requires IdsAreIndices(homes) && LoansBefore(homes, month)
    ensures var res := GrowthFrom(mc, grow, growthYears, month, homes);
            (res.Ok? ==> IdsAreIndices(res.value) && |homes| <= |res.value|)
            && res != Err(IllegalOperation)
    decreases growthYears * 12 - month
  {
    if month <= growthYears * 12 {
      VisitFromNeverIllegal(mc, grow, growthYears, month, MonthState(homes, []), 0);
      var next := ProcessMonth(mc, grow, growthYears, month, homes);
      if next.Ok? {
        MonthKeepsInvariants(mc, grow, growthYears, month, homes);
        GrowthFromInvariants(mc, grow, growthYears, month + 1, next.value);
      }
    }
  }

  /** The whole growth phase: it starts from the starting houses, ids are
      indices throughout, the portfolio never shrinks, and the same-month
      refusal of the payout query never stops it. */
  lemma GrowthInvariants(mc: MarketConditions, grow: GrowthCurve, initialHomeCount: int, growthYears: int)
    ensures var res := Growth(mc, grow, initialHomeCount, growthYears);
            (res.Ok? ==> IdsAreIndices(res.value) && |res.value| >= initialHomeCount)
            && res != Err(IllegalOperation)
  {
    var initial := InitialHomes(mc, initialHomeCount);
    if initial.Ok? {
      forall i | 0 <= i < |initial.value|
        ensures initial.value[i].id == i && initial.value[i].monthOfLatestMortgageOrRefinance < 1
      {
        assert initial.value[i] == PurchasedHouse(mc, 0, i).value;
      }
      GrowthFromInvariants(mc, grow, growthYears, 1, initial.value);
    }
  }

  /** The run fails exactly when the growth or the withdrawal fails, with
      the same error; in particular a refused refinance aborts the run. */
  lemma IncomeFailsWithGrowth(mc: MarketConditions, grow: GrowthCurve, initialHomeCount: int, growthYears: int)
    requires Growth(mc, grow, initialHomeCount, growthYears).Err?
    ensures IncomeSpec(mc, grow, initialHomeCount, growthYears) == Err(Growth(mc, grow, initialHomeCount, growthYears).error)
  {
  }

  // ---------------------------------------------------------------------
  // The search for the number of starting houses.

  /** The run with k starting houses succeeds without beating the target. */
  predicate BelowTarget(mc: MarketConditions, grow: GrowthCurve, years: nat, target: real, k: int)
  {
    IncomeSpec(mc, grow, k, years).Ok? && IncomeSpec(mc, grow, k, years).value.monthlyIncome <= target
  }

  /** The search from i on returns the first count from i on whose run
      beats the target, together with that run and the target. */
  lemma {:induction false} SearchFromFound(mc: MarketConditions, grow: GrowthCurve, years: nat, target: real, i: int)
    requires 1 <= i <= 100
    requires SearchFrom(mc, grow, years, target, i).Ok? && SearchFrom(mc, grow, years, target, i).value.Found?
    ensures var found := SearchFrom(mc, grow, years, target, i).value;
            i <= found.initialHomeCount < 100 && found.inflationAdjustedDesiredIncome == target
            && IncomeSpec(mc, grow, found.initialHomeCount, years) == Ok(found.result)
            && found.result.monthlyIncome > target
    ensures forall k :: i <= k < SearchFrom(mc, grow, years, target, i).value.initialHomeCount ==>
              BelowTarget(mc, grow, years, target, k)
    decreases 100 - i
  {
    assert i < 100;
    SearchStep(mc, grow, years, target, i);
    var run := IncomeSpec(mc, grow, i, years);
    if run.Ok? && !(run.value.monthlyIncome > target) {
      assert BelowTarget(mc, grow, years, target, i);
      assert SearchFrom(mc, grow, years, target, i) == SearchFrom(mc, grow, years, target, i + 1);
      SearchFromFound(mc, grow, years, target, i + 1);
    } else {
      assert SearchFrom(mc, grow, years, target, i) == Ok(Found(run.value, i, target));
    }
  }

  /** The search from i on reports no count when every run from i to 99
      succeeds and falls short of the target ... */
  lemma {:induction false} AllBelowIsUnachievable(mc: MarketConditions, grow: GrowthCurve, years: nat, target: real,
                                                  i: int)
    requires 1 <= i <= 100
    requires forall k :: i <= k < 100 ==> BelowTarget(mc, grow, years, target, k)
    ensures SearchFrom(mc, grow, years, target, i) == Ok(Unachievable)
    decreases 100 - i
  {
    if i < 100 {
      assert BelowTarget(mc, grow, years, target, i);
      SearchStep(mc, grow, years, target, i);
      AllBelowIsUnachievable(mc, grow, years, target, i + 1);
    }
  }

  /** ... and only then. */
  lemma {:induction false} UnachievableIsAllBelow(mc: MarketConditions, grow: GrowthCurve, years: nat, target: real,
                                                  i: int)
    requires 1 <= i <= 100
    requires SearchFrom(mc, grow, years, target, i) == Ok(Unachievable)
    ensures forall k :: i <= k < 100 ==> BelowTarget(mc, grow, years, target, k)
    decreases 100 - i
  {
    if i < 100 {
      SearchStep(mc, grow, years, target, i);
      var run := IncomeSpec(mc, grow, i, years);
      assert run.Ok? && !(run.value.monthlyIncome > target);
      assert BelowTarget(mc, grow, years, target, i);
      UnachievableIsAllBelow(mc, grow, years, target, i + 1);
    }
  }

  /** A failed search from i on fails with the error of the first failed
      run, c, all earlier runs from i on having fallen short. */
  lemma {:induction false} SearchFromFails(mc: MarketConditions, grow: GrowthCurve, years: nat, target: real, i: int)
    returns (c: int)
    requires 1 <= i <= 100
    requires SearchFrom(mc, grow, years, target, i).Err?
    ensures i <= c < 100 && IncomeSpec(mc, grow, c, years) == Err(SearchFrom(mc, grow, years, target, i).error)
    ensures forall k :: i <= k < c ==> BelowTarget(mc, grow, years, target, k)
    decreases 100 - i
  {
    assert i < 100;
    var run := IncomeSpec(mc, grow, i, years);
    SearchStep(mc, grow, years, target, i);
    if run.Ok? {
      assert BelowTarget(mc, grow, years, target, i);
      c := SearchFromFails(mc, grow, years, target, i + 1);
    } else {
      c := i;
    }
  }

  /** A found count is the smallest from 1 to 99 whose run beats the
      inflation-adjusted target, and it comes with that run and target. */
  lemma RequirementIsFirst(desiredIncome: real, years: nat, mc: MarketConditions, grow: GrowthCurve)
    requires RequirementSpec(desiredIncome, years, mc, grow).Ok?
    requires RequirementSpec(desiredIncome, years, mc, grow).value.Found?
    ensures var found := RequirementSpec(desiredIncome, years, mc, grow).value;
            var target := InflationAdjusted(desiredIncome, years, mc.inflationRate);
            var c := found.initialHomeCount;
            1 <= c <= 99 && found.inflationAdjustedDesiredIncome == target
            && IncomeSpec(mc, grow, c, years) == Ok(found.result)
            && found.result.monthlyIncome > target
            && forall k :: 1 <= k < c ==> BelowTarget(mc, grow, years, target, k)
  {
    SearchFromFound(mc, grow, years, InflationAdjusted(desiredIncome, years, mc.inflationRate), 1);
  }

  /** The search reports the income unachievable exactly when every count
      from 1 to 99 runs and falls short of the target. */
  lemma RequirementUnachievable(desiredIncome: real, years: nat, mc: MarketConditions, grow: GrowthCurve)
    ensures RequirementSpec(desiredIncome, years, mc, grow) == Ok(Unachievable)
        <==> forall k :: 1 <= k < 100 ==>
                BelowTarget(mc, grow, years, InflationAdjusted(desiredIncome, years, mc.inflationRate), k)
  {
    var target := InflationAdjusted(desiredIncome, years, mc.inflationRate);
    if RequirementSpec(desiredIncome, years, mc, grow) == Ok(Unachievable) {
      UnachievableIsAllBelow(mc, grow, years, target, 1);
    }
    if forall k :: 1 <= k < 100 ==> BelowTarget(mc, grow, years, target, k) {
      AllBelowIsUnachievable(mc, grow, years, target, 1);
    }
  }

  /** A failed search carries the error of the first run that failed, all
      earlier runs having fallen short. */
  lemma RequirementFails(desiredIncome: real, years: nat, mc: MarketConditions, grow: GrowthCurve)
    requires RequirementSpec(desiredIncome, years, mc, grow).Err?
    ensures var target := InflationAdjusted(desiredIncome, years, mc.inflationRate);
            exists c :: 1 <= c < 100
                        && IncomeSpec(mc, grow, c, years) == Err(RequirementSpec(desiredIncome, years, mc, grow).error)
                        && forall k :: 1 <= k < c ==> BelowTarget(mc, grow, years, target, k)
  {
    var c := SearchFromFails(mc, grow, years, InflationAdjusted(desiredIncome, years, mc.inflationRate), 1);
  }

  /** With positive inflation and at least one year, the target exceeds the
      desired income. */
  lemma InflationRaisesTarget(desiredIncome: real, years: nat, inflationRate: real)
    requires desiredIncome > 0.0 && inflationRate > 0.0 && years > 0
    ensures InflationAdjusted(desiredIncome, years, inflationRate) > desiredIncome
  {
    PowStrictlyIncreasing(1.0 + inflationRate / 100.0, 0, years);
  }
}
