/** One financed property: its value, its equity, the payout a refinance
    would bring, and the refinance that replaces its loan in place. */
module Houses {
  import opened Common
  import opened Amortization

  /** One entry of a house's refinance log. */
  datatype RefinanceEvent = RefinanceEvent(month: int, amount: real)

  /** Everything a house holds, as a value. */
  datatype HouseState = HouseState(
    monthOfPurchase: int,
    monthOfLatestMortgageOrRefinance: int,
    initialHomePrice: real,
    percentAnnualHomeAppreciation: real,
    percentDownPayment: real,
    percentAnnualInterestRate: real,
    loanTermYears: int,
    loanAmount: real,
    schedule: seq<Entry>,
    refinanceCost: real,
    refinanceSchedule: seq<RefinanceEvent>,
    id: int)

  /** What the buyer borrows: the price less the down payment. */
  function LoanAmountFor(homePrice: real, percentDownPayment: real): (amount: real)
    ensures amount + homePrice * percentDownPayment / 100.0 == homePrice
  {
    homePrice * (100.0 - percentDownPayment) / 100.0
  }

  /** The state the constructor builds, or the refusal the schedule raises. */
  function NewHouse(monthOfPurchase: int, homePrice: real, percentAnnualHomeAppreciation: real,
                    percentDownPayment: real, percentAnnualInterestRate: real, loanTermYears: int,
                    refinanceCost: real, id: int): (res: Result<HouseState>)
    ensures res.Ok? <==> ValidTerms(LoanAmountFor(homePrice, percentDownPayment), percentAnnualInterestRate, loanTermYears)
    ensures res.Err? ==> res.error == InvalidParameter
  {
    var loanAmount := LoanAmountFor(homePrice, percentDownPayment);
    match AmortizationSchedule(loanAmount, percentAnnualInterestRate, loanTermYears)
    case Err(e) => Err(e)
    case Ok(schedule) =>
      Ok(HouseState(monthOfPurchase, monthOfPurchase, homePrice, percentAnnualHomeAppreciation,
                    percentDownPayment, percentAnnualInterestRate, loanTermYears, loanAmount,
                    schedule, refinanceCost, [], id))
  }

  /** The refinance log runs in month order, between the purchase and the
      latest loan event, and its last entry is that event. */
  predicate LogConsistent(log: seq<RefinanceEvent>, monthOfPurchase: int, latest: int)
  {
    (forall i :: 0 <= i < |log| ==> monthOfPurchase <= log[i].month <= latest)
    && (forall i, j :: 0 <= i < j < |log| ==> log[i].month <= log[j].month)
    && (|log| > 0 ==> log[|log| - 1].month == latest)
  }

  /** A house whose schedule is the amortization of its current loan. */
  predicate Valid(h: HouseState)
  {
    h.initialHomePrice > 0.0
    && ValidTerms(h.loanAmount, h.percentAnnualInterestRate, h.loanTermYears)
    && h.schedule == Schedule(h.loanAmount, h.percentAnnualInterestRate, h.loanTermYears)
    && h.monthOfPurchase <= h.monthOfLatestMortgageOrRefinance
    && LogConsistent(h.refinanceSchedule, h.monthOfPurchase, h.monthOfLatestMortgageOrRefinance)
  }

  lemma NewHouseIsValid(monthOfPurchase: int, homePrice: real, percentAnnualHomeAppreciation: real,
                        percentDownPayment: real, percentAnnualInterestRate: real, loanTermYears: int,
                        refinanceCost: real, id: int)
    requires homePrice > 0.0
    requires NewHouse(monthOfPurchase, homePrice, percentAnnualHomeAppreciation, percentDownPayment,
                      percentAnnualInterestRate, loanTermYears, refinanceCost, id).Ok?
    ensures var h := NewHouse(monthOfPurchase, homePrice, percentAnnualHomeAppreciation, percentDownPayment,
                              percentAnnualInterestRate, loanTermYears, refinanceCost, id).value;
            Valid(h)
            && h.monthOfLatestMortgageOrRefinance == monthOfPurchase
            && h.loanAmount == LoanAmountFor(homePrice, percentDownPayment)
            && h.refinanceSchedule == []
            && |h.schedule| == NumberOfPayments(loanTermYears) + 1
  {
  }

  /** A positive price paid in full leaves no loan, and the schedule refuses it. */
  lemma FullDownPaymentIsRefused(monthOfPurchase: int, homePrice: real, percentAnnualHomeAppreciation: real,
                                 percentDownPayment: real, percentAnnualInterestRate: real, loanTermYears: int,
                                 refinanceCost: real, id: int)
    requires homePrice > 0.0 && percentDownPayment >= 100.0
    ensures NewHouse(monthOfPurchase, homePrice, percentAnnualHomeAppreciation, percentDownPayment,
                     percentAnnualInterestRate, loanTermYears, refinanceCost, id) == Err(InvalidParameter)
  {
    assert LoanAmountFor(homePrice, percentDownPayment) <= 0.0 by {
      assert 100.0 - percentDownPayment <= 0.0;
      assert homePrice * (100.0 - percentDownPayment) <= 0.0;
    }
  }

  /** getCurrentHomeValue: the price grown over the months since purchase. */
  function CurrentHomeValue(h: HouseState, grow: GrowthCurve, currentMonth: int): (value: real)
    ensures currentMonth == h.monthOfPurchase ==> value == h.initialHomePrice
    ensures h.initialHomePrice > 0.0 ==> value > 0.0
  {
    assert grow(h.initialHomePrice, h.percentAnnualHomeAppreciation, 0) == h.initialHomePrice;
    grow(h.initialHomePrice, h.percentAnnualHomeAppreciation, currentMonth - h.monthOfPurchase)
  }

  /** The value the payout and the refinance use: the price grown over the
      months since the latest loan event. */
  function ValueSinceLatestLoan(h: HouseState, grow: GrowthCurve, currentMonth: int): (value: real)
    ensures currentMonth == h.monthOfLatestMortgageOrRefinance ==> value == h.initialHomePrice
    ensures h.initialHomePrice > 0.0 ==> value > 0.0
    ensures h.monthOfLatestMortgageOrRefinance == h.monthOfPurchase ==> value == CurrentHomeValue(h, grow, currentMonth)
  {
    assert grow(h.initialHomePrice, h.percentAnnualHomeAppreciation, 0) == h.initialHomePrice;
    grow(h.initialHomePrice, h.percentAnnualHomeAppreciation, currentMonth - h.monthOfLatestMortgageOrRefinance)
  }

  /** The balance `monthsIntoSchedule` months into a schedule; a month past
      either end has no entry. */
  function BalanceAt(schedule: seq<Entry>, monthsIntoSchedule: int): (res: Result<real>)
    ensures res.Ok? <==> 0 <= monthsIntoSchedule < |schedule|
    ensures res.Ok? ==> res.value == schedule[monthsIntoSchedule].remainingBalance
    ensures res.Err? ==> res.error == ScheduleLookupOutOfRange
  {
    if 0 <= monthsIntoSchedule < |schedule| then Ok(schedule[monthsIntoSchedule].remainingBalance)
    else Err(ScheduleLookupOutOfRange)
  }

  /** getPossibleRefinancePayout: 75 percent of the value, less the refinance
      cost and the balance still owed. */
  function PossibleRefinancePayout(h: HouseState, grow: GrowthCurve, currentMonth: int): (res: Result<real>)
    ensures res == Err(IllegalOperation) <==> currentMonth == h.monthOfLatestMortgageOrRefinance
    ensures res.Ok? <==> currentMonth != h.monthOfLatestMortgageOrRefinance
                         && 0 <= currentMonth - h.monthOfLatestMortgageOrRefinance < |h.schedule|
    ensures res.Ok? ==> res.value + h.refinanceCost
                        + h.schedule[currentMonth - h.monthOfLatestMortgageOrRefinance].remainingBalance
                        == ValueSinceLatestLoan(h, grow, currentMonth) * 0.75
  {
    if currentMonth == h.monthOfLatestMortgageOrRefinance then Err(IllegalOperation)
    else
      match BalanceAt(h.schedule, currentMonth - h.monthOfLatestMortgageOrRefinance)
      case Err(e) => Err(e)
      case Ok(remainingBalance) =>
        Ok(ValueSinceLatestLoan(h, grow, currentMonth) * 0.75 - h.refinanceCost - remainingBalance)
  }

  /** getCurrentEquity as written: an ownership percentage times the value. */
  function CurrentEquity(h: HouseState, grow: GrowthCurve, currentMonth: int): (res: Result<real>)
    requires h.loanAmount != 0.0
    ensures res.Ok? <==> 0 <= currentMonth - h.monthOfLatestMortgageOrRefinance < |h.schedule|
    ensures res.Ok? ==>
      var remainingBalance := h.schedule[currentMonth - h.monthOfLatestMortgageOrRefinance].remainingBalance;
      res.value * h.loanAmount
      == (h.percentDownPayment * h.loanAmount + (h.loanAmount - remainingBalance) * 100.0)
         * CurrentHomeValue(h, grow, currentMonth)
  {
    match BalanceAt(h.schedule, currentMonth - h.monthOfLatestMortgageOrRefinance)
    case Err(e) => Err(e)
    case Ok(remainingBalance) =>
      var percentOwnershipOfHome := h.percentDownPayment + (h.loanAmount - remainingBalance) / h.loanAmount * 100.0;
      Ok(percentOwnershipOfHome * CurrentHomeValue(h, grow, currentMonth))
  }

  /** Equity in currency: the value less the balance owed. */
  function Equity(h: HouseState, grow: GrowthCurve, currentMonth: int): (res: Result<real>)
    ensures res.Ok? <==> 0 <= currentMonth - h.monthOfLatestMortgageOrRefinance < |h.schedule|
    ensures res.Ok? ==>
      res.value + h.schedule[currentMonth - h.monthOfLatestMortgageOrRefinance].remainingBalance
      == CurrentHomeValue(h, grow, currentMonth)
  {
    match BalanceAt(h.schedule, currentMonth - h.monthOfLatestMortgageOrRefinance)
    case Err(e) => Err(e)
    case Ok(remainingBalance) => Ok(CurrentHomeValue(h, grow, currentMonth) - remainingBalance)
  }

  /** A house bought for 100000 with 25 percent down at 5 percent, on any
      term: in the purchase month the percentage formula reports 25 times
      the value of the house, where the owner's stake is the 25000 paid down. */
  lemma EquityAsWrittenOverstates(grow: GrowthCurve, loanTermYears: int)
    requires loanTermYears > 0
    ensures NewHouse(0, 100000.0, 3.0, 25.0, 5.0, loanTermYears, 0.0, 0).Ok?
    ensures var h := NewHouse(0, 100000.0, 3.0, 25.0, 5.0, loanTermYears, 0.0, 0).value;
            CurrentHomeValue(h, grow, 0) == 100000.0
            && CurrentEquity(h, grow, 0) == Ok(2500000.0)
            && Equity(h, grow, 0) == Ok(25000.0)
  {
    var h := NewHouse(0, 100000.0, 3.0, 25.0, 5.0, loanTermYears, 0.0, 0).value;
    assert h.loanAmount == 75000.0;
    Round2OfCents(7500000);
    assert h.schedule[0].remainingBalance == 75000.0;
  }

  /** What a refinance returns together with the state it leaves behind. */
  datatype Refinanced = Refinanced(result: Result<real>, after: HouseState)

  /** doARefinance: the new loan fields are written before the new schedule is
      generated, so a refusal of the new terms leaves them written. */
  function Refinance(h: HouseState, grow: GrowthCurve, currentMonth: int, newInterestRate: real,
                     newPercentDownPayment: real, newLoanTermYears: int): (r: Refinanced)
    ensures r.result.Err? && r.result.error != InvalidParameter ==> r.after == h
    ensures r.result == Err(InvalidParameter) ==>
              r.after.monthOfLatestMortgageOrRefinance == currentMonth
              && r.after.schedule == h.schedule && r.after.refinanceSchedule == h.refinanceSchedule
  {
    if newPercentDownPayment < 25.0 then Refinanced(Err(DownPaymentTooLow), h)
    else
      var currentHomeValue := ValueSinceLatestLoan(h, grow, currentMonth);
      var grossPayout := currentHomeValue * 0.75 - h.refinanceCost;
      match BalanceAt(h.schedule, currentMonth - h.monthOfLatestMortgageOrRefinance)
      case Err(e) => Refinanced(Err(e), h)
      case Ok(remainingBalance) =>
        var payout := grossPayout - remainingBalance;
        var written := h.(monthOfLatestMortgageOrRefinance := currentMonth,
                          loanAmount := currentHomeValue * 0.75,
                          loanTermYears := newLoanTermYears,
                          percentAnnualInterestRate := newInterestRate,
                          percentDownPayment := newPercentDownPayment);
        match AmortizationSchedule(written.loanAmount, newInterestRate, newLoanTermYears)
        case Err(e) => Refinanced(Err(e), written)
        case Ok(schedule) =>
          Refinanced(Ok(payout),
                     written.(schedule := schedule,
                              refinanceSchedule := h.refinanceSchedule + [RefinanceEvent(currentMonth, payout)]))
  }

  /** A down payment below 25 percent, and only that, is refused with
      DownPaymentTooLow, and the house is left as it was. */
  lemma RefinanceRefusesLowDownPayment(h: HouseState, grow: GrowthCurve, currentMonth: int, newInterestRate: real,
                                       newPercentDownPayment: real, newLoanTermYears: int)
    ensures var r := Refinance(h, grow, currentMonth, newInterestRate, newPercentDownPayment, newLoanTermYears);
            (r.result == Err(DownPaymentTooLow) <==> newPercentDownPayment < 25.0)
            && (newPercentDownPayment < 25.0 ==> r.after == h)
  {
  }

  /** Out of the refinance month, with an acceptable down payment and new
      terms, the refinance pays exactly the payout the query reports, and
      fails exactly when the query fails. */
  lemma RefinancePaysPossiblePayout(h: HouseState, grow: GrowthCurve, currentMonth: int, newInterestRate: real,
                                    newPercentDownPayment: real, newLoanTermYears: int)
    requires currentMonth != h.monthOfLatestMortgageOrRefinance
    requires newPercentDownPayment >= 25.0
    requires ValidTerms(ValueSinceLatestLoan(h, grow, currentMonth) * 0.75, newInterestRate, newLoanTermYears)
    ensures Refinance(h, grow, currentMonth, newInterestRate, newPercentDownPayment, newLoanTermYears).result
         == PossibleRefinancePayout(h, grow, currentMonth)
  {
  }

  /** A valid house refinances exactly when the down payment is acceptable,
      the current month lies within its schedule and the new terms are
      positive. */
  lemma RefinanceSucceeds(h: HouseState, grow: GrowthCurve, currentMonth: int, newInterestRate: real,
                          newPercentDownPayment: real, newLoanTermYears: int)
    requires Valid(h)
    ensures Refinance(h, grow, currentMonth, newInterestRate, newPercentDownPayment, newLoanTermYears).result.Ok?
        <==> newPercentDownPayment >= 25.0
             && 0 <= currentMonth - h.monthOfLatestMortgageOrRefinance <= NumberOfPayments(h.loanTermYears)
             && newInterestRate > 0.0 && newLoanTermYears > 0
  {
    assert ValueSinceLatestLoan(h, grow, currentMonth) * 0.75 > 0.0;
  }

  /** After a successful refinance: the new loan is 75 percent of the value
      and is amortized afresh from the refinance month, and the log gains one
      entry at its end holding the payout. */
  lemma RefinanceReplacesLoan(h: HouseState, grow: GrowthCurve, currentMonth: int, newInterestRate: real,
                              newPercentDownPayment: real, newLoanTermYears: int)
    requires Refinance(h, grow, currentMonth, newInterestRate, newPercentDownPayment, newLoanTermYears).result.Ok?
    ensures var r := Refinance(h, grow, currentMonth, newInterestRate, newPercentDownPayment, newLoanTermYears);
            var a := r.after;
            a.monthOfLatestMortgageOrRefinance == currentMonth
            && a.loanAmount == ValueSinceLatestLoan(h, grow, currentMonth) * 0.75
            && a.percentAnnualInterestRate == newInterestRate
            && a.percentDownPayment == newPercentDownPayment
            && a.loanTermYears == newLoanTermYears
            && a.schedule == Schedule(a.loanAmount, newInterestRate, newLoanTermYears)
            && a.refinanceSchedule == h.refinanceSchedule + [RefinanceEvent(currentMonth, r.result.value)]
  {
  }

  /** Whatever the outcome, the purchase data and the identity stay, and the
      earlier log entries are kept. */
  lemma RefinanceKeepsIdentity(h: HouseState, grow: GrowthCurve, currentMonth: int, newInterestRate: real,
                               newPercentDownPayment: real, newLoanTermYears: int)
    ensures var r := Refinance(h, grow, currentMonth, newInterestRate, newPercentDownPayment, newLoanTermYears);
            var a := r.after;
            a.monthOfPurchase == h.monthOfPurchase
            && a.initialHomePrice == h.initialHomePrice
            && a.percentAnnualHomeAppreciation == h.percentAnnualHomeAppreciation
            && a.refinanceCost == h.refinanceCost
            && a.id == h.id
            && |a.refinanceSchedule| == |h.refinanceSchedule| + (if r.result.Ok? then 1 else 0)
            && a.refinanceSchedule[..|h.refinanceSchedule|] == h.refinanceSchedule
  {
  }

  /** A successful refinance keeps a house valid. */
  lemma RefinancePreservesValid(h: HouseState, grow: GrowthCurve, currentMonth: int, newInterestRate: real,
                                newPercentDownPayment: real, newLoanTermYears: int)
    requires Valid(h)
    requires Refinance(h, grow, currentMonth, newInterestRate, newPercentDownPayment, newLoanTermYears).result.Ok?
    ensures Valid(Refinance(h, grow, currentMonth, newInterestRate, newPercentDownPayment, newLoanTermYears).after)
  {
    var a := Refinance(h, grow, currentMonth, newInterestRate, newPercentDownPayment, newLoanTermYears).after;
    var log := h.refinanceSchedule;
    assert a.refinanceSchedule == log + [RefinanceEvent(currentMonth, a.refinanceSchedule[|log|].amount)];
    assert LogConsistent(a.refinanceSchedule, a.monthOfPurchase, a.monthOfLatestMortgageOrRefinance);
  }

  /** Right after a refinance the payout query refuses the month, and the
      balance owed is the new loan, rounded. */
  lemma RefinanceRestartsSchedule(h: HouseState, grow: GrowthCurve, currentMonth: int, newInterestRate: real,
                                  newPercentDownPayment: real, newLoanTermYears: int)
    requires Refinance(h, grow, currentMonth, newInterestRate, newPercentDownPayment, newLoanTermYears).result.Ok?
    ensures var a := Refinance(h, grow, currentMonth, newInterestRate, newPercentDownPayment, newLoanTermYears).after;
            PossibleRefinancePayout(a, grow, currentMonth) == Err(IllegalOperation)
            && BalanceAt(a.schedule, currentMonth - a.monthOfLatestMortgageOrRefinance) == Ok(Round2(a.loanAmount))
  {
  }

  /** A house as an object: the purchase data never change; the loan fields,
      the schedule and the refinance log are replaced by a refinance. */
  class House {
    const monthOfPurchase: int
    const initialHomePrice: real
    const percentAnnualHomeAppreciation: real
    const refinanceCost: real
    const id: int
    var monthOfLatestMortgageOrRefinance: int
    var percentDownPayment: real
    var percentAnnualInterestRate: real
    var loanTermYears: int
    var loanAmount: real
    var schedule: seq<Entry>
    var refinanceSchedule: seq<RefinanceEvent>

    function State(): HouseState
      reads this
    {
      HouseState(monthOfPurchase, monthOfLatestMortgageOrRefinance, initialHomePrice,
                 percentAnnualHomeAppreciation, percentDownPayment, percentAnnualInterestRate,
                 loanTermYears, loanAmount, schedule, refinanceCost, refinanceSchedule, id)
    }

    /** The constructor of terms the schedule accepts. */
    constructor (monthOfPurchase: int, homePrice: real, percentAnnualHomeAppreciation: real,
                 percentDownPayment: real, percentAnnualInterestRate: real, loanTermYears: int,
                 refinanceCost: real, id: int)
      requires ValidTerms(LoanAmountFor(homePrice, percentDownPayment), percentAnnualInterestRate, loanTermYears)
      ensures State() == NewHouse(monthOfPurchase, homePrice, percentAnnualHomeAppreciation, percentDownPayment,
                                  percentAnnualInterestRate, loanTermYears, refinanceCost, id).value
    {
      var amount := (homePrice * (100.0 - percentDownPayment)) / 100.0;
      var generated := GenerateAmortizationSchedule(amount, percentAnnualInterestRate, loanTermYears);
      this.monthOfPurchase := monthOfPurchase;
      this.monthOfLatestMortgageOrRefinance := monthOfPurchase;
      this.initialHomePrice := homePrice;
      this.percentAnnualHomeAppreciation := percentAnnualHomeAppreciation;
      this.percentDownPayment := percentDownPayment;
      this.percentAnnualInterestRate := percentAnnualInterestRate;
      this.loanTermYears := loanTermYears;
      this.loanAmount := amount;
      this.schedule := generated.value;
      this.refinanceCost := refinanceCost;
      this.refinanceSchedule := [];
      this.id := id;
    }

    /** `new House(...)`, including the refusal the schedule raises. */
    static method Create(monthOfPurchase: int, homePrice: real, percentAnnualHomeAppreciation: real,
                         percentDownPayment: real, percentAnnualInterestRate: real, loanTermYears: int,
                         refinanceCost: real, id: int) returns (res: Result<House>)
      ensures var spec := NewHouse(monthOfPurchase, homePrice, percentAnnualHomeAppreciation, percentDownPayment,
                                   percentAnnualInterestRate, loanTermYears, refinanceCost, id);
              (res.Ok? <==> spec.Ok?)
              && (res.Err? ==> res.error == spec.error)
              && (res.Ok? ==> fresh(res.value) && res.value.State() == spec.value)
    {
      var amount := (homePrice * (100.0 - percentDownPayment)) / 100.0;
      if !ValidTerms(amount, percentAnnualInterestRate, loanTermYears) {
        return Err(InvalidParameter);
      }
      var house := new House(monthOfPurchase, homePrice, percentAnnualHomeAppreciation, percentDownPayment,
                             percentAnnualInterestRate, loanTermYears, refinanceCost, id);
      return Ok(house);
    }

    /** doARefinance, proved against Refinance. */
    method DoARefinance(grow: GrowthCurve, currentMonth: int, newInterestRate: real,
                        newPercentDownPayment: real, newLoanTermYears: int) returns (res: Result<real>)
      modifies this
      ensures Refinance(old(State()), grow, currentMonth, newInterestRate, newPercentDownPayment, newLoanTermYears)
           == Refinanced(res, State())
    {
      ghost var before := State();
      if newPercentDownPayment < 25.0 {
        return Err(DownPaymentTooLow);
      }
      var monthsSinceMortgageOrRefinance := currentMonth - monthOfLatestMortgageOrRefinance;
      var currentHomeValue := grow(initialHomePrice, percentAnnualHomeAppreciation, monthsSinceMortgageOrRefinance);
      var grossPayout := currentHomeValue * 0.75 - refinanceCost;
      assert currentHomeValue == ValueSinceLatestLoan(before, grow, currentMonth);
      if monthsSinceMortgageOrRefinance < 0 || monthsSinceMortgageOrRefinance >= |schedule| {
        assert BalanceAt(before.schedule, monthsSinceMortgageOrRefinance) == Err(ScheduleLookupOutOfRange);
        return Err(ScheduleLookupOutOfRange);
      }
      var remainingPrincipleOnMortgage := schedule[monthsSinceMortgageOrRefinance].remainingBalance;
      var payoutAfterPayingOffCurrentMortgage := grossPayout - remainingPrincipleOnMortgage;

      monthOfLatestMortgageOrRefinance := currentMonth;
      loanAmount := currentHomeValue * 0.75;
      loanTermYears := newLoanTermYears;
      percentAnnualInterestRate := newInterestRate;
      percentDownPayment := newPercentDownPayment;
      ghost var written := before.(monthOfLatestMortgageOrRefinance := currentMonth,
                                   loanAmount := currentHomeValue * 0.75,
                                   loanTermYears := newLoanTermYears,
                                   percentAnnualInterestRate := newInterestRate,
                                   percentDownPayment := newPercentDownPayment);
      assert State() == written;
      var generated := GenerateAmortizationSchedule(loanAmount, percentAnnualInterestRate, loanTermYears);
      RefinanceOutcome(before, grow, currentMonth, newInterestRate, newPercentDownPayment, newLoanTermYears,
                       currentHomeValue, remainingPrincipleOnMortgage, payoutAfterPayingOffCurrentMortgage,
                       written, generated);
      if generated.Err? {
        return Err(generated.error);
      }
      schedule := generated.value;
      refinanceSchedule := refinanceSchedule + [RefinanceEvent(currentMonth, payoutAfterPayingOffCurrentMortgage)];
      return Ok(payoutAfterPayingOffCurrentMortgage);
    }
  }

  /** The refinance once the payout is known and the new loan written: it
      ends with the new schedule's refusal or with the new schedule and log. */
  lemma RefinanceOutcome(h: HouseState, grow: GrowthCurve, currentMonth: int, newInterestRate: real,
                         newPercentDownPayment: real, newLoanTermYears: int,
                         value: real, balance: real, payout: real, written: HouseState,
                         generated: Result<seq<Entry>>)
    requires newPercentDownPayment >= 25.0
    requires value == ValueSinceLatestLoan(h, grow, currentMonth)
    requires BalanceAt(h.schedule, currentMonth - h.monthOfLatestMortgageOrRefinance) == Ok(balance)
    requires payout == value * 0.75 - h.refinanceCost - balance
    requires written == h.(monthOfLatestMortgageOrRefinance := currentMonth,
                           loanAmount := value * 0.75,
                           loanTermYears := newLoanTermYears,
                           percentAnnualInterestRate := newInterestRate,
                           percentDownPayment := newPercentDownPayment)
    requires generated == AmortizationSchedule(value * 0.75, newInterestRate, newLoanTermYears)
    ensures generated.Err? ==>
              Refinance(h, grow, currentMonth, newInterestRate, newPercentDownPayment, newLoanTermYears)
              == Refinanced(Err(generated.error), written)
    ensures generated.Ok? ==>
              Refinance(h, grow, currentMonth, newInterestRate, newPercentDownPayment, newLoanTermYears)
              == Refinanced(Ok(payout), written.(schedule := generated.value,
                                                 refinanceSchedule := h.refinanceSchedule
                                                                      + [RefinanceEvent(currentMonth, payout)]))
  {
  }
}
