/** The month-by-month admission of the user's starting houses into the
    simulation: each month takes the starting houses bought in that month, in
    the order given, and drops them from the list still waiting. */
module Simulation {
  import opened Houses

  /** The houses of `s` bought in month m, in the order of `s`. */
  function WithMonth(s: seq<House>, m: int): (r: seq<House>)
    ensures |r| <= |s|
    ensures forall i :: 0 <= i < |r| ==> r[i].monthOfPurchase == m
  {
    if |s| == 0 then []
    else if s[|s| - 1].monthOfPurchase == m then WithMonth(s[..|s| - 1], m) + [s[|s| - 1]]
    else WithMonth(s[..|s| - 1], m)
  }

  /** The filter that drops the houses of month m, keeping the order. */
  function Without(s: seq<House>, m: int): (r: seq<House>)
    ensures |r| <= |s|
    ensures forall i :: 0 <= i < |r| ==> r[i].monthOfPurchase != m
  {
    if |s| == 0 then []
    else if s[|s| - 1].monthOfPurchase != m then Without(s[..|s| - 1], m) + [s[|s| - 1]]
    else Without(s[..|s| - 1], m)
  }

  /** The starting houses still waiting when month `month` begins: those not
      bought in any month from 0 up to month - 1, in their original order. */
  function Pending(s: seq<House>, month: int): (r: seq<House>)
    ensures forall i :: 0 <= i < |r| ==> !(0 <= r[i].monthOfPurchase < month)
  {
    if |s| == 0 then []
    else if !(0 <= s[|s| - 1].monthOfPurchase < month) then Pending(s[..|s| - 1], month) + [s[|s| - 1]]
    else Pending(s[..|s| - 1], month)
  }

  /** The starting houses bought within the projection, months 0 to last. */
  function Window(s: seq<House>, last: int): (r: seq<House>)
    ensures forall i :: 0 <= i < |r| ==> 0 <= r[i].monthOfPurchase <= last
  {
    if |s| == 0 then []
    else if 0 <= s[|s| - 1].monthOfPurchase <= last then Window(s[..|s| - 1], last) + [s[|s| - 1]]
    else Window(s[..|s| - 1], last)
  }

  /** The admissions of months `month` to last, month by month. */
  function AdmittedFrom(s: seq<House>, month: int, last: int): (r: seq<House>)
    ensures BoughtWithin(r, month, last)
    decreases last + 1 - month
  {
    if month > last then [] else WithMonth(s, month) + AdmittedFrom(s, month + 1, last)
  }

  /** runSimulation: the list of houses the admission loop builds. */
  method RunSimulation(startingHomes: seq<House>, projectionsYears: int) returns (homes: seq<House>)
    ensures homes == AdmittedFrom(startingHomes, 0, projectionsYears * 12)
  {
    ghost var seeds := startingHomes;
    ghost var last := projectionsYears * 12;
    var remaining := startingHomes;
    homes := [];
    PendingAtStart(seeds);
    var month := 0;
    while month <= projectionsYears * 12
      invariant 0 <= month
      invariant remaining == Pending(seeds, month)
      invariant homes + AdmittedFrom(seeds, month, last) == AdmittedFrom(seeds, 0, last)
      decreases last + 1 - month
    {
      ghost var before := homes;
      homes := AdmitMonth(homes, remaining, month);
      PendingWithMonth(seeds, month);
      AdmitStep(before, seeds, month, last);
      PendingWithout(seeds, month);
      remaining := Without(remaining, month);
      month := month + 1;
    }
    assert homes + [] == homes;
  }

  /** One pass over the waiting houses: those of this month are appended in
      their order. */
  method AdmitMonth(homes: seq<House>, remaining: seq<House>, month: int) returns (admitted: seq<House>)
    ensures admitted == homes + WithMonth(remaining, month)
  {
    admitted := homes;
    var j := 0;
    while j < |remaining|
      invariant 0 <= j <= |remaining|
      invariant admitted == homes + WithMonth(remaining[..j], month)
    {
      if remaining[j].monthOfPurchase == month {
        admitted := admitted + [remaining[j]];
      }
      WithMonthPrefix(remaining, j, month);
      j := j + 1;
    }
    assert remaining[..j] == remaining;
  }

  // ---------------------------------------------------------------------
  // How the filters compose.

  /** Admitting month `month` moves its houses from the months still to come
      to the houses admitted. */
  lemma AdmitStep(homes: seq<House>, s: seq<House>, month: int, last: int)
    requires month <= last
    ensures (homes + WithMonth(s, month)) + AdmittedFrom(s, month + 1, last) == homes + AdmittedFrom(s, month, last)
  {
  }

  /** Scanning one more house selects it when it is of month m. */
  lemma WithMonthPrefix(s: seq<House>, j: int, m: int)
    requires 0 <= j < |s|
    ensures WithMonth(s[..j + 1], m)
         == if s[j].monthOfPurchase == m then WithMonth(s[..j], m) + [s[j]] else WithMonth(s[..j], m)
  {
    assert s[..j + 1][..j] == s[..j];
  }

  lemma {:induction false} PendingAtStart(s: seq<House>)
    ensures Pending(s, 0) == s
  {
    if |s| > 0 {
      PendingAtStart(s[..|s| - 1]);
    }
  }

  /** The houses of month m still waiting when month m begins are all the
      starting houses of month m. */
  lemma {:induction false} PendingWithMonth(s: seq<House>, m: int)
    requires 0 <= m
    ensures WithMonth(Pending(s, m), m) == WithMonth(s, m)
  {
    if |s| > 0 {
      var init, h := s[..|s| - 1], s[|s| - 1];
      PendingWithMonth(init, m);
      if !(0 <= h.monthOfPurchase < m) {
        WithMonthAppend(Pending(init, m), [h], m);
        assert [h][..0] == [];
      }
    }
  }

  /** Dropping month m from the houses waiting in month m leaves those
      waiting in month m + 1. */
  lemma {:induction false} PendingWithout(s: seq<House>, m: int)
    requires 0 <= m
    ensures Without(Pending(s, m), m) == Pending(s, m + 1)
  {
    if |s| > 0 {
      var init, h := s[..|s| - 1], s[|s| - 1];
      PendingWithout(init, m);
      if !(0 <= h.monthOfPurchase < m) {
        WithoutAppend(Pending(init, m), [h], m);
        assert [h][..0] == [];
      }
    }
  }

  lemma {:induction false} WithMonthAppend(a: seq<House>, b: seq<House>, m: int)
    ensures WithMonth(a + b, m) == WithMonth(a, m) + WithMonth(b, m)
    decreases |b|
  {
    if |b| > 0 {
      var init := b[..|b| - 1];
      assert (a + b)[..|a + b| - 1] == a + init;
      WithMonthAppend(a, init, m);
    } else {
      assert a + b == a;
    }
  }

  lemma {:induction false} WithoutAppend(a: seq<House>, b: seq<House>, m: int)
    ensures Without(a + b, m) == Without(a, m) + Without(b, m)
    decreases |b|
  {
    if |b| > 0 {
      var init := b[..|b| - 1];
      assert (a + b)[..|a + b| - 1] == a + init;
      WithoutAppend(a, init, m);
    } else {
      assert a + b == a;
    }
  }

  /** Selecting month m twice, or month m after month m', keeps only what
      the second selection allows. */
  lemma {:induction false} WithMonthTwice(s: seq<House>, m: int, m': int)
    ensures WithMonth(WithMonth(s, m'), m) == if m == m' then WithMonth(s, m) else []
  {
    if |s| > 0 {
      var init, h := s[..|s| - 1], s[|s| - 1];
      WithMonthTwice(init, m, m');
      WithMonthAppend(WithMonth(init, m'), if h.monthOfPurchase == m' then [h] else [], m);
    }
  }

  // ---------------------------------------------------------------------
  // What the admission guarantees.

  /** Each month's houses appear exactly as the starting list has them:
      every starting house of a month within the projection is admitted
      once, ties keep their input order, and no house from outside the
      projection is admitted. */
  lemma {:induction false} AdmittedByMonth(s: seq<House>, month: int, last: int, m: int)
    ensures WithMonth(AdmittedFrom(s, month, last), m) == if month <= m <= last then WithMonth(s, m) else []
    decreases last + 1 - month
  {
    if month <= last {
      WithMonthAppend(WithMonth(s, month), AdmittedFrom(s, month + 1, last), m);
      WithMonthTwice(s, m, month);
      AdmittedByMonth(s, month + 1, last, m);
    }
  }

  /** Every house of `a` was bought in a month from `first` to `last`. */
  predicate BoughtWithin(a: seq<House>, first: int, last: int)
  {
    forall i :: 0 <= i < |a| ==> first <= a[i].monthOfPurchase <= last
  }

  /** The houses of `a` run in ascending month of purchase. */
  predicate Ascending(a: seq<House>)
  {
    forall i, j :: 0 <= i < j < |a| ==> a[i].monthOfPurchase <= a[j].monthOfPurchase
  }

  /** The admitted houses run in ascending month of purchase, within the
      months of the projection. */
  lemma {:induction false} AdmittedInOrder(s: seq<House>, month: int, last: int)
    ensures BoughtWithin(AdmittedFrom(s, month, last), month, last)
    ensures Ascending(AdmittedFrom(s, month, last))
    decreases last + 1 - month
  {
    if month <= last {
      AdmittedInOrder(s, month + 1, last);
      var w, rest := WithMonth(s, month), AdmittedFrom(s, month + 1, last);
      var a := w + rest;
      forall i | 0 <= i < |a|
        ensures month <= a[i].monthOfPurchase <= last
        ensures i < |w| ==> a[i].monthOfPurchase == month
        ensures i >= |w| ==> a[i] == rest[i - |w|]
      {
        if i < |w| {
          assert a[i] == w[i];
        } else {
          assert a[i] == rest[i - |w|];
        }
      }
      forall i, j | 0 <= i < j < |a|
        ensures a[i].monthOfPurchase <= a[j].monthOfPurchase
      {
        if j >= |w| && i >= |w| {
          assert rest[i - |w|].monthOfPurchase <= rest[j - |w|].monthOfPurchase;
        }
      }
    }
  }

  /** The admitted houses are, counting repeats, exactly the starting houses
      bought within the projection. */
  lemma {:induction false} AdmittedIsWindow(s: seq<House>, last: int)
    ensures multiset(AdmittedFrom(s, 0, last)) == multiset(Window(s, last))
    decreases if last < 0 then 0 else last + 1
  {
    if last < 0 {
      WindowEmpty(s, last);
    } else {
      AdmittedIsWindow(s, last - 1);
      AdmittedLastMonth(s, 0, last);
      WindowLastMonth(s, last);
    }
  }

  lemma {:induction false} WindowEmpty(s: seq<House>, last: int)
    requires last < 0
    ensures Window(s, last) == []
  {
    if |s| > 0 {
      WindowEmpty(s[..|s| - 1], last);
    }
  }

  /** Extending the projection by one month appends that month's houses. */
  lemma {:induction false} AdmittedLastMonth(s: seq<House>, month: int, last: int)
    requires month <= last
    ensures AdmittedFrom(s, month, last) == AdmittedFrom(s, month, last - 1) + WithMonth(s, last)
    decreases last - month
  {
    if month < last {
      AdmittedLastMonth(s, month + 1, last);
    }
  }

  lemma {:induction false} WindowLastMonth(s: seq<House>, last: int)
    requires 0 <= last
    ensures multiset(Window(s, last)) == multiset(Window(s, last - 1)) + multiset(WithMonth(s, last))
  {
    if |s| > 0 {
      WindowLastMonth(s[..|s| - 1], last);
    }
  }

  /** runSimulation admits every starting house bought within the
      projection exactly once and nothing else, in ascending month of
      purchase with houses of the same month in their input order. */
  lemma Admission(startingHomes: seq<House>, projectionsYears: int)
    ensures var last := projectionsYears * 12;
            multiset(AdmittedFrom(startingHomes, 0, last)) == multiset(Window(startingHomes, last))
            && BoughtWithin(AdmittedFrom(startingHomes, 0, last), 0, last)
            && Ascending(AdmittedFrom(startingHomes, 0, last))
    ensures forall m :: WithMonth(AdmittedFrom(startingHomes, 0, projectionsYears * 12), m)
                     == if 0 <= m <= projectionsYears * 12 then WithMonth(startingHomes, m) else []
  {
    var last := projectionsYears * 12;
    AdmittedIsWindow(startingHomes, last);
    AdmittedInOrder(startingHomes, 0, last);
    forall m
      ensures WithMonth(AdmittedFrom(startingHomes, 0, last), m) == if 0 <= m <= last then WithMonth(startingHomes, m) else []
    {
      AdmittedByMonth(startingHomes, 0, last, m);
    }
  }
}
