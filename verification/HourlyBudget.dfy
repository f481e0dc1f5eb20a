/**
  The hourly budget of the model router: a charge is accepted if it fits in what is left of the
  current hour, and the first charge more than an hour after the last reset starts a new hour.

  The clock is a parameter.  A call reads it at `now` to decide on a reset and, when it resets,
  again at `later`; the charge counts as made at some moment `at` in between.
*/
module HourlyBudget {
  const HOUR: real := 3600.0

  datatype Tracker = Tracker(budget: real, spent: real, hourStart: real)

  datatype Charge = Charge(cost: real, now: real, at: real, later: real)

  predicate Resets(t: Tracker, c: Charge) {
    c.now - t.hourStart > HOUR
  }

  function Renewed(t: Tracker, c: Charge): Tracker {
    if Resets(t, c) then t.(hourStart := c.later, spent := 0.0) else t
  }

  predicate Accepts(t: Tracker, c: Charge) {
    Renewed(t, c).spent + c.cost <= t.budget
  }

  function Charged(t: Tracker, c: Charge): Tracker {
    var r := Renewed(t, c);
    if Accepts(t, c) then r.(spent := r.spent + c.cost) else r
  }

  class CostTracker {
    const hourlyBudget: real
    var hourlySpent: real
    var hourStart: real

    ghost function View(): Tracker
      reads this
    {
      Tracker(hourlyBudget, hourlySpent, hourStart)
    }

    constructor (budget: real, now: real)
      ensures View() == Tracker(budget, 0.0, now)
    {
      hourlyBudget, hourlySpent, hourStart := budget, 0.0, now;
    }

    method ChargeSync(cost: real, now: real, ghost at: real, later: real) returns (ok: bool)
      modifies this
      ensures ok <==> Accepts(old(View()), Charge(cost, now, at, later))
      ensures View() == Charged(old(View()), Charge(cost, now, at, later))
    {
      if now - hourStart > HOUR {
        hourStart := later;
        hourlySpent := 0.0;
      }
      if hourlySpent + cost > hourlyBudget { return false; }
      hourlySpent := hourlySpent + cost;
      return true;
    }
  }

  // ----- Runs

  /** The tracker before call number `i`. */
  function Before(t: Tracker, calls: seq<Charge>, i: nat): Tracker
    requires i <= |calls|
  {
    if i == 0 then t else Charged(Before(t, calls, i - 1), calls[i - 1])
  }

  /** Costs are not negative, and the clock never goes back, within a call or between calls. */
  ghost predicate IsRun(t: Tracker, calls: seq<Charge>) {
    && (forall i :: 0 <= i < |calls| ==> calls[i].cost >= 0.0 && calls[i].now <= calls[i].at <= calls[i].later)
    && (forall i, j :: 0 <= i < j < |calls| ==> calls[i].later <= calls[j].now)
    && (forall i :: 0 <= i < |calls| ==> t.hourStart <= calls[i].now)
  }

  predicate AcceptedAt(t: Tracker, calls: seq<Charge>, i: nat)
    requires i < |calls|
  {
    Accepts(Before(t, calls, i), calls[i])
  }

  predicate ResetsAt(t: Tracker, calls: seq<Charge>, i: nat)
    requires i < |calls|
  {
    Resets(Before(t, calls, i), calls[i])
  }

  /** The accepted costs of the calls from `lo` up to `hi`. */
  function AcceptedSum(t: Tracker, calls: seq<Charge>, lo: nat, hi: nat): real
    requires lo <= hi <= |calls|
    decreases hi
  {
    if lo == hi then 0.0
    else AcceptedSum(t, calls, lo, hi - 1) + if AcceptedAt(t, calls, hi - 1) then calls[hi - 1].cost else 0.0
  }

  /** The accepted costs made between `from` and one hour later, both ends included. */
  function AcceptedWithin(t: Tracker, calls: seq<Charge>, n: nat, from: real): real
    requires n <= |calls|
  {
    if n == 0 then 0.0
    else
      AcceptedWithin(t, calls, n - 1, from) +
      if AcceptedAt(t, calls, n - 1) && from <= calls[n - 1].at <= from + HOUR then calls[n - 1].cost else 0.0
  }

  /** The amount spent is exactly what was accepted since the last reset. */
  lemma {:induction false} SpentSinceReset(t: Tracker, calls: seq<Charge>, k: nat, n: nat)
    requires t.spent == 0.0 && k < n <= |calls|
    requires k > 0 ==> ResetsAt(t, calls, k)
    requires forall i :: k < i < n ==> !ResetsAt(t, calls, i)
    ensures Before(t, calls, n).spent == AcceptedSum(t, calls, k, n)
    decreases n
  {
    if n > k + 1 {
      SpentSinceReset(t, calls, k, n - 1);
      assert !ResetsAt(t, calls, n - 1);
    } else {
      assert Renewed(Before(t, calls, k), calls[k]).spent == 0.0;
      assert AcceptedSum(t, calls, k, k) == 0.0;
    }
  }

  /** The budget is never overspent between resets. */
  lemma {:induction false} SpentWithinBudget(t: Tracker, calls: seq<Charge>, n: nat)
    requires IsRun(t, calls) && 0.0 <= t.spent <= t.budget && n <= |calls|
    ensures 0.0 <= Before(t, calls, n).spent <= t.budget && Before(t, calls, n).budget == t.budget
  {
    if n > 0 { SpentWithinBudget(t, calls, n - 1); }
  }

  /** What one hour's total may be, given how far the run has come relative to that hour. */
  ghost predicate HourBound(s: Tracker, within: real, from: real, clock: real) {
    || (within <= s.spent && (clock < from ==> within == 0.0))      // no reset inside the hour yet
    || (s.hourStart >= from && within <= s.budget + s.spent)        // one reset inside the hour
    || (clock > from + HOUR && within <= s.budget + s.budget)       // the hour is over
  }

  lemma HourStep(s: Tracker, c: Charge, within: real, from: real, clock: real)
    requires 0.0 <= s.spent <= s.budget && c.cost >= 0.0 && clock <= c.now <= c.at <= c.later
    requires HourBound(s, within, from, clock)
    ensures HourBound(Charged(s, c),
                      within + (if Accepts(s, c) && from <= c.at <= from + HOUR then c.cost else 0.0), from, c.later)
  {
  }

  lemma {:induction false} HourInvariant(t: Tracker, calls: seq<Charge>, n: nat, from: real)
    requires IsRun(t, calls) && 0.0 <= t.spent <= t.budget && n <= |calls|
    ensures n == 0 ==> HourBound(t, 0.0, from, t.hourStart)
    ensures n > 0 ==> HourBound(Before(t, calls, n), AcceptedWithin(t, calls, n, from), from, calls[n - 1].later)
  {
    if n > 0 {
      HourInvariant(t, calls, n - 1, from);
      SpentWithinBudget(t, calls, n - 1);
      var clock := if n == 1 then t.hourStart else calls[n - 2].later;
      HourStep(Before(t, calls, n - 1), calls[n - 1], AcceptedWithin(t, calls, n - 1, from), from, clock);
    }
  }

  /** Whatever the calls, no hour ever carries more than twice the budget. */
  lemma AnyHourAtMostTwiceBudget(t: Tracker, calls: seq<Charge>, from: real)
    requires IsRun(t, calls) && 0.0 <= t.spent <= t.budget
    ensures AcceptedWithin(t, calls, |calls|, from) <= 2.0 * t.budget
  {
    HourInvariant(t, calls, |calls|, from);
    SpentWithinBudget(t, calls, |calls|);
  }

  /** As `HourBound`, for an hour inside which no call resets. */
  ghost predicate QuietBound(s: Tracker, within: real, from: real, clock: real) {
    || (within <= s.spent && (clock < from ==> within == 0.0))
    || (clock > from + HOUR && within <= s.budget)
  }

  predicate InHour(c: Charge, from: real) {
    from <= c.at <= from + HOUR
  }

  lemma QuietStep(s: Tracker, c: Charge, within: real, from: real, clock: real)
    requires 0.0 <= s.spent <= s.budget && c.cost >= 0.0 && clock <= c.now <= c.at <= c.later
    requires QuietBound(s, within, from, clock) && (InHour(c, from) ==> !Resets(s, c))
    ensures QuietBound(Charged(s, c),
                       within + (if Accepts(s, c) && InHour(c, from) then c.cost else 0.0), from, c.later)
  {
  }

  ghost predicate NoResetWithin(t: Tracker, calls: seq<Charge>, from: real) {
    forall i :: 0 <= i < |calls| && InHour(calls[i], from) ==> !ResetsAt(t, calls, i)
  }

  lemma {:induction false} QuietInvariant(t: Tracker, calls: seq<Charge>, n: nat, from: real)
    requires IsRun(t, calls) && 0.0 <= t.spent <= t.budget && n <= |calls| && NoResetWithin(t, calls, from)
    ensures n == 0 ==> QuietBound(t, 0.0, from, t.hourStart)
    ensures n > 0 ==> QuietBound(Before(t, calls, n), AcceptedWithin(t, calls, n, from), from, calls[n - 1].later)
  {
    if n > 0 {
      QuietInvariant(t, calls, n - 1, from);
      SpentWithinBudget(t, calls, n - 1);
      var clock := if n == 1 then t.hourStart else calls[n - 2].later;
      assert InHour(calls[n - 1], from) ==> !ResetsAt(t, calls, n - 1);
      QuietStep(Before(t, calls, n - 1), calls[n - 1], AcceptedWithin(t, calls, n - 1, from), from, clock);
    }
  }

  /** An hour in which no call resets the tracker carries at most the budget. */
  lemma QuietHourWithinBudget(t: Tracker, calls: seq<Charge>, from: real)
    requires IsRun(t, calls) && 0.0 <= t.spent <= t.budget && NoResetWithin(t, calls, from)
    ensures AcceptedWithin(t, calls, |calls|, from) <= t.budget
  {
    QuietInvariant(t, calls, |calls|, from);
    SpentWithinBudget(t, calls, |calls|);
  }

  /** Twice the budget is reached: once just before the hour turns and once just after. */
  lemma TwiceBudgetIsReached(budget: real)
    requires budget >= 0.0
    ensures var t := Tracker(budget, 0.0, 0.0);
            var calls := [Charge(budget, HOUR, HOUR, HOUR), Charge(budget, HOUR + 1.0, HOUR + 1.0, HOUR + 1.0)];
            IsRun(t, calls) && AcceptedWithin(t, calls, 2, HOUR) == 2.0 * budget
  {
    var t := Tracker(budget, 0.0, 0.0);
    var calls := [Charge(budget, HOUR, HOUR, HOUR), Charge(budget, HOUR + 1.0, HOUR + 1.0, HOUR + 1.0)];
    assert Before(t, calls, 0) == t;
    assert Before(t, calls, 1) == Tracker(budget, budget, 0.0);
    assert AcceptedWithin(t, calls, 0, HOUR) == 0.0;
    assert AcceptedWithin(t, calls, 1, HOUR) == budget;
  }

  // ----- Exactly what is accepted

  /** A call resets exactly when it is made more than an hour after the last reset. */
  lemma ResetsAfterAnHour(t: Tracker, calls: seq<Charge>, k: nat, n: nat)
    requires k < n < |calls| && ResetsAt(t, calls, k) && forall i :: k < i < n ==> !ResetsAt(t, calls, i)
    ensures ResetsAt(t, calls, n) <==> calls[n].now - calls[k].later > 3600.0
  {
    HourStartsAtReset(t, calls, k, n);
  }

  /** Or, before the first reset, more than an hour after the tracker was made. */
  lemma {:induction false} FirstResetAfterAnHour(t: Tracker, calls: seq<Charge>, n: nat)
    requires n < |calls| && forall i :: 0 <= i < n ==> !ResetsAt(t, calls, i)
    ensures Before(t, calls, n).hourStart == t.hourStart
    ensures ResetsAt(t, calls, n) <==> calls[n].now - t.hourStart > 3600.0
  {
    if n > 0 {
      FirstResetAfterAnHour(t, calls, n - 1);
      assert !ResetsAt(t, calls, n - 1);
    }
  }

  lemma {:induction false} HourStartsAtReset(t: Tracker, calls: seq<Charge>, k: nat, n: nat)
    requires k < n <= |calls| && ResetsAt(t, calls, k) && forall i :: k < i < n ==> !ResetsAt(t, calls, i)
    ensures Before(t, calls, n).hourStart == calls[k].later
    decreases n
  {
    if n > k + 1 {
      HourStartsAtReset(t, calls, k, n - 1);
      assert !ResetsAt(t, calls, n - 1);
    }
  }

  lemma {:induction false} BudgetStays(t: Tracker, calls: seq<Charge>, n: nat)
    requires n <= |calls|
    ensures Before(t, calls, n).budget == t.budget
  {
    if n > 0 { BudgetStays(t, calls, n - 1); }
  }

  /** A call that resets is accepted exactly when its cost alone is within the budget. */
  lemma AcceptedOnReset(t: Tracker, calls: seq<Charge>, n: nat)
    requires n < |calls| && ResetsAt(t, calls, n)
    ensures AcceptedAt(t, calls, n) <==> calls[n].cost <= t.budget
  {
    BudgetStays(t, calls, n);
  }

  /** Any other call exactly when it fits beside what was accepted since the last reset, at call `k`. */
  lemma AcceptedIfItFits(t: Tracker, calls: seq<Charge>, k: nat, n: nat)
    requires t.spent == 0.0 && k <= n < |calls| && (k > 0 ==> k < n && ResetsAt(t, calls, k))
    requires forall i :: k < i <= n ==> !ResetsAt(t, calls, i)
    ensures AcceptedAt(t, calls, n) <==> AcceptedSum(t, calls, k, n) + calls[n].cost <= t.budget
  {
    BudgetStays(t, calls, n);
    if k < n {
      SpentSinceReset(t, calls, k, n);
      assert !ResetsAt(t, calls, n);
    }
  }

  /** The costs of the first `n` calls, accepted or not. */
  function CostSum(calls: seq<Charge>, n: nat): real
    requires n <= |calls|
  {
    if n == 0 then 0.0 else CostSum(calls, n - 1) + calls[n - 1].cost
  }

  lemma {:induction false} SpentBelowCosts(t: Tracker, calls: seq<Charge>, n: nat)
    requires IsRun(t, calls) && 0.0 <= t.spent && n <= |calls|
    ensures 0.0 <= Before(t, calls, n).spent <= t.spent + CostSum(calls, n)
  {
    if n > 0 { SpentBelowCosts(t, calls, n - 1); }
  }

  lemma {:induction false} CostsGrow(t: Tracker, calls: seq<Charge>, i: nat, n: nat)
    requires IsRun(t, calls) && i <= n <= |calls|
    ensures 0.0 <= CostSum(calls, i) <= CostSum(calls, n)
    decreases n
  {
    if i < n { CostsGrow(t, calls, i, n - 1); } else if n > 0 { CostsGrow(t, calls, n - 1, n - 1); }
  }

  /** Charges that the budget covers altogether are all accepted. */
  lemma AffordableIsAccepted(t: Tracker, calls: seq<Charge>)
    requires IsRun(t, calls) && 0.0 <= t.spent && t.spent + CostSum(calls, |calls|) <= t.budget
    ensures forall i :: 0 <= i < |calls| ==> AcceptedAt(t, calls, i)
  {
    forall i | 0 <= i < |calls| ensures AcceptedAt(t, calls, i) {
      SpentBelowCosts(t, calls, i);
      BudgetStays(t, calls, i);
      CostsGrow(t, calls, i, i);
      CostsGrow(t, calls, i + 1, |calls|);
      assert CostSum(calls, i + 1) == CostSum(calls, i) + calls[i].cost;
    }
  }
}
