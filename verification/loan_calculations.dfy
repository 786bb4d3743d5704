/**
 * The loan accounting engine: status classification, the per-loan interest and
 * balance breakdown, the portfolio summary, the event timeline, the relative
 * date rule and the due-date rule.
 *
 * Every entry point takes the reference instant `asOf` explicitly where the
 * source reads the wall clock, so one call sees one consistent "now".
 */
module LoanCalculations {
  import opened Dates
  import opened LoanTypes
  import Seqs
  import StableSort

  function Max(a: int, b: int): int { if a >= b then a else b }
  function MaxReal(a: real, b: real): real { if a >= b then a else b }
  function MinReal(a: real, b: real): real { if a <= b then a else b }

  // ---------------------------------------------------------------------------
  // Payments

  /** The sum of the payment amounts. */
  function TotalPaid(payments: seq<Payment>): real
    decreases |payments|
  {
    if payments == [] then 0.0 else payments[0].amount + TotalPaid(payments[1..])
  }

  lemma {:induction false} TotalPaidConcat(a: seq<Payment>, b: seq<Payment>)
    ensures TotalPaid(a + b) == TotalPaid(a) + TotalPaid(b)
    decreases |a|
  {
    if a == [] {
      assert a + b == b;
    } else {
      assert (a + b)[0] == a[0];
      assert (a + b)[1..] == a[1..] + b;
      TotalPaidConcat(a[1..], b);
    }
  }

  /** Positive payments never sum to a negative total; any payment makes it positive. */
  lemma {:induction false} TotalPaidNonNegative(payments: seq<Payment>)
    requires forall i :: 0 <= i < |payments| ==> ValidPayment(payments[i])
    ensures TotalPaid(payments) >= 0.0
    ensures payments != [] ==> TotalPaid(payments) > 0.0
    decreases |payments|
  {
    if payments != [] {
      assert forall i :: 0 <= i < |payments[1..]| ==> payments[1..][i] == payments[i + 1];
      TotalPaidNonNegative(payments[1..]);
    }
  }

  // ---------------------------------------------------------------------------
  // Status

  /** Closed by hand, or paid in full. */
  predicate IsSettled(loan: Loan, totalPaid: real, totalPayable: real)
  {
    loan.closedAt.Some? || totalPaid >= totalPayable
  }

  /**
   * The five-way classification, first match wins: settled loans are closed;
   * then a loan due on the as-of day is due today, even if partly paid; then
   * any payment makes it partially paid, before or after the due day; then a
   * loan past its due day is overdue; otherwise it is active.
   */
  function CalculateLoanStatus(loan: Loan, totalPaid: real, totalPayable: real, asOf: Timestamp): (status: LoanStatus)
    ensures status == Closed <==> IsSettled(loan, totalPaid, totalPayable)
    ensures status == DueToday <==>
      !IsSettled(loan, totalPaid, totalPayable) && Day(loan.dueDate) == Day(asOf)
    ensures status == PartiallyPaid <==>
      !IsSettled(loan, totalPaid, totalPayable) && Day(loan.dueDate) != Day(asOf) && totalPaid > 0.0
    ensures status == Overdue <==>
      !IsSettled(loan, totalPaid, totalPayable) && Day(asOf) > Day(loan.dueDate) && totalPaid <= 0.0
    ensures status == Active <==>
      !IsSettled(loan, totalPaid, totalPayable) && Day(asOf) < Day(loan.dueDate) && totalPaid <= 0.0
  {
    var today := StartOfDay(asOf);
    var dueDate := StartOfDay(loan.dueDate);
    if loan.closedAt.Some? || totalPaid >= totalPayable then Closed
    else
      var hasPartialPayments := totalPaid > 0.0 && totalPaid < totalPayable;
      StartOfDayOrder(asOf, loan.dueDate);
      if IsSameDay(dueDate, asOf) then DueToday
      else if today > dueDate then (if hasPartialPayments then PartiallyPaid else Overdue)
      else if hasPartialPayments then PartiallyPaid
      else Active
  }

  // ---------------------------------------------------------------------------
  // Per-loan breakdown

  /** The principal and the fee, plus a thirtieth of the fee for each day overdue. */
  function PayableAfter(loan: Loan, daysOverdue: nat): real
  {
    loan.principal + loan.fixedInterest + daysOverdue as real * (loan.fixedInterest / 30.0)
  }

  /** More days overdue never cost less, at a fee that is not negative. */
  lemma PayableMonotonic(loan: Loan, d1: nat, d2: nat)
    requires d1 <= d2 && loan.fixedInterest >= 0.0
    ensures PayableAfter(loan, d1) <= PayableAfter(loan, d2)
  {
    var rate := loan.fixedInterest / 30.0;
    assert rate >= 0.0;
    assert (d2 - d1) as real * rate >= 0.0;
    assert d2 as real * rate - d1 as real * rate == (d2 - d1) as real * rate;
  }

  /**
   * The interest and balance breakdown of one loan as of one instant: the fixed
   * fee, plus a thirtieth of it for every whole day past the due day, added to
   * the principal; minus everything paid, never below zero.
   */
  function CalculateLoan(loan: Loan, asOf: Timestamp): (c: LoanCalculation)
    ensures c.loan == loan && Consistent(c)
    ensures c.daysActive == Max(0, Day(asOf) - Day(loan.startDate))
    ensures c.daysOverdue == Max(0, Day(asOf) - Day(loan.dueDate))
    ensures c.extraInterest == c.daysOverdue as real * c.dailyInterestRate
    ensures c.totalPayable == PayableAfter(loan, c.daysOverdue)
    ensures Day(asOf) <= Day(loan.dueDate) ==> c.extraInterest == 0.0
    ensures c.totalPaid == TotalPaid(loan.payments)
    ensures c.remainingBalance >= 0.0
    ensures c.remainingBalance == if c.totalPaid < c.totalPayable then c.totalPayable - c.totalPaid else 0.0
    ensures c.status == CalculateLoanStatus(loan, c.totalPaid, c.totalPayable, asOf)
    ensures c.status == Closed <==> loan.closedAt.Some? || c.remainingBalance == 0.0
  {
    var today := StartOfDay(asOf);
    var startDate := StartOfDay(loan.startDate);
    var dueDate := StartOfDay(loan.dueDate);
    DifferenceOfDayStarts(asOf, loan.startDate);
    DifferenceOfDayStarts(asOf, loan.dueDate);
    var daysActive := Max(0, DifferenceInDays(today, startDate));
    var daysOverdue := Max(0, DifferenceInDays(today, dueDate));
    var baseInterest := loan.fixedInterest;
    var dailyInterestRate := loan.fixedInterest / 30.0;
    var extraInterest := if daysOverdue > 0 then daysOverdue as real * dailyInterestRate else 0.0;
    var totalInterest := baseInterest + extraInterest;
    var totalPayable := loan.principal + totalInterest;
    var totalPaid := TotalPaid(loan.payments);
    var remainingBalance := MaxReal(0.0, totalPayable - totalPaid);
    var status := CalculateLoanStatus(loan, totalPaid, totalPayable, asOf);
    LoanCalculation(loan, status, daysActive, daysOverdue, baseInterest, extraInterest,
                    totalInterest, totalPayable, totalPaid, remainingBalance, dailyInterestRate)
  }

  /** The per-loan breakdown of every loan, in list order. */
  function CalculateAll(loans: seq<Loan>, asOf: Timestamp): (r: seq<LoanCalculation>)
    ensures |r| == |loans|
    ensures forall i :: 0 <= i < |loans| ==> r[i] == CalculateLoan(loans[i], asOf)
  {
    seq(|loans|, i requires 0 <= i < |loans| => CalculateLoan(loans[i], asOf))
  }

  lemma DayMonotonic(a: Timestamp, b: Timestamp)
    requires a <= b
    ensures Day(a) <= Day(b)
  {
    assert Day(a) * MsPerDay <= a;
    assert b < (Day(b) + 1) * MsPerDay;
  }

  /** The overdue count never falls as time passes. */
  lemma OverdueGrowsOverTime(loan: Loan, earlier: Timestamp, later: Timestamp)
    requires earlier <= later
    ensures CalculateLoan(loan, earlier).daysOverdue <= CalculateLoan(loan, later).daysOverdue
  {
    DayMonotonic(earlier, later);
  }

  /** The amount owed never shrinks as time passes, for a fee that is not negative. */
  lemma PayableGrowsOverTime(loan: Loan, earlier: Timestamp, later: Timestamp)
    requires loan.fixedInterest >= 0.0
    requires earlier <= later
    ensures CalculateLoan(loan, earlier).totalPayable <= CalculateLoan(loan, later).totalPayable
  {
    OverdueGrowsOverTime(loan, earlier, later);
    PayableMonotonic(loan, CalculateLoan(loan, earlier).daysOverdue, CalculateLoan(loan, later).daysOverdue);
  }

  /** A loan closed by hand stays closed whatever is paid and whenever it is looked at. */
  lemma ManualClosureIsFinal(loan: Loan, asOf: Timestamp)
    requires loan.closedAt.Some?
    ensures CalculateLoan(loan, asOf).status == Closed
    ensures CalculateLoan(loan, asOf).remainingBalance >= 0.0
  {
  }

  /**
   * Closure by full payment is not permanent: paying exactly the principal and
   * the fee before the due day closes the loan, but from the day after the due
   * day the penalty accrues again and the same loan reads as partially paid.
   */
  lemma ImplicitClosureCanReopen()
    ensures var loan := ScenarioLoan([Payment("p1", "L1", 10500.0, 5 * MsPerDay, None, 5 * MsPerDay)]);
      && CalculateLoan(loan, 20 * MsPerDay).status == Closed
      && CalculateLoan(loan, 31 * MsPerDay).status == PartiallyPaid
  {
    var loan := ScenarioLoan([Payment("p1", "L1", 10500.0, 5 * MsPerDay, None, 5 * MsPerDay)]);
    assert TotalPaid(loan.payments) == 10500.0;
    assert Day(20 * MsPerDay) == 20;
    assert Day(31 * MsPerDay) == 31;
    assert Day(loan.dueDate) == 30;
  }

  // ---------------------------------------------------------------------------
  // Concrete scenarios: principal 10000, fee 500, lent at the epoch, due on day 30.

  function ScenarioLoan(payments: seq<Payment>): Loan
  {
    Loan("L1", Borrower("Asha", None), 10000.0, 500.0, 0, CalculateDueDate(0), None,
         payments, None, 0, 0)
  }

  /** Ten days in, nothing paid: active, only the fixed fee is owed. */
  lemma ScenarioBeforeDue()
    ensures var c := CalculateLoan(ScenarioLoan([]), 10 * MsPerDay);
      && c.status == Active && c.totalInterest == 500.0
      && c.totalPayable == 10500.0 && c.remainingBalance == 10500.0
  {
    assert Day(10 * MsPerDay) == 10;
  }

  /** Ten days past the due day, nothing paid: overdue, ten days of penalty. */
  lemma ScenarioOverdue()
    ensures var c := CalculateLoan(ScenarioLoan([]), 40 * MsPerDay);
      && c.status == Overdue && c.daysOverdue == 10
      && c.dailyInterestRate == 50.0 / 3.0 && c.extraInterest == 500.0 / 3.0
      && c.totalPayable == 10500.0 + 500.0 / 3.0
  {
    assert Day(40 * MsPerDay) == 40;
  }

  /** Ten days past the due day, with a payment of 10666.7: closed, nothing remains. */
  lemma ScenarioPaidOff()
    ensures var c := CalculateLoan(ScenarioLoan([Payment("p1", "L1", 10666.7, 40 * MsPerDay, None, 40 * MsPerDay)]), 40 * MsPerDay);
      && c.status == Closed && c.remainingBalance == 0.0
  {
    var loan := ScenarioLoan([Payment("p1", "L1", 10666.7, 40 * MsPerDay, None, 40 * MsPerDay)]);
    assert TotalPaid(loan.payments) == 10666.7;
    assert Day(40 * MsPerDay) == 40;
  }

  /** On the due day itself the loan is due today, even when partly paid. */
  lemma ScenarioDueDay(paid: real)
    requires 0.0 <= paid < 10500.0
    ensures CalculateLoan(ScenarioLoan([Payment("p1", "L1", paid, 0, None, 0)]), 30 * MsPerDay + 3_600_000).status == DueToday
  {
    var loan := ScenarioLoan([Payment("p1", "L1", paid, 0, None, 0)]);
    assert TotalPaid(loan.payments) == paid;
    assert Day(30 * MsPerDay + 3_600_000) == 30;
  }

  // ---------------------------------------------------------------------------
  // Portfolio summary

  const NoLoans: DashboardSummary := DashboardSummary(0.0, 0.0, 0.0, 0.0, 0, 0, 0, 0)

  /** Field-by-field sum of two summaries. */
  function Plus(a: DashboardSummary, b: DashboardSummary): DashboardSummary
  {
    DashboardSummary(
      a.totalMoneyLent + b.totalMoneyLent,
      a.totalInterestExpected + b.totalInterestExpected,
      a.totalInterestEarned + b.totalInterestEarned,
      a.totalPending + b.totalPending,
      a.activeLoans + b.activeLoans,
      a.overdueLoans + b.overdueLoans,
      a.closedLoans + b.closedLoans,
      a.totalLoans + b.totalLoans)
  }

  /**
   * What one computed loan adds to the summary. A closed loan adds the interest
   * part of what was collected, between zero and its total interest; an open
   * one adds its remaining balance and counts as active, as overdue, or both.
   */
  function Contribution(c: LoanCalculation): DashboardSummary
  {
    if c.status == Closed then
      var interestPaid := MinReal(c.totalPaid - c.loan.principal, c.totalInterest);
      DashboardSummary(c.loan.principal, c.totalInterest, MaxReal(0.0, interestPaid), 0.0, 0, 0, 1, 1)
    else
      DashboardSummary(
        c.loan.principal, c.totalInterest, 0.0, c.remainingBalance,
        if c.status == Active || c.status == DueToday || c.status == PartiallyPaid then 1 else 0,
        if c.status == Overdue || (c.status == PartiallyPaid && c.daysOverdue > 0) then 1 else 0,
        0, 1)
  }

  /** A loan the dashboard counts as closed. */
  predicate CountedClosed(c: LoanCalculation)
  {
    c.status == Closed
  }

  /** A loan the dashboard counts as active: active, due today, or partially paid. */
  predicate CountedActive(c: LoanCalculation)
  {
    c.status in {Active, DueToday, PartiallyPaid}
  }

  /** A loan the dashboard counts as overdue: overdue, or partially paid past its due day. */
  predicate CountedOverdue(c: LoanCalculation)
  {
    c.status == Overdue || (c.status == PartiallyPaid && c.daysOverdue > 0)
  }

  /** The shares of `s`, added up in list order. */
  function Tally<T>(s: seq<T>, share: T -> DashboardSummary): DashboardSummary
    decreases |s|
  {
    if s == [] then NoLoans else Plus(Tally(s[..|s| - 1], share), share(s[|s| - 1]))
  }

  function ContributionAsOf(asOf: Timestamp): Loan -> DashboardSummary
  {
    loan => Contribution(CalculateLoan(loan, asOf))
  }

  /** The reference summary: the contributions of all loans, added up. */
  function SummaryOf(loans: seq<Loan>, asOf: Timestamp): DashboardSummary
  {
    Tally(loans, ContributionAsOf(asOf))
  }

  /** The portfolio summary of the loans as of `asOf`: every loan's breakdown, then the totals over them. */
  method CalculateDashboardSummary(loans: seq<Loan>, asOf: Timestamp) returns (summary: DashboardSummary)
    ensures summary == SummaryOf(loans, asOf)
  {
    var calculations := CalculateAll(loans, asOf);
    summary := SumCalculations(calculations);
    SummaryOfCalculations(loans, asOf);
  }

  /** The source's loop: seven running totals over the computed loans, then the list length. */
  method SumCalculations(calculations: seq<LoanCalculation>) returns (summary: DashboardSummary)
    ensures summary == Tally(calculations, Contribution)
  {
    var totalMoneyLent, totalInterestExpected, totalInterestEarned, totalPending := 0.0, 0.0, 0.0, 0.0;
    var activeLoans, overdueLoans, closedLoans := 0, 0, 0;
    for i := 0 to |calculations|
      invariant Tally(calculations[..i], Contribution) ==
        DashboardSummary(totalMoneyLent, totalInterestExpected, totalInterestEarned, totalPending,
                         activeLoans, overdueLoans, closedLoans, i)
    {
      var lc := calculations[i];
      assert calculations[..i + 1][..i] == calculations[..i];
      totalMoneyLent := totalMoneyLent + lc.loan.principal;
      totalInterestExpected := totalInterestExpected + lc.totalInterest;
      if lc.status == Closed {
        closedLoans := closedLoans + 1;
        var interestPaid := MinReal(lc.totalPaid - lc.loan.principal, lc.totalInterest);
        totalInterestEarned := totalInterestEarned + MaxReal(0.0, interestPaid);
      } else {
        totalPending := totalPending + lc.remainingBalance;
        if lc.status == Overdue || (lc.status == PartiallyPaid && lc.daysOverdue > 0) {
          overdueLoans := overdueLoans + 1;
        }
        if lc.status == Active || lc.status == DueToday || lc.status == PartiallyPaid {
          activeLoans := activeLoans + 1;
        }
      }
    }
    assert calculations[..|calculations|] == calculations;
    summary := DashboardSummary(totalMoneyLent, totalInterestExpected, totalInterestEarned, totalPending,
                                activeLoans, overdueLoans, closedLoans, |calculations|);
  }

  /** Summing the contributions of the loans is summing those of their breakdowns. */
  lemma {:induction false} SummaryOfCalculations(loans: seq<Loan>, asOf: Timestamp)
    ensures SummaryOf(loans, asOf) == Tally(CalculateAll(loans, asOf), Contribution)
    decreases |loans|
  {
    if loans != [] {
      var init := loans[..|loans| - 1];
      SummaryOfCalculations(init, asOf);
      var all := CalculateAll(loans, asOf);
      assert all[..|all| - 1] == CalculateAll(init, asOf);
      assert all[|all| - 1] == CalculateLoan(loans[|loans| - 1], asOf);
      assert ContributionAsOf(asOf)(loans[|loans| - 1]) == Contribution(all[|all| - 1]);
    }
  }

  /** The three status counters of the summed breakdowns count the breakdowns of each kind. */
  lemma {:induction false} TallyCountsStatuses(cs: seq<LoanCalculation>)
    ensures Tally(cs, Contribution).closedLoans == Seqs.Count(cs, CountedClosed)
    ensures Tally(cs, Contribution).activeLoans == Seqs.Count(cs, CountedActive)
    ensures Tally(cs, Contribution).overdueLoans == Seqs.Count(cs, CountedOverdue)
    decreases |cs|
  {
    if cs != [] {
      var init, last := cs[..|cs| - 1], cs[|cs| - 1];
      TallyCountsStatuses(init);
      assert cs == init + [last];
      Seqs.CountConcat(init, [last], CountedClosed);
      Seqs.CountConcat(init, [last], CountedActive);
      Seqs.CountConcat(init, [last], CountedOverdue);
      Seqs.CountCons(last, [], CountedClosed);
      Seqs.CountCons(last, [], CountedActive);
      Seqs.CountCons(last, [], CountedOverdue);
      assert [last] + [] == [last];
    }
  }

  /** The summary's closed, active and overdue counts are the numbers of loans of each kind. */
  lemma SummaryStatusCounts(loans: seq<Loan>, asOf: Timestamp)
    ensures var cs := CalculateAll(loans, asOf);
      && SummaryOf(loans, asOf).closedLoans == Seqs.Count(cs, CountedClosed)
      && SummaryOf(loans, asOf).activeLoans == Seqs.Count(cs, CountedActive)
      && SummaryOf(loans, asOf).overdueLoans == Seqs.Count(cs, CountedOverdue)
  {
    SummaryOfCalculations(loans, asOf);
    TallyCountsStatuses(CalculateAll(loans, asOf));
  }

  lemma {:induction false} TallyConcat<T>(a: seq<T>, b: seq<T>, share: T -> DashboardSummary)
    ensures Tally(a + b, share) == Plus(Tally(a, share), Tally(b, share))
    decreases |b|
  {
    if b == [] {
      assert a + b == a;
    } else {
      var b' := b[..|b| - 1];
      assert (a + b)[..|a + b| - 1] == a + b';
      assert (a + b)[|a + b| - 1] == b[|b| - 1];
      TallyConcat(a, b', share);
    }
  }

  /** Adding two summaries to a third does not depend on their order. */
  lemma PlusSwap(a: DashboardSummary, b: DashboardSummary, c: DashboardSummary)
    ensures Plus(Plus(a, b), c) == Plus(Plus(a, c), b)
  {
  }

  lemma TallySingle<T>(x: T, share: T -> DashboardSummary)
    ensures Tally([x], share) == share(x)
  {
    assert [x][..0] == [];
  }

  /** Taking out the item at `j` takes out exactly its share. */
  lemma TallyRemoveAt<T>(b: seq<T>, j: nat, share: T -> DashboardSummary)
    requires j < |b|
    ensures Tally(b, share) == Plus(Tally(b[..j] + b[j + 1..], share), share(b[j]))
  {
    var x, front, back := b[j], b[..j], b[j + 1..];
    var f, k, m := Tally(front, share), Tally(back, share), share(x);
    calc {
      Tally(b, share);
      { assert b == (front + [x]) + back; }
      Tally((front + [x]) + back, share);
      { TallyConcat(front + [x], back, share); }
      Plus(Tally(front + [x], share), k);
      { TallyConcat(front, [x], share); TallySingle(x, share); }
      Plus(Plus(f, m), k);
      { PlusSwap(f, m, k); }
      Plus(Plus(f, k), m);
      { TallyConcat(front, back, share); }
      Plus(Tally(front + back, share), m);
    }
  }

  /** Adding up shares does not depend on the order of the items. */
  lemma {:induction false} TallyPermutation<T>(a: seq<T>, b: seq<T>, share: T -> DashboardSummary)
    requires multiset(a) == multiset(b)
    ensures Tally(a, share) == Tally(b, share)
    decreases |a|
  {
    if a == [] {
      assert |b| == |multiset(b)| == 0;
    } else {
      var x := a[|a| - 1];
      var a' := a[..|a| - 1];
      assert a == a' + [x];
      assert x in multiset(b);
      var j :| 0 <= j < |b| && b[j] == x;
      Seqs.MultisetRemoveAt(b, j);
      assert multiset(a') == multiset(a) - multiset{x};
      TallyPermutation(a', b[..j] + b[j + 1..], share);
      TallyRemoveAt(b, j, share);
    }
  }

  /** The summary does not depend on the order of the loans. */
  lemma SummaryPermutation(a: seq<Loan>, b: seq<Loan>, asOf: Timestamp)
    requires multiset(a) == multiset(b)
    ensures SummaryOf(a, asOf) == SummaryOf(b, asOf)
  {
    TallyPermutation(a, b, ContributionAsOf(asOf));
  }

  /** The shape of one loan's share: one loan, in one or two counters, nothing negative pending. */
  predicate IsShare(d: DashboardSummary)
  {
    && d.totalLoans == 1
    && 0 <= d.activeLoans && 0 <= d.overdueLoans && 0 <= d.closedLoans
    && d.activeLoans + d.closedLoans <= 1
    && d.overdueLoans + d.closedLoans <= 1
    && 1 <= d.activeLoans + d.overdueLoans + d.closedLoans
    && d.totalPending >= 0.0
    && d.totalInterestEarned >= 0.0
  }

  lemma ContributionIsShare(c: LoanCalculation)
    requires c.remainingBalance >= 0.0
    ensures IsShare(Contribution(c))
    ensures c.totalInterest >= 0.0 ==>
      Contribution(c).totalInterestEarned <= Contribution(c).totalInterestExpected
  {
  }

  lemma {:induction false} TallyOfShares<T>(s: seq<T>, share: T -> DashboardSummary)
    requires forall i :: 0 <= i < |s| ==> IsShare(share(s[i]))
    ensures var t := Tally(s, share);
      && t.totalLoans == |s|
      && 0 <= t.activeLoans && 0 <= t.overdueLoans && 0 <= t.closedLoans
      && t.activeLoans + t.closedLoans <= t.totalLoans
      && t.overdueLoans + t.closedLoans <= t.totalLoans
      && t.totalLoans <= t.activeLoans + t.overdueLoans + t.closedLoans
      && t.totalPending >= 0.0
      && t.totalInterestEarned >= 0.0
    decreases |s|
  {
    if s != [] {
      var init := s[..|s| - 1];
      assert forall i :: 0 <= i < |init| ==> init[i] == s[i];
      TallyOfShares(init, share);
      assert IsShare(share(s[|s| - 1]));
    }
  }

  lemma {:induction false} TallyEarnedBound<T>(s: seq<T>, share: T -> DashboardSummary)
    requires forall i :: 0 <= i < |s| ==> share(s[i]).totalInterestEarned <= share(s[i]).totalInterestExpected
    ensures Tally(s, share).totalInterestEarned <= Tally(s, share).totalInterestExpected
    decreases |s|
  {
    if s != [] {
      var init := s[..|s| - 1];
      assert forall i :: 0 <= i < |init| ==> init[i] == s[i];
      TallyEarnedBound(init, share);
      assert share(s[|s| - 1]).totalInterestEarned <= share(s[|s| - 1]).totalInterestExpected;
    }
  }

  /**
   * The counters: one loan per list entry; every loan lands in one or two of
   * the active, overdue and closed counters, and a closed loan in no other.
   * Nothing pending is negative and no interest earned is negative.
   */
  lemma SummaryCounts(loans: seq<Loan>, asOf: Timestamp)
    ensures var s := SummaryOf(loans, asOf);
      && s.totalLoans == |loans|
      && 0 <= s.activeLoans && 0 <= s.overdueLoans && 0 <= s.closedLoans
      && s.activeLoans + s.closedLoans <= s.totalLoans
      && s.overdueLoans + s.closedLoans <= s.totalLoans
      && s.totalLoans <= s.activeLoans + s.overdueLoans + s.closedLoans
      && s.totalPending >= 0.0
      && s.totalInterestEarned >= 0.0
  {
    forall i | 0 <= i < |loans|
      ensures IsShare(ContributionAsOf(asOf)(loans[i]))
    {
      ContributionIsShare(CalculateLoan(loans[i], asOf));
    }
    TallyOfShares(loans, ContributionAsOf(asOf));
  }

  /**
   * For loans whose fee is not negative, the interest earned on closed loans is
   * never more than the interest expected over the whole portfolio.
   */
  lemma SummaryEarnedWithinExpected(loans: seq<Loan>, asOf: Timestamp)
    requires forall i :: 0 <= i < |loans| ==> loans[i].fixedInterest >= 0.0
    ensures SummaryOf(loans, asOf).totalInterestEarned <= SummaryOf(loans, asOf).totalInterestExpected
  {
    forall i | 0 <= i < |loans|
      ensures ContributionAsOf(asOf)(loans[i]).totalInterestEarned
           <= ContributionAsOf(asOf)(loans[i]).totalInterestExpected
    {
      var c := CalculateLoan(loans[i], asOf);
      assert c.extraInterest >= 0.0 by {
        assert c.daysOverdue >= 0 && c.dailyInterestRate >= 0.0;
      }
      ContributionIsShare(c);
    }
    TallyEarnedBound(loans, ContributionAsOf(asOf));
  }

  /**
   * Two loans at day 10: one paid in full (10500 against 10500) and one with
   * nothing paid. Interest earned 500, pending 10500, two loans.
   */
  lemma ScenarioDashboard()
    ensures var s := SummaryOf([ScenarioLoan([Payment("p1", "L1", 10500.0, 5 * MsPerDay, None, 5 * MsPerDay)]),
                                ScenarioLoan([])], 10 * MsPerDay);
      && s.totalInterestEarned == 500.0 && s.totalPending == 10500.0 && s.totalLoans == 2
      && s.closedLoans == 1 && s.activeLoans == 1 && s.overdueLoans == 0
  {
    var paid := ScenarioLoan([Payment("p1", "L1", 10500.0, 5 * MsPerDay, None, 5 * MsPerDay)]);
    var open := ScenarioLoan([]);
    var f := ContributionAsOf(10 * MsPerDay);
    ScenarioShares();
    TallyPair(paid, open, f);
  }

  lemma ScenarioShares()
    ensures Contribution(CalculateLoan(ScenarioLoan([Payment("p1", "L1", 10500.0, 5 * MsPerDay, None, 5 * MsPerDay)]), 10 * MsPerDay))
         == DashboardSummary(10000.0, 500.0, 500.0, 0.0, 0, 0, 1, 1)
    ensures Contribution(CalculateLoan(ScenarioLoan([]), 10 * MsPerDay))
         == DashboardSummary(10000.0, 500.0, 0.0, 10500.0, 1, 0, 0, 1)
  {
    var paid := ScenarioLoan([Payment("p1", "L1", 10500.0, 5 * MsPerDay, None, 5 * MsPerDay)]);
    assert TotalPaid(paid.payments) == 10500.0;
    assert Day(10 * MsPerDay) == 10;
  }

  lemma TallyPair<T>(x: T, y: T, share: T -> DashboardSummary)
    ensures Tally([x, y], share) == Plus(Plus(NoLoans, share(x)), share(y))
  {
    assert [x, y][..1] == [x];
    assert [x][..0] == [];
    assert Tally([x], share) == Plus(Tally([], share), share(x));
    assert Tally([x, y], share) == Plus(Tally([x], share), share(y));
  }

  // ---------------------------------------------------------------------------
  // Timeline

  function CreatedEvent(loan: Loan): TimelineEvent
  {
    TimelineEvent(loan.id + "-created", LoanCreated, loan.startDate, "Loan Given",
                  Lent(loan.principal, loan.borrower.name), Some(loan.principal), true)
  }

  function DueEvent(loan: Loan, asOf: Timestamp): TimelineEvent
  {
    var today := StartOfDay(asOf);
    var dueDate := StartOfDay(loan.dueDate);
    var isDuePassed := dueDate < today || IsSameDay(dueDate, asOf);
    TimelineEvent(loan.id + "-due", DueDate, loan.dueDate,
                  if isDuePassed then "Due Date Passed" else "Due Date",
                  PaymentDue(loan.principal + loan.fixedInterest),
                  Some(loan.principal + loan.fixedInterest), isDuePassed)
  }

  function PaymentEvent(p: Payment): TimelineEvent
  {
    TimelineEvent(p.id, PaymentMade, p.date, "Payment Received",
                  if p.notes.Some? && p.notes.value != "" then PaymentNote(p.notes.value) else Received(p.amount),
                  Some(p.amount), true)
  }

  function OverdueEvent(loan: Loan, c: LoanCalculation): TimelineEvent
  {
    TimelineEvent(loan.id + "-overdue", OverdueNotice, loan.dueDate, "Loan Overdue",
                  OverdueBy(c.daysOverdue, c.extraInterest), Some(c.extraInterest), true)
  }

  function ClosedEvent(loan: Loan, c: LoanCalculation, asOf: Timestamp): TimelineEvent
  {
    TimelineEvent(loan.id + "-closed", ClosedNotice,
                  if loan.closedAt.Some? then loan.closedAt.value else asOf, "Loan Closed",
                  Collected(c.totalPaid), Some(c.totalPaid), true)
  }

  /** One event per payment, in payment order. */
  function PaymentEvents(payments: seq<Payment>): seq<TimelineEvent>
    decreases |payments|
  {
    if payments == [] then []
    else PaymentEvents(payments[..|payments| - 1]) + [PaymentEvent(payments[|payments| - 1])]
  }

  /** An overdue notice is pushed for a loan past its due day that is not closed. */
  predicate HasOverdueNotice(c: LoanCalculation)
  {
    c.daysOverdue > 0 && c.status != Closed
  }

  /** A closing notice is pushed for a loan closed by hand or by payment. */
  predicate HasClosedNotice(loan: Loan, c: LoanCalculation)
  {
    loan.closedAt.Some? || c.status == Closed
  }

  /** The events in the order the source pushes them, given the loan's breakdown `c`. */
  function EventsFor(loan: Loan, asOf: Timestamp, c: LoanCalculation): seq<TimelineEvent>
  {
    [CreatedEvent(loan), DueEvent(loan, asOf)] + PaymentEvents(loan.payments)
    + (if HasOverdueNotice(c) then [OverdueEvent(loan, c)] else [])
    + (if HasClosedNotice(loan, c) then [ClosedEvent(loan, c, asOf)] else [])
  }

  /** The events in the order the source pushes them, before sorting. */
  function PushedEvents(loan: Loan, asOf: Timestamp): seq<TimelineEvent>
  {
    EventsFor(loan, asOf, CalculateLoan(loan, asOf))
  }

  /** Sort key for most recent first: the negated instant. */
  function NewestFirst(e: TimelineEvent): real
  {
    -(e.date as real)
  }

  /** The timeline as shown: the pushed events, stably sorted most recent first. */
  function LoanTimeline(loan: Loan, asOf: Timestamp): seq<TimelineEvent>
  {
    StableSort.SortBy(PushedEvents(loan, asOf), NewestFirst)
  }

  /** The pushing part of the source's timeline builder, one event at a time. */
  method PushEvents(loan: Loan, asOf: Timestamp, c: LoanCalculation) returns (events: seq<TimelineEvent>)
    ensures events == EventsFor(loan, asOf, c)
  {
    events := [];
    events := events + [CreatedEvent(loan)];
    events := events + [DueEvent(loan, asOf)];
    for i := 0 to |loan.payments|
      invariant events == [CreatedEvent(loan), DueEvent(loan, asOf)] + PaymentEvents(loan.payments[..i])
    {
      assert loan.payments[..i + 1][..i] == loan.payments[..i];
      events := events + [PaymentEvent(loan.payments[i])];
    }
    assert loan.payments[..|loan.payments|] == loan.payments;
    if c.daysOverdue > 0 && c.status != Closed {
      events := events + [OverdueEvent(loan, c)];
    }
    if loan.closedAt.Some? || c.status == Closed {
      events := events + [ClosedEvent(loan, c, asOf)];
    }
  }

  method GenerateLoanTimeline(loan: Loan, asOf: Timestamp) returns (timeline: seq<TimelineEvent>)
    ensures timeline == LoanTimeline(loan, asOf)
  {
    var c := CalculateLoan(loan, asOf);
    var events := PushEvents(loan, asOf, c);
    timeline := StableSort.SortBy(events, NewestFirst);
  }

  /** How many events of one kind a list holds. */
  function CountKind(events: seq<TimelineEvent>, kind: EventKind): nat
  {
    Seqs.Count(events, (e: TimelineEvent) => e.kind == kind)
  }

  lemma {:induction false} PaymentEventsMatch(payments: seq<Payment>)
    ensures |PaymentEvents(payments)| == |payments|
    ensures forall i :: 0 <= i < |payments| ==>
      PaymentEvents(payments)[i] == PaymentEvent(payments[i])
    decreases |payments|
  {
    if payments != [] {
      PaymentEventsMatch(payments[..|payments| - 1]);
    }
  }

  lemma PaymentEventsCount(payments: seq<Payment>, kind: EventKind)
    ensures CountKind(PaymentEvents(payments), kind) == if kind == PaymentMade then |payments| else 0
  {
    PaymentEventsMatch(payments);
    Seqs.CountUniform(PaymentEvents(payments), (e: TimelineEvent) => e.kind == kind);
  }

  /** Per kind, how many events are pushed for a loan with breakdown `c`. */
  lemma EventsForCounts(loan: Loan, asOf: Timestamp, c: LoanCalculation, kind: EventKind)
    ensures CountKind(EventsFor(loan, asOf, c), kind) ==
      (if kind == LoanCreated || kind == DueDate then 1 else 0)
      + (if kind == PaymentMade then |loan.payments| else 0)
      + (if kind == OverdueNotice && HasOverdueNotice(c) then 1 else 0)
      + (if kind == ClosedNotice && HasClosedNotice(loan, c) then 1 else 0)
  {
    var head := [CreatedEvent(loan), DueEvent(loan, asOf)];
    var pays := PaymentEvents(loan.payments);
    var over := if HasOverdueNotice(c) then [OverdueEvent(loan, c)] else [];
    var closed := if HasClosedNotice(loan, c) then [ClosedEvent(loan, c, asOf)] else [];
    assert EventsFor(loan, asOf, c) == head + pays + over + closed;
    PaymentEventsMatch(loan.payments);
    KindCountOfParts(head, pays, over, closed, kind);
  }

  /** Kind counts of a list made of the two opening events, payment events, overdue notices and closing notices. */
  lemma KindCountOfParts(head: seq<TimelineEvent>, pays: seq<TimelineEvent>, over: seq<TimelineEvent>,
                         closed: seq<TimelineEvent>, kind: EventKind)
    requires |head| == 2 && head[0].kind == LoanCreated && head[1].kind == DueDate
    requires forall i :: 0 <= i < |pays| ==> pays[i].kind == PaymentMade
    requires forall i :: 0 <= i < |over| ==> over[i].kind == OverdueNotice
    requires forall i :: 0 <= i < |closed| ==> closed[i].kind == ClosedNotice
    ensures CountKind(head + pays + over + closed, kind) ==
      (if kind == LoanCreated || kind == DueDate then 1 else 0)
      + (if kind == PaymentMade then |pays| else 0)
      + (if kind == OverdueNotice then |over| else 0)
      + (if kind == ClosedNotice then |closed| else 0)
  {
    var p := (e: TimelineEvent) => e.kind == kind;
    Seqs.CountConcat(head + pays + over, closed, p);
    Seqs.CountConcat(head + pays, over, p);
    Seqs.CountConcat(head, pays, p);
    Seqs.CountCons(head[0], head[1..], p);
    Seqs.CountUniform(head[1..], p);
    Seqs.CountUniform(pays, p);
    Seqs.CountUniform(over, p);
    Seqs.CountUniform(closed, p);
  }

  /** Every event kind occurs in the timeline as often as it was pushed. */
  lemma TimelineCountsArePushedCounts(loan: Loan, asOf: Timestamp, kind: EventKind)
    ensures CountKind(LoanTimeline(loan, asOf), kind) == CountKind(PushedEvents(loan, asOf), kind)
  {
    Seqs.CountPermutation(LoanTimeline(loan, asOf), PushedEvents(loan, asOf), (e: TimelineEvent) => e.kind == kind);
  }

  /**
   * The timeline holds one creation event, one due-date event, one event per
   * payment, an overdue event exactly when the loan is past due and not closed,
   * and a closing event exactly when it is closed; hence never both of the last two.
   */
  lemma TimelineContents(loan: Loan, asOf: Timestamp)
    ensures var t, c := LoanTimeline(loan, asOf), CalculateLoan(loan, asOf);
      && CountKind(t, LoanCreated) == 1
      && CountKind(t, DueDate) == 1
      && CountKind(t, PaymentMade) == |loan.payments|
      && CountKind(t, OverdueNotice) == (if c.daysOverdue > 0 && c.status != Closed then 1 else 0)
      && CountKind(t, ClosedNotice) == (if c.status == Closed then 1 else 0)
      && CountKind(t, OverdueNotice) + CountKind(t, ClosedNotice) <= 1
      && |t| == 2 + |loan.payments| + (if c.status == Closed || c.daysOverdue > 0 then 1 else 0)
  {
    var c := CalculateLoan(loan, asOf);
    assert loan.closedAt.Some? ==> c.status == Closed;
    EventsForCounts(loan, asOf, c, LoanCreated);
    EventsForCounts(loan, asOf, c, DueDate);
    EventsForCounts(loan, asOf, c, PaymentMade);
    EventsForCounts(loan, asOf, c, OverdueNotice);
    EventsForCounts(loan, asOf, c, ClosedNotice);
    TimelineCountsArePushedCounts(loan, asOf, LoanCreated);
    TimelineCountsArePushedCounts(loan, asOf, DueDate);
    TimelineCountsArePushedCounts(loan, asOf, PaymentMade);
    TimelineCountsArePushedCounts(loan, asOf, OverdueNotice);
    TimelineCountsArePushedCounts(loan, asOf, ClosedNotice);
    var pushed := EventsFor(loan, asOf, c);
    PaymentEventsMatch(loan.payments);
    assert |pushed| == 2 + |loan.payments| + (if HasOverdueNotice(c) then 1 else 0)
                      + (if HasClosedNotice(loan, c) then 1 else 0);
    assert |LoanTimeline(loan, asOf)| == |multiset(LoanTimeline(loan, asOf))| == |multiset(pushed)|;
  }

  /** Most recent first: the dates never increase along the timeline. */
  lemma TimelineNewestFirst(loan: Loan, asOf: Timestamp)
    ensures var t := LoanTimeline(loan, asOf);
      forall i, j :: 0 <= i < j < |t| ==> t[i].date >= t[j].date
  {
    var t := LoanTimeline(loan, asOf);
    forall i, j | 0 <= i < j < |t|
      ensures t[i].date >= t[j].date
    {
      assert NewestFirst(t[i]) <= NewestFirst(t[j]);
    }
  }

  /**
   * Events on the same instant keep the order in which they were pushed: for
   * any pushed list and any sort-key value `k` (a negated instant), the events
   * with that key come out of the newest-first sort in their pushed order. The
   * timeline is this sort applied to `PushedEvents`.
   */
  lemma TimelineTiesInPushOrder(pushed: seq<TimelineEvent>, k: real)
    ensures StableSort.WithKey(StableSort.SortBy(pushed, NewestFirst), NewestFirst, k)
         == StableSort.WithKey(pushed, NewestFirst, k)
  {
    StableSort.SortByStable(pushed, NewestFirst, k);
  }

  /**
   * The due-date events of `t` sit on the due date, ask for principal plus fee,
   * and are completed exactly when the due day is the as-of day or earlier;
   * every payment shows up in `t` as a payment event with its id, date and amount.
   */
  predicate DetailsHold(loan: Loan, asOf: Timestamp, t: seq<TimelineEvent>)
  {
    && (forall e | e in t && e.kind == DueDate ::
          && e.date == loan.dueDate
          && e.amount == Some(loan.principal + loan.fixedInterest)
          && (e.isCompleted <==> Day(loan.dueDate) <= Day(asOf)))
    && (forall i | 0 <= i < |loan.payments| :: PaymentShownIn(loan.payments[i], t))
  }

  /** Some event of `t` shows the payment `p`. */
  predicate PaymentShownIn(p: Payment, t: seq<TimelineEvent>)
  {
    exists e :: e in t && ShowsPayment(e, p)
  }

  /** `e` is a payment event carrying the id, date and amount of `p`. */
  predicate ShowsPayment(e: TimelineEvent, p: Payment)
  {
    e.kind == PaymentMade && e.id == p.id && e.date == p.date && e.amount == Some(p.amount)
  }

  lemma EventsForDetails(loan: Loan, asOf: Timestamp, c: LoanCalculation)
    ensures DetailsHold(loan, asOf, EventsFor(loan, asOf, c))
  {
    var pushed := EventsFor(loan, asOf, c);
    var head := [CreatedEvent(loan), DueEvent(loan, asOf)];
    var pays := PaymentEvents(loan.payments);
    var tail := (if HasOverdueNotice(c) then [OverdueEvent(loan, c)] else [])
              + (if HasClosedNotice(loan, c) then [ClosedEvent(loan, c, asOf)] else []);
    assert pushed == head + pays + tail;
    PaymentEventsMatch(loan.payments);
    forall e | e in pushed && e.kind == DueDate
      ensures e == DueEvent(loan, asOf)
    {
      assert e in head || e in pays || e in tail;
    }
    assert DueEvent(loan, asOf).isCompleted <==> Day(loan.dueDate) <= Day(asOf) by {
      StartOfDayOrder(loan.dueDate, asOf);
    }
    forall i | 0 <= i < |loan.payments|
      ensures PaymentShownIn(loan.payments[i], pushed)
    {
      assert pushed[2 + i] == pays[i] == PaymentEvent(loan.payments[i]);
      assert pushed[2 + i] in pushed && ShowsPayment(pushed[2 + i], loan.payments[i]);
    }
  }

  /** The details depend only on which events are present. */
  lemma DetailsHoldSameMembers(loan: Loan, asOf: Timestamp, s: seq<TimelineEvent>, t: seq<TimelineEvent>)
    requires forall e :: e in t <==> e in s
    requires DetailsHold(loan, asOf, s)
    ensures DetailsHold(loan, asOf, t)
  {
    forall e | e in t && e.kind == DueDate
      ensures e.date == loan.dueDate && e.amount == Some(loan.principal + loan.fixedInterest)
      ensures e.isCompleted <==> Day(loan.dueDate) <= Day(asOf)
    {
      assert e in s;
    }
    forall i | 0 <= i < |loan.payments|
      ensures PaymentShownIn(loan.payments[i], t)
    {
      assert PaymentShownIn(loan.payments[i], s);
      var e :| e in s && ShowsPayment(e, loan.payments[i]);
      assert e in t;
    }
  }

  /**
   * The due-date event of every timeline sits on the due date, asks for
   * principal plus fee and is completed exactly when the due day has come;
   * every payment shows up as an event with its id, date and amount.
   */
  lemma TimelineEventDetails(loan: Loan, asOf: Timestamp)
    ensures DetailsHold(loan, asOf, LoanTimeline(loan, asOf))
  {
    var pushed := PushedEvents(loan, asOf);
    EventsForDetails(loan, asOf, CalculateLoan(loan, asOf));
    StableSort.SortByMembers(pushed, NewestFirst);
    DetailsHoldSameMembers(loan, asOf, pushed, LoanTimeline(loan, asOf));
  }

  // ---------------------------------------------------------------------------
  // Due date and relative dates

  /** The due date of a loan started at `startDate`: thirty days later, same time of day. */
  function CalculateDueDate(startDate: Timestamp): (due: Timestamp)
    ensures Day(due) == Day(startDate) + 30
    ensures DifferenceInDays(due, startDate) == 30
    ensures due - StartOfDay(due) == startDate - StartOfDay(startDate)
  {
    AddDays(startDate, 30)
  }

  datatype RelativeDate =
    | Today
    | Tomorrow
    | Yesterday
    | InDays(days: int)
    | DaysAgo(days: int)
    | OnDate(date: Timestamp)   // shown as an absolute date

  /**
   * How a date is described relative to `now`, by the number of full 24-hour
   * periods between them: the same period is today, one either way is tomorrow
   * or yesterday, up to seven is "in N days" or "N days ago", beyond that the
   * date itself.
   */
  function FormatDateRelative(date: Timestamp, now: Timestamp): (r: RelativeDate)
    ensures r == Today <==> -MsPerDay < date - now < MsPerDay
    ensures r == Tomorrow <==> MsPerDay <= date - now < 2 * MsPerDay
    ensures r == Yesterday <==> -2 * MsPerDay < date - now <= -MsPerDay
    ensures r.InDays? <==> 2 * MsPerDay <= date - now < 8 * MsPerDay
    ensures r.InDays? ==> 2 <= r.days <= 7 && r.days * MsPerDay <= date - now < (r.days + 1) * MsPerDay
    ensures r.DaysAgo? <==> -8 * MsPerDay < date - now <= -2 * MsPerDay
    ensures r.DaysAgo? ==> 2 <= r.days <= 7 && -(r.days + 1) * MsPerDay < date - now <= -r.days * MsPerDay
    ensures r.OnDate? <==> date - now <= -8 * MsPerDay || 8 * MsPerDay <= date - now
    ensures r.OnDate? ==> r.date == date
  {
    var diffDays := DifferenceInDays(date, now);
    if diffDays == 0 then Today
    else if diffDays == 1 then Tomorrow
    else if diffDays == -1 then Yesterday
    else if diffDays > 0 && diffDays <= 7 then InDays(diffDays)
    else if diffDays < 0 && diffDays >= -7 then DaysAgo(-diffDays)
    else OnDate(date)
  }

  /** A date the same distance ahead or behind is described in mirrored words. */
  lemma FormatDateRelativeMirror(now: Timestamp, offset: int)
    ensures FormatDateRelative(now + offset, now) == Today <==> FormatDateRelative(now - offset, now) == Today
    ensures FormatDateRelative(now + offset, now) == Tomorrow <==> FormatDateRelative(now - offset, now) == Yesterday
    ensures forall n :: FormatDateRelative(now + offset, now) == InDays(n) <==> FormatDateRelative(now - offset, now) == DaysAgo(n)
  {
    DifferenceAntisymmetric(now + offset, now);
    DifferenceAntisymmetric(now - offset, now);
    assert DifferenceInDays(now + offset, now) == -DifferenceInDays(now - offset, now);
  }
}
