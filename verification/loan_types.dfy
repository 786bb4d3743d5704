/**
 * The entities of the loan ledger: loans with their payments, the computed
 * per-loan view, the portfolio summary and the timeline events.
 *
 * Dates are instants (`Dates.Timestamp`) rather than ISO 8601 strings, money is
 * an exact `real`, and a field the source marks optional is an `Option`.
 */
module LoanTypes {
  import opened Dates

  datatype Option<T> = None | Some(value: T)

  /** The five states a loan can be classified into. */
  datatype LoanStatus = Active | DueToday | Overdue | PartiallyPaid | Closed

  datatype Payment = Payment(
    id: string,
    loanId: string,
    amount: real,
    date: Timestamp,
    notes: Option<string>,
    createdAt: Timestamp)

  datatype Borrower = Borrower(name: string, phone: Option<string>)

  datatype Loan = Loan(
    id: string,
    borrower: Borrower,
    principal: real,        // the amount lent
    fixedInterest: real,    // the flat fee for the first 30 days
    startDate: Timestamp,
    dueDate: Timestamp,     // startDate + 30 days when created; moved by extensions
    notes: Option<string>,
    payments: seq<Payment>,
    closedAt: Option<Timestamp>,  // set by a manual close
    createdAt: Timestamp,
    updatedAt: Timestamp)

  /** The computed view of one loan at one instant; never stored. */
  datatype LoanCalculation = LoanCalculation(
    loan: Loan,
    status: LoanStatus,
    daysActive: int,
    daysOverdue: int,
    baseInterest: real,
    extraInterest: real,
    totalInterest: real,
    totalPayable: real,
    totalPaid: real,
    remainingBalance: real,
    dailyInterestRate: real)

  /**
   * The relations between the fields of a computed view that the data model
   * documents: the base interest is the fixed fee, the daily rate is a
   * thirtieth of it, and the totals add up.
   */
  predicate Consistent(c: LoanCalculation)
  {
    && c.baseInterest == c.loan.fixedInterest
    && c.dailyInterestRate == c.loan.fixedInterest / 30.0
    && c.totalInterest == c.baseInterest + c.extraInterest
    && c.totalPayable == c.loan.principal + c.totalInterest
  }

  datatype DashboardSummary = DashboardSummary(
    totalMoneyLent: real,
    totalInterestExpected: real,
    totalInterestEarned: real,   // from closed loans
    totalPending: real,          // still to collect
    activeLoans: int,
    overdueLoans: int,
    closedLoans: int,
    totalLoans: int)

  datatype EventKind = LoanCreated | DueDate | PaymentMade | OverdueNotice | ClosedNotice

  /**
   * What a timeline event's description says. The source renders these
   * through a currency formatter; the model keeps the values.
   */
  datatype EventText =
    | Lent(amount: real, borrowerName: string)
    | PaymentDue(amount: real)
    | PaymentNote(note: string)
    | Received(amount: real)
    | OverdueBy(days: int, extraInterest: real)
    | Collected(amount: real)

  datatype TimelineEvent = TimelineEvent(
    id: string,
    kind: EventKind,
    date: Timestamp,
    title: string,
    description: EventText,
    amount: Option<real>,
    isCompleted: bool)

  /**
   * The input the entry forms guarantee: a positive principal, a fee that is
   * not negative and positive payments.
   */
  predicate ValidPayment(p: Payment)
  {
    p.amount > 0.0
  }

  predicate ValidLoan(loan: Loan)
  {
    && loan.principal > 0.0
    && loan.fixedInterest >= 0.0
    && forall i :: 0 <= i < |loan.payments| ==> ValidPayment(loan.payments[i])
  }

  predicate AllValid(loans: seq<Loan>)
  {
    forall i :: 0 <= i < |loans| ==> ValidLoan(loans[i])
  }
}
