/**
 * The loan store: the list of loans and the operations that replace it, one
 * whole list at a time (add, update, delete, extend and close loans; add and
 * delete payments; look a loan up).
 *
 * Identifiers and clock readings that the source generates itself become
 * parameters: `id`/`paymentId` stand for a freshly generated identifier and
 * `now` for the instant the operation happens.
 */
module LoanStore {
  import opened Dates
  import opened LoanTypes
  import Seqs
  import opened LoanCalculations

  // ---------------------------------------------------------------------------
  // Inputs

  /** What the add-loan form supplies: a loan without id, payments, due date and stamps. */
  datatype LoanDraft = LoanDraft(
    borrower: Borrower,
    principal: real,
    fixedInterest: real,
    startDate: Timestamp,
    notes: Option<string>,
    closedAt: Option<Timestamp>)

  predicate ValidDraft(d: LoanDraft)
  {
    d.principal > 0.0 && d.fixedInterest >= 0.0
  }

  /** One field of a partial update: left alone, or given a new value. */
  datatype Update<T> = Keep | Set(value: T)

  function Apply<T>(u: Update<T>, current: T): T
  {
    if u.Set? then u.value else current
  }

  /**
   * A partial loan: every field may be present or absent. For the optional
   * fields a present `None` stands for an explicit `undefined`, which clears
   * the field when spread over the loan.
   */
  datatype LoanPatch = LoanPatch(
    id: Update<string>,
    borrower: Update<Borrower>,
    principal: Update<real>,
    fixedInterest: Update<real>,
    startDate: Update<Timestamp>,
    dueDate: Update<Timestamp>,
    notes: Update<Option<string>>,
    payments: Update<seq<Payment>>,
    closedAt: Update<Option<Timestamp>>,
    createdAt: Update<Timestamp>,
    updatedAt: Update<Timestamp>)

  const EmptyPatch: LoanPatch := LoanPatch(Keep, Keep, Keep, Keep, Keep, Keep, Keep, Keep, Keep, Keep, Keep)

  /** The values a patch writes keep a loan within what the entry forms allow. */
  predicate ValidPatch(p: LoanPatch)
  {
    && (p.principal.Set? ==> p.principal.value > 0.0)
    && (p.fixedInterest.Set? ==> p.fixedInterest.value >= 0.0)
    && (p.payments.Set? ==> forall i :: 0 <= i < |p.payments.value| ==> ValidPayment(p.payments.value[i]))
  }

  // ---------------------------------------------------------------------------
  // One loan

  /** A new loan from a draft: due thirty days after its start, no payments yet. */
  function NewLoan(draft: LoanDraft, id: string, now: Timestamp): (loan: Loan)
    ensures loan.id == id && loan.payments == []
    ensures loan.dueDate == CalculateDueDate(draft.startDate)
    ensures Day(loan.dueDate) == Day(draft.startDate) + 30
    ensures loan.dueDate - StartOfDay(loan.dueDate) == draft.startDate - StartOfDay(draft.startDate)
    ensures DifferenceInDays(loan.dueDate, loan.startDate) == 30
    ensures loan.createdAt == loan.updatedAt == now
    ensures loan.borrower == draft.borrower && loan.principal == draft.principal
    ensures loan.fixedInterest == draft.fixedInterest && loan.startDate == draft.startDate
    ensures loan.notes == draft.notes && loan.closedAt == draft.closedAt
    ensures ValidDraft(draft) ==> ValidLoan(loan)
  {
    Loan(id, draft.borrower, draft.principal, draft.fixedInterest, draft.startDate,
         CalculateDueDate(draft.startDate), draft.notes, [], draft.closedAt, now, now)
  }

  /**
   * The patch spread over the loan, stamped with `now`. When the patch carries
   * a start date different from the current one, the due date is recomputed
   * from it, overriding any due date in the patch.
   */
  function PatchLoan(loan: Loan, patch: LoanPatch, now: Timestamp): (r: Loan)
    ensures r.updatedAt == now
    ensures r.id == Apply(patch.id, loan.id) && r.borrower == Apply(patch.borrower, loan.borrower)
    ensures r.principal == Apply(patch.principal, loan.principal)
    ensures r.fixedInterest == Apply(patch.fixedInterest, loan.fixedInterest)
    ensures r.startDate == Apply(patch.startDate, loan.startDate) && r.notes == Apply(patch.notes, loan.notes)
    ensures r.payments == Apply(patch.payments, loan.payments)
    ensures r.closedAt == Apply(patch.closedAt, loan.closedAt) && r.createdAt == Apply(patch.createdAt, loan.createdAt)
    ensures patch.startDate.Set? && patch.startDate.value != loan.startDate ==>
      r.dueDate == CalculateDueDate(patch.startDate.value)
      && Day(r.dueDate) == Day(patch.startDate.value) + 30
    ensures !(patch.startDate.Set? && patch.startDate.value != loan.startDate) ==>
      r.dueDate == Apply(patch.dueDate, loan.dueDate)
    ensures ValidLoan(loan) && ValidPatch(patch) ==> ValidLoan(r)
  {
    var spread := Loan(
      Apply(patch.id, loan.id),
      Apply(patch.borrower, loan.borrower),
      Apply(patch.principal, loan.principal),
      Apply(patch.fixedInterest, loan.fixedInterest),
      Apply(patch.startDate, loan.startDate),
      Apply(patch.dueDate, loan.dueDate),
      Apply(patch.notes, loan.notes),
      Apply(patch.payments, loan.payments),
      Apply(patch.closedAt, loan.closedAt),
      Apply(patch.createdAt, loan.createdAt),
      now);
    if patch.startDate.Set? && patch.startDate.value != loan.startDate then
      spread.(dueDate := CalculateDueDate(patch.startDate.value))
    else spread
  }

  /** The loan with its due date thirty days later. */
  function Extended(loan: Loan, now: Timestamp): (r: Loan)
    ensures Day(r.dueDate) == Day(loan.dueDate) + 30
    ensures r.dueDate - StartOfDay(r.dueDate) == loan.dueDate - StartOfDay(loan.dueDate)
    ensures r.(dueDate := loan.dueDate, updatedAt := loan.updatedAt) == loan
    ensures r.updatedAt == now
  {
    loan.(dueDate := AddDays(loan.dueDate, 30), updatedAt := now)
  }

  /** The loan closed by hand at `now`. */
  function MarkClosed(loan: Loan, now: Timestamp): (r: Loan)
    ensures r.closedAt == Some(now) && r.updatedAt == now
    ensures r.(closedAt := loan.closedAt, updatedAt := loan.updatedAt) == loan
  {
    loan.(closedAt := Some(now), updatedAt := now)
  }

  /** The loan with `p` recorded after its earlier payments. */
  function WithPayment(loan: Loan, p: Payment, now: Timestamp): (r: Loan)
    ensures |r.payments| == |loan.payments| + 1
    ensures r.payments[..|loan.payments|] == loan.payments && r.payments[|loan.payments|] == p
    ensures r.(payments := loan.payments, updatedAt := loan.updatedAt) == loan
    ensures r.updatedAt == now
  {
    loan.(payments := loan.payments + [p], updatedAt := now)
  }

  function PaymentIdIsNot(paymentId: string): Payment -> bool
  {
    (p: Payment) => p.id != paymentId
  }

  function PaymentIdIs(paymentId: string): Payment -> bool
  {
    (p: Payment) => p.id == paymentId
  }

  /** The loan without its payments carrying `paymentId`, the others in their order. */
  function WithoutPayment(loan: Loan, paymentId: string, now: Timestamp): (r: Loan)
    ensures forall i :: 0 <= i < |r.payments| ==> r.payments[i].id != paymentId
    ensures forall i :: 0 <= i < |loan.payments| && loan.payments[i].id != paymentId ==>
      loan.payments[i] in r.payments
    ensures Seqs.IsSubsequence(r.payments, loan.payments)
    ensures |r.payments| == Seqs.Count(loan.payments, PaymentIdIsNot(paymentId))
    ensures r.(payments := loan.payments, updatedAt := loan.updatedAt) == loan
    ensures r.updatedAt == now
  {
    Seqs.FilterLength(loan.payments, PaymentIdIsNot(paymentId));
    loan.(payments := Seqs.Filter(loan.payments, PaymentIdIsNot(paymentId)), updatedAt := now)
  }

  // ---------------------------------------------------------------------------
  // The list

  /** Applies `f` to every loan with the given id; the others stay as they are, in place. */
  function UpdateMatching(loans: seq<Loan>, id: string, f: Loan -> Loan): (r: seq<Loan>)
    ensures |r| == |loans|
    ensures forall i :: 0 <= i < |r| ==> r[i] == if loans[i].id == id then f(loans[i]) else loans[i]
  {
    seq(|loans|, i requires 0 <= i < |loans| => if loans[i].id == id then f(loans[i]) else loans[i])
  }

  function LoanIdIsNot(id: string): Loan -> bool
  {
    (l: Loan) => l.id != id
  }

  /** The loans whose id is not `id`, in their order. */
  function LoansWithout(loans: seq<Loan>, id: string): (r: seq<Loan>)
    ensures forall i :: 0 <= i < |r| ==> r[i].id != id
    ensures forall i :: 0 <= i < |loans| && loans[i].id != id ==> loans[i] in r
    ensures Seqs.IsSubsequence(r, loans)
    ensures |r| == Seqs.Count(loans, LoanIdIsNot(id))
    ensures multiset(r) <= multiset(loans)
  {
    Seqs.FilterLength(loans, LoanIdIsNot(id));
    Seqs.Filter(loans, LoanIdIsNot(id))
  }

  /** The first loan with the given id, if there is one. */
  function FindLoan(loans: seq<Loan>, id: string): (r: Option<Loan>)
    ensures r.None? <==> forall i :: 0 <= i < |loans| ==> loans[i].id != id
    ensures r.Some? ==> exists i :: 0 <= i < |loans| && loans[i] == r.value && r.value.id == id
                                  && forall j :: 0 <= j < i ==> loans[j].id != id
    decreases |loans|
  {
    if loans == [] then None
    else if loans[0].id == id then Some(loans[0])
    else
      var r := FindLoan(loans[1..], id);
      assert forall i :: 0 < i < |loans| ==> loans[1..][i - 1] == loans[i];
      if r.Some? then
        ghost var k :| 0 <= k < |loans[1..]| && loans[1..][k] == r.value && r.value.id == id
                      && forall j :: 0 <= j < k ==> loans[1..][j].id != id;
        assert loans[k + 1] == r.value;
        assert forall j :: 0 <= j < k + 1 ==> loans[j].id != id by {
          forall j | 0 <= j < k + 1
            ensures loans[j].id != id
          {
            if j > 0 {
              assert loans[j] == loans[1..][j - 1];
            }
          }
        }
        r
      else r
  }

  lemma UpdateMatchingKeepsValid(loans: seq<Loan>, id: string, f: Loan -> Loan)
    requires AllValid(loans)
    requires forall i :: 0 <= i < |loans| && loans[i].id == id ==> ValidLoan(f(loans[i]))
    ensures AllValid(UpdateMatching(loans, id, f))
  {
  }

  // ---------------------------------------------------------------------------
  // The store

  class Store {
    var loans: seq<Loan>

    constructor()
      ensures loans == []
    {
      loans := [];
    }

    /** Puts the new loan in front of the others and returns it. */
    method AddLoan(draft: LoanDraft, id: string, now: Timestamp) returns (newLoan: Loan)
      modifies this
      ensures newLoan == NewLoan(draft, id, now)
      ensures loans == [newLoan] + old(loans)
      ensures ValidDraft(draft) && AllValid(old(loans)) ==> AllValid(loans)
    {
      newLoan := NewLoan(draft, id, now);
      loans := [newLoan] + loans;
    }

    method UpdateLoan(id: string, patch: LoanPatch, now: Timestamp)
      modifies this
      ensures |loans| == |old(loans)|
      ensures forall i :: 0 <= i < |loans| ==>
        loans[i] == if old(loans)[i].id == id then PatchLoan(old(loans)[i], patch, now) else old(loans)[i]
      ensures ValidPatch(patch) && AllValid(old(loans)) ==> AllValid(loans)
    {
      loans := UpdateMatching(loans, id, l => PatchLoan(l, patch, now));
    }

    method DeleteLoan(id: string)
      modifies this
      ensures loans == LoansWithout(old(loans), id)
    {
      loans := LoansWithout(loans, id);
    }

    method ExtendLoan(id: string, now: Timestamp)
      modifies this
      ensures |loans| == |old(loans)|
      ensures forall i :: 0 <= i < |loans| ==>
        loans[i] == if old(loans)[i].id == id then Extended(old(loans)[i], now) else old(loans)[i]
      ensures AllValid(old(loans)) ==> AllValid(loans)
    {
      loans := UpdateMatching(loans, id, l => Extended(l, now));
    }

    method CloseLoan(id: string, now: Timestamp)
      modifies this
      ensures |loans| == |old(loans)|
      ensures forall i :: 0 <= i < |loans| ==>
        loans[i] == if old(loans)[i].id == id then MarkClosed(old(loans)[i], now) else old(loans)[i]
      ensures AllValid(old(loans)) ==> AllValid(loans)
    {
      loans := UpdateMatching(loans, id, l => MarkClosed(l, now));
    }

    /** Records a payment on the loan `loanId` and returns it. */
    method AddPayment(loanId: string, paymentId: string, amount: real, date: Timestamp,
                      notes: Option<string>, now: Timestamp) returns (payment: Payment)
      modifies this
      ensures payment == Payment(paymentId, loanId, amount, date, notes, now)
      ensures |loans| == |old(loans)|
      ensures forall i :: 0 <= i < |loans| ==>
        loans[i] == if old(loans)[i].id == loanId then WithPayment(old(loans)[i], payment, now) else old(loans)[i]
      ensures amount > 0.0 && AllValid(old(loans)) ==> AllValid(loans)
    {
      payment := Payment(paymentId, loanId, amount, date, notes, now);
      var p := payment;
      loans := UpdateMatching(loans, loanId, l => WithPayment(l, p, now));
    }

    method DeletePayment(loanId: string, paymentId: string, now: Timestamp)
      modifies this
      ensures |loans| == |old(loans)|
      ensures forall i :: 0 <= i < |loans| ==>
        loans[i] == if old(loans)[i].id == loanId then WithoutPayment(old(loans)[i], paymentId, now) else old(loans)[i]
      ensures AllValid(old(loans)) ==> AllValid(loans)
    {
      loans := UpdateMatching(loans, loanId, l => WithoutPayment(l, paymentId, now));
    }

    method GetLoan(id: string) returns (r: Option<Loan>)
      ensures r == FindLoan(loans, id)
    {
      r := FindLoan(loans, id);
    }
  }

  // ---------------------------------------------------------------------------
  // What the operations do to the computed view

  /** A new loan, not closed in the form, is active from its start until its due day. */
  lemma NewLoanStartsActive(draft: LoanDraft, id: string, now: Timestamp, asOf: Timestamp)
    requires ValidDraft(draft) && draft.closedAt.None?
    requires Day(draft.startDate) <= Day(asOf) < Day(draft.startDate) + 30
    ensures var c := CalculateLoan(NewLoan(draft, id, now), asOf);
      && c.status == Active && c.totalPaid == 0.0 && c.daysOverdue == 0
      && c.remainingBalance == draft.principal + draft.fixedInterest
  {
  }

  /** Closing by hand makes the loan read as closed at every later or earlier instant. */
  lemma MarkClosedIsClosed(loan: Loan, now: Timestamp, asOf: Timestamp)
    ensures CalculateLoan(MarkClosed(loan, now), asOf).status == Closed
    ensures CalculateLoan(MarkClosed(loan, now), asOf).totalPaid == CalculateLoan(loan, asOf).totalPaid
  {
  }

  /** A payment raises the total paid by its amount and leaves the amount owed as it was. */
  lemma WithPaymentTotals(loan: Loan, p: Payment, now: Timestamp, asOf: Timestamp)
    ensures CalculateLoan(WithPayment(loan, p, now), asOf).totalPaid == CalculateLoan(loan, asOf).totalPaid + p.amount
    ensures CalculateLoan(WithPayment(loan, p, now), asOf).totalPayable == CalculateLoan(loan, asOf).totalPayable
  {
    TotalPaidConcat(loan.payments, [p]);
    assert TotalPaid([p]) == p.amount + TotalPaid([]);
  }

  /** The payments split by a predicate on their id add up to the whole. */
  lemma {:induction false} TotalPaidSplit(payments: seq<Payment>, paymentId: string)
    ensures TotalPaid(payments) ==
      TotalPaid(Seqs.Filter(payments, PaymentIdIsNot(paymentId))) + TotalPaid(Seqs.Filter(payments, PaymentIdIs(paymentId)))
    decreases |payments|
  {
    if payments != [] {
      TotalPaidSplit(payments[1..], paymentId);
    }
  }

  /**
   * Deleting a payment lowers the total paid by exactly the amounts of the
   * payments deleted, and for positive payments never raises it.
   */
  lemma WithoutPaymentTotals(loan: Loan, paymentId: string, now: Timestamp, asOf: Timestamp)
    ensures CalculateLoan(WithoutPayment(loan, paymentId, now), asOf).totalPaid ==
      CalculateLoan(loan, asOf).totalPaid - TotalPaid(Seqs.Filter(loan.payments, PaymentIdIs(paymentId)))
    ensures ValidLoan(loan) ==>
      CalculateLoan(WithoutPayment(loan, paymentId, now), asOf).totalPaid <= CalculateLoan(loan, asOf).totalPaid
  {
    TotalPaidSplit(loan.payments, paymentId);
    var removed := Seqs.Filter(loan.payments, PaymentIdIs(paymentId));
    if ValidLoan(loan) {
      TotalPaidNonNegative(removed);
    }
  }

  /**
   * Extending moves the overdue count back by thirty days and, for a fee that
   * is not negative, never raises the amount owed.
   */
  lemma ExtendedOwesNoMore(loan: Loan, now: Timestamp, asOf: Timestamp)
    requires loan.fixedInterest >= 0.0
    ensures CalculateLoan(Extended(loan, now), asOf).daysOverdue == Max(0, CalculateLoan(loan, asOf).daysOverdue - 30)
    ensures CalculateLoan(Extended(loan, now), asOf).totalPayable <= CalculateLoan(loan, asOf).totalPayable
  {
    var before, after := CalculateLoan(loan, asOf), CalculateLoan(Extended(loan, now), asOf);
    PayableMonotonic(loan, after.daysOverdue, before.daysOverdue);
  }

  /** A patch with no fields only stamps the update time. */
  lemma EmptyPatchOnlyStamps(loan: Loan, now: Timestamp)
    ensures PatchLoan(loan, EmptyPatch, now) == loan.(updatedAt := now)
  {
  }

  /**
   * Applying the same patch twice is applying it once, as long as the patch
   * does not also set the due date (a changed start date would otherwise win
   * the first time and lose the second).
   */
  lemma PatchTwice(loan: Loan, patch: LoanPatch, now: Timestamp)
    requires patch.dueDate.Keep?
    ensures PatchLoan(PatchLoan(loan, patch, now), patch, now) == PatchLoan(loan, patch, now)
  {
  }

  /** The loan the store finds after adding is the one just added. */
  lemma AddedLoanIsFound(loans: seq<Loan>, draft: LoanDraft, id: string, now: Timestamp)
    ensures FindLoan([NewLoan(draft, id, now)] + loans, id) == Some(NewLoan(draft, id, now))
  {
  }

  /** After deleting, no loan with that id can be found. */
  lemma DeletedLoanIsGone(loans: seq<Loan>, id: string)
    ensures FindLoan(LoansWithout(loans, id), id).None?
  {
  }
}
