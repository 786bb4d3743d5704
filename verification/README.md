# Loan ledger: accounting engine, loan store and list pipeline

A Dafny model of the core of a small personal-loan ledger. Each loan has:

- a principal;
- a flat fee (the fixed interest) for the first 30 days;
- optional partial payments;
- a daily penalty of one thirtieth of the fee for every whole day past the due date.

The model covers four parts:

- **Accounting engine** (`loan_calculations.dfy`):
  - the five-way status classifier;
  - the per-loan breakdown (day counts, interest, total payable, total paid, remaining balance);
  - the portfolio summary loop;
  - the event timeline and its newest-first stable sort;
  - the relative-date threshold rule;
  - the 30-day due-date rule.
- **Loan store** (`use_loans.dfy`): a class holding the list of loans. Its methods replace the whole list, exactly as the hook's updaters do: add, update, delete, extend and close a loan; add and delete a payment; look a loan up.
- **List pipeline** (`loan_list.dfy`): compute every loan, keep those matching the search text and the status filter, sort by the chosen key, then sort stably by status priority.
- **Data model** (`loan_types.dfy`), plus support modules:
  - calendar arithmetic (`dates.dfy`);
  - filter and count (`seqs.dfy`);
  - the runtime's stable sort (`stable_sort.dfy`).

Representation:

- An instant is an integer number of milliseconds since the epoch, read in UTC. `Day(t)` is its calendar-day number.
- Money is an exact `real`, so `fixedInterest / 30` carries no rounding.
- Wherever the source reads the wall clock, the model takes an explicit `asOf` (or `now`). One call therefore sees one consistent instant.
- Generated identifiers are parameters.
- Every comparator handed to `Array.prototype.sort` has the shape `key(a) - key(b)`. The sort is modelled as a stable insertion sort on a real key (`StableSort.SortBy`), proved sorted, a permutation, and stable.

Behaviour of the code worth knowing:

- **Overdue rule.** A loan past its due day that is not settled is overdue only when nothing positive has been paid. The code tests "not partially paid" (src/utils/loanCalculations.ts:33, :41), which for a loan that is not settled means `totalPaid <= 0`. `CalculateLoanStatus` states this condition.
- **Closure by full payment is not terminal.** A loan closed by hand stays closed (`ManualClosureIsFinal`). Closure by payment is recomputed against a total payable that keeps growing after the due day, so it can end. `ImplicitClosureCanReopen` exhibits a loan with one payment of 10500 against 10000 principal plus a 500 fee: it reads as closed on day 20 and as partially paid on day 31.
- **`updateLoan` spreads every field of the patch.** The patch overrides the loan field by field, including `id`, `payments` and `dueDate`. Only then is the due date recomputed, and only when the patch carries a start date different from the current one (src/hooks/useLoans.ts:69-78). `PatchLoan` follows this.

## Model

| member | source | states |
|---|---|---|
| `Dates.Day` | src/utils/loanCalculations.ts:57-59 | the calendar-day number of an instant: whole UTC days since the epoch, rounded down |
| `Dates.StartOfDay` | src/utils/loanCalculations.ts:57-59 | the first instant of the instant's day: at or before it, less than a day before, on the same day, a whole number of days |
| `Dates.IsSameDay` | src/utils/loanCalculations.ts:36 | two instants are on the same day iff their day numbers agree (the due-today test) |
| `Dates.DifferenceInDays` | src/utils/loanCalculations.ts:62-63 | the number of full 24-hour periods between two instants, truncated toward zero, with the millisecond bounds for positive, negative and zero results |
| `Dates.AddDays` | src/utils/loanCalculations.ts:268-270 | adding n days moves the calendar day by exactly n, gives a full-day difference of n, and keeps the time of day |
| `Dates.DifferenceOfDayStarts` | src/utils/loanCalculations.ts:57-63 | between two day starts the full-day difference is exactly the difference of the day numbers |
| `Seqs.Filter` | src/components/LoanList.tsx:34-55 | filtering keeps exactly the elements satisfying the predicate, as a subsequence of the input and a sub-multiset of it |
| `StableSort.SortBy` | src/utils/loanCalculations.ts:217-219 | the result is sorted by the key and is a permutation of the input |
| `StableSort.SortByStable` | src/components/LoanList.tsx:76-79 | for every key value, the elements carrying it keep their input order |
| `StableSort.SortByKeepsGroupOrder` | src/components/LoanList.tsx:58-79 | a stable second sort by group keeps any order by another key that the input had within each group |
| `LoanTypes.Consistent` | src/types/loan.ts:39-45 | the field relations of a breakdown: base interest is the fee, the daily rate is fee/30, total interest is base plus extra, total payable is principal plus total interest |
| `LoanCalculations.TotalPaid` | src/utils/loanCalculations.ts:76 | the sum of the payment amounts, zero for no payments |
| `LoanCalculations.IsSettled` | src/utils/loanCalculations.ts:28 | a loan is settled iff it was closed by hand or the amount paid reaches the amount payable |
| `LoanCalculations.TotalPaidConcat` | src/utils/loanCalculations.ts:76 | the total paid over two lists of payments is the sum of their totals |
| `LoanCalculations.TotalPaidNonNegative` | src/utils/loanCalculations.ts:76 | positive payments sum to a non-negative total, positive when there is any payment |
| `LoanCalculations.CalculateLoanStatus` | src/utils/loanCalculations.ts:23-46 | for each of the five statuses, the exact condition under which it is chosen: closed iff closed by hand or paid in full; due today iff not settled and due on the as-of day; partially paid iff not settled, not due today and something paid; overdue or active iff nothing paid and past or before the due day |
| `LoanCalculations.CalculateLoan` | src/utils/loanCalculations.ts:56-95 | day counts are the clamped day differences; base interest is the fee; the daily rate is fee/30; extra interest is days overdue times the rate and zero up to the due day; totals add up; total paid is the payment sum; the remaining balance is never negative and is the unpaid part; the status is the classifier's and is closed iff closed by hand or nothing remains |
| `LoanCalculations.CalculateAll` | src/utils/loanCalculations.ts:101 | one breakdown per loan, in list order |
| `LoanCalculations.PayableMonotonic` | src/utils/loanCalculations.ts:66-73 | for a non-negative fee, more days overdue never make the amount owed smaller |
| `LoanCalculations.OverdueGrowsOverTime` | src/utils/loanCalculations.ts:63 | the days overdue never decrease as the as-of instant moves later |
| `LoanCalculations.PayableGrowsOverTime` | src/utils/loanCalculations.ts:62-73 | for a non-negative fee, the amount owed never decreases as the as-of instant moves later |
| `LoanCalculations.ManualClosureIsFinal` | src/utils/loanCalculations.ts:28-30 | a loan closed by hand is closed at every instant whatever was paid |
| `LoanCalculations.ImplicitClosureCanReopen` | src/utils/loanCalculations.ts:28-45 | a loan closed by full payment before its due day reads as partially paid once the penalty starts to accrue |
| `LoanCalculations.ScenarioBeforeDue` | src/utils/loanCalculations.ts:56-95 | 10000 lent with a 500 fee, ten days in and nothing paid: active, 10500 owed |
| `LoanCalculations.ScenarioOverdue` | src/utils/loanCalculations.ts:56-95 | the same loan ten days past due: overdue, daily rate 50/3, extra interest 500/3 |
| `LoanCalculations.ScenarioPaidOff` | src/utils/loanCalculations.ts:56-95 | the same loan ten days past due with 10666.7 paid: closed, nothing remaining |
| `LoanCalculations.ScenarioDueDay` | src/utils/loanCalculations.ts:36-38 | on the due day the loan is due today even when partly paid |
| `LoanCalculations.SummaryOf` | src/utils/loanCalculations.ts:100-143 | the reference summary: the contributions of every loan's breakdown, added up in list order |
| `LoanCalculations.CalculateDashboardSummary` | src/utils/loanCalculations.ts:100-143 | the summary returned is exactly the sum over the loans of each loan's contribution (the reference summary) |
| `LoanCalculations.SumCalculations` | src/utils/loanCalculations.ts:103-142 | the seven-counter loop over the breakdowns computes exactly the sum of their contributions, with the count as the list length |
| `LoanCalculations.SummaryOfCalculations` | src/utils/loanCalculations.ts:101 | adding up the loans' contributions is adding up those of their breakdowns |
| `LoanCalculations.Contribution` | src/utils/loanCalculations.ts:112-130 | what one breakdown adds to the summary: its principal and total interest; if closed, one closed loan and the interest part of what was paid, clamped to zero and to its total interest; otherwise its remaining balance, one overdue loan if overdue or partially paid past the due day, and one active loan if active, due today or partially paid; and one to the loan count |
| `LoanCalculations.CountedClosed` | src/utils/loanCalculations.ts:115-116 | the loans counted as closed: status closed |
| `LoanCalculations.CountedActive` | src/utils/loanCalculations.ts:127-128 | the loans counted as active: active, due today or partially paid |
| `LoanCalculations.CountedOverdue` | src/utils/loanCalculations.ts:123-124 | the loans counted as overdue: overdue, or partially paid past the due day |
| `LoanCalculations.TallyCountsStatuses` | src/utils/loanCalculations.ts:111-131 | over any list of breakdowns, the closed, active and overdue counters are exactly the numbers of breakdowns counted as closed, active and overdue |
| `LoanCalculations.SummaryStatusCounts` | src/utils/loanCalculations.ts:100-143 | the summary's closed, active and overdue counts are the numbers of computed loans counted as closed, active and overdue |
| `LoanCalculations.TallyConcat` | src/utils/loanCalculations.ts:111-131 | the running totals over two lists are the sum of the totals of each |
| `LoanCalculations.TallyPermutation` | src/utils/loanCalculations.ts:111-131 | adding up per-item contributions gives the same totals in any order of the items |
| `LoanCalculations.SummaryPermutation` | src/utils/loanCalculations.ts:100-143 | the dashboard summary does not depend on the order of the loans |
| `LoanCalculations.ContributionIsShare` | src/utils/loanCalculations.ts:115-130 | one loan adds one to the loan count and lands in one or two of the active/overdue/closed counters, never both closed and another; it adds a non-negative pending amount and earned interest, and earned interest at most its total interest when that is non-negative |
| `LoanCalculations.TallyOfShares` | src/utils/loanCalculations.ts:111-131 | summing such contributions keeps the counter relations over the whole list |
| `LoanCalculations.SummaryCounts` | src/utils/loanCalculations.ts:100-143 | total loans is the list length; active+closed and overdue+closed never exceed it; every loan is counted somewhere; pending and earned are non-negative |
| `LoanCalculations.SummaryEarnedWithinExpected` | src/utils/loanCalculations.ts:112-119 | with non-negative fees, total interest earned never exceeds total interest expected |
| `LoanCalculations.ScenarioDashboard` | src/utils/loanCalculations.ts:100-143 | a paid-off loan and an open loan at day 10: 500 earned, 10500 pending, two loans, one closed, one active, none overdue |
| `LoanCalculations.CreatedEvent` | src/utils/loanCalculations.ts:155-163 | the creation event: id with "-created", dated at the start, the principal lent to the borrower, completed |
| `LoanCalculations.DueEvent` | src/utils/loanCalculations.ts:165-175 | the due-date event: dated at the due date, principal plus fee, completed and titled "passed" iff the due day is before or on the as-of day |
| `LoanCalculations.PaymentEvent` | src/utils/loanCalculations.ts:178-188 | a payment's event: the payment's id, date and amount, its notes when non-empty as the description, completed |
| `LoanCalculations.OverdueEvent` | src/utils/loanCalculations.ts:190-201 | the overdue event: dated at the due date, the days overdue and the extra interest |
| `LoanCalculations.ClosedEvent` | src/utils/loanCalculations.ts:203-214 | the closing event: dated at the closing instant, or at the as-of instant when closed by payment, with the total paid |
| `LoanCalculations.PaymentEvents` | src/utils/loanCalculations.ts:178-188 | one payment event per payment, in payment order |
| `LoanCalculations.HasOverdueNotice` | src/utils/loanCalculations.ts:191 | an overdue notice is pushed iff the loan is past due and not closed |
| `LoanCalculations.HasClosedNotice` | src/utils/loanCalculations.ts:204 | a closing notice is pushed iff the loan was closed by hand or reads as closed |
| `LoanCalculations.EventsFor` | src/utils/loanCalculations.ts:149-214 | the pushed list for a breakdown: creation, due date, the payments in order, an overdue notice when past due and not closed, a closing notice when closed |
| `LoanCalculations.PushedEvents` | src/utils/loanCalculations.ts:149-214 | the pushed list for the loan's own breakdown at the as-of instant |
| `LoanCalculations.NewestFirst` | src/utils/loanCalculations.ts:217-219 | the timeline's sort key: the negated instant, so later events come first |
| `LoanCalculations.LoanTimeline` | src/utils/loanCalculations.ts:217-219 | the timeline: the pushed events stably sorted newest first |
| `LoanCalculations.PushEvents` | src/utils/loanCalculations.ts:149-214 | the pushes build exactly the reference event list: created, due, one per payment, then the overdue and closed notices when they apply |
| `LoanCalculations.GenerateLoanTimeline` | src/utils/loanCalculations.ts:148-220 | the result is the pushed events stably sorted most recent first |
| `LoanCalculations.PaymentEventsMatch` | src/utils/loanCalculations.ts:178-188 | one payment event per payment, in payment order |
| `LoanCalculations.EventsForCounts` | src/utils/loanCalculations.ts:155-214 | per kind, how many events are pushed |
| `LoanCalculations.TimelineCountsArePushedCounts` | src/utils/loanCalculations.ts:217-219 | sorting keeps the number of events of every kind |
| `LoanCalculations.TimelineContents` | src/utils/loanCalculations.ts:148-220 | exactly one creation and one due-date event, one payment event per payment, an overdue event iff past due and not closed, a closed event iff closed; never both; length 2 + payments + 0 or 1 |
| `LoanCalculations.TimelineNewestFirst` | src/utils/loanCalculations.ts:217-219 | event dates never increase along the timeline |
| `LoanCalculations.TimelineTiesInPushOrder` | src/utils/loanCalculations.ts:217-219 | for any pushed event list and any key value, the events with that key come out of the newest-first sort in the order they were pushed |
| `LoanCalculations.EventsForDetails` | src/utils/loanCalculations.ts:165-188 | the only due-date event pushed is the loan's own, with its date, amount and completion; for every payment a pushed payment event carries its id, date and amount |
| `LoanCalculations.TimelineEventDetails` | src/utils/loanCalculations.ts:165-188 | in the timeline the due-date event is on the due date, asks principal plus fee and is completed iff the due day is today or past; for every payment some event of the timeline is a payment event with its id, date and amount |
| `LoanCalculations.CalculateDueDate` | src/utils/loanCalculations.ts:268-270 | the due date falls 30 calendar days after the start, at the same time of day |
| `LoanCalculations.FormatDateRelative` | src/utils/loanCalculations.ts:244-256 | today, tomorrow, yesterday, "in N days" for 2..7, "N days ago" for 2..7, otherwise the date itself, each stated as the exact millisecond range it covers |
| `LoanCalculations.FormatDateRelativeMirror` | src/utils/loanCalculations.ts:247-253 | a date the same distance ahead or behind gets the mirrored wording |
| `LoanStore.NewLoan` | src/hooks/useLoans.ts:50-59 | a new loan carries the draft's fields, the given id, no payments and both stamps equal to now; its due date is exactly `CalculateDueDate` of the start: 30 days later at the same time of day; a valid draft gives a valid loan |
| `LoanStore.PatchLoan` | src/hooks/useLoans.ts:65-81 | every field present in the patch overrides the loan's and every absent field is kept; updatedAt is now; when the patch carries a different start date the due date is exactly `CalculateDueDate` of it, otherwise it is the patched or old due date; valid inputs give a valid loan |
| `LoanStore.Extended` | src/hooks/useLoans.ts:88-100 | the due date moves 30 days later at the same time of day; nothing else changes except updatedAt |
| `LoanStore.MarkClosed` | src/hooks/useLoans.ts:102-111 | closedAt and updatedAt become now; nothing else changes |
| `LoanStore.WithPayment` | src/hooks/useLoans.ts:123-130 | the payment is appended after the earlier ones; nothing else changes except updatedAt |
| `LoanStore.WithoutPayment` | src/hooks/useLoans.ts:136-143 | no payment with the id remains; every other payment remains, in order, with as many copies as before (the length is the number of payments with another id); nothing else changes except updatedAt |
| `LoanStore.UpdateMatching` | src/hooks/useLoans.ts:66-67 | loans with the id are replaced by the update of themselves, all others stay in place |
| `LoanStore.LoansWithout` | src/hooks/useLoans.ts:84-86 | no loan with the id remains; every other loan remains, in order, with as many copies as before (the length is the number of loans with another id) |
| `LoanStore.FindLoan` | src/hooks/useLoans.ts:146-148 | nothing is found iff no loan has the id; otherwise the first loan with the id |
| `LoanStore.UpdateMatchingKeepsValid` | src/hooks/useLoans.ts:66-67 | updating matching loans into valid loans keeps the list valid |
| `LoanStore.Store.constructor` | src/hooks/useLoans.ts:21 | the store starts empty |
| `LoanStore.Store.AddLoan` | src/hooks/useLoans.ts:50-63 | the new loan is put in front, all earlier loans follow unchanged and in order; validity is kept |
| `LoanStore.Store.UpdateLoan` | src/hooks/useLoans.ts:65-82 | exactly the loans with the id are patched, the others and the length stay; validity is kept for a valid patch |
| `LoanStore.Store.DeleteLoan` | src/hooks/useLoans.ts:84-86 | the list becomes the loans without that id, in order |
| `LoanStore.Store.ExtendLoan` | src/hooks/useLoans.ts:88-100 | exactly the loans with the id are extended; validity is kept |
| `LoanStore.Store.CloseLoan` | src/hooks/useLoans.ts:102-111 | exactly the loans with the id are closed; validity is kept |
| `LoanStore.Store.AddPayment` | src/hooks/useLoans.ts:113-133 | the returned payment carries the inputs; it is appended to exactly the loans with the id; a positive amount keeps validity |
| `LoanStore.Store.DeletePayment` | src/hooks/useLoans.ts:135-144 | exactly the loans with the id lose their payments with that payment id; validity is kept |
| `LoanStore.Store.GetLoan` | src/hooks/useLoans.ts:146-148 | returns the first loan with the id, or nothing |
| `LoanStore.NewLoanStartsActive` | src/hooks/useLoans.ts:50-59 | a new valid, not-closed loan is active with nothing paid and principal plus fee owed from its start until its due day |
| `LoanStore.MarkClosedIsClosed` | src/hooks/useLoans.ts:102-111 | after closing, the loan reads as closed at every instant, with the same total paid |
| `LoanStore.WithPaymentTotals` | src/hooks/useLoans.ts:123-130 | adding a payment raises the total paid by its amount and leaves the amount owed unchanged |
| `LoanStore.TotalPaidSplit` | src/hooks/useLoans.ts:140 | the payments kept and the payments removed by id add up to the whole total |
| `LoanStore.WithoutPaymentTotals` | src/hooks/useLoans.ts:135-144 | deleting payments lowers the total paid by exactly their amounts, never raising it for positive payments |
| `LoanStore.ExtendedOwesNoMore` | src/hooks/useLoans.ts:88-100 | extending moves the overdue day count back by 30 (not below zero) and, for a non-negative fee, never raises the amount owed |
| `LoanStore.EmptyPatchOnlyStamps` | src/hooks/useLoans.ts:65-81 | a patch with no fields changes only updatedAt |
| `LoanStore.PatchTwice` | src/hooks/useLoans.ts:65-81 | applying the same patch twice equals applying it once, when the patch does not also set the due date |
| `LoanStore.AddedLoanIsFound` | src/hooks/useLoans.ts:50-63 | right after adding, looking the new id up finds the new loan |
| `LoanStore.DeletedLoanIsGone` | src/hooks/useLoans.ts:84-86 | after deleting, looking the id up finds nothing |
| `LoanList.Lower` | src/components/LoanList.tsx:36-38 | lower-casing keeps the length and maps each character |
| `LoanList.Contains` | src/components/LoanList.tsx:36-38 | true iff the query occurs as a contiguous piece of the text |
| `LoanList.ContainsLower` | src/components/LoanList.tsx:36-38 | lower-casing both text and query keeps an occurrence |
| `LoanList.MatchesSearch` | src/components/LoanList.tsx:36-40 | the name contains the query ignoring case, or the phone (when present) contains it exactly, or the notes (when present) contain it ignoring case |
| `LoanList.MatchesFilter` | src/components/LoanList.tsx:43-54 | "active" keeps active and due-today loans, "overdue", "closed" and "partial" keep only their status, "all" keeps everything |
| `LoanList.Filtered` | src/components/LoanList.tsx:34-55 | the computed loans that pass both the search and the status filter, in list order |
| `LoanList.OneNarrowingFilter` | src/components/LoanList.tsx:43-54 | every status passes exactly one of the active, overdue, closed and partial filters, and always passes "all" |
| `LoanList.SearchMatches` | src/components/LoanList.tsx:36-40 | an empty query matches every loan, and so does any piece of the borrower's name |
| `LoanList.SortKey` | src/components/LoanList.tsx:58-73 | the ascending key of each order: negated creation time (newest), creation time (oldest), negated principal (amount high), principal (amount low), due date (due soon) |
| `LoanList.Priority` | src/components/LoanList.tsx:76-79 | the priority of every status lies between 0 and 4 |
| `LoanList.VisibleLoans` | src/components/LoanList.tsx:31-79 | the list as shown: every loan computed, filtered by search and status, sorted by the chosen key, then stably sorted by status priority |
| `LoanList.VisibleIsFilteredPermutation` | src/components/LoanList.tsx:31-79 | the shown list is a permutation of the filtered list; the filtered list is a subsequence of the computed loans; no more loans are shown than exist |
| `LoanList.SortedFilteredMembers` | src/components/LoanList.tsx:34-79 | after both sorts, exactly the computed loans passing search and status filter remain |
| `LoanList.VisibleMembership` | src/components/LoanList.tsx:31-79 | a loan is shown iff it is the breakdown of a listed loan and passes the search and the status filter |
| `LoanList.VisibleByPriority` | src/components/LoanList.tsx:76-79 | priorities never decrease along the shown list: due today, overdue, active, partially paid, closed |
| `LoanList.VisibleWithinStatusBySortKey` | src/components/LoanList.tsx:58-79 | among loans of one status the chosen sort key never decreases |
| `LoanList.AmountHighWithinStatus` | src/components/LoanList.tsx:64-65 | under "amount high", loans of one status run from the largest principal down |
| `LoanList.FiltersPartition` | src/components/LoanList.tsx:43-54 | the sizes of the active, overdue, closed and partial filters add up to the size of "all" |
| `LoanList.CountsPartition` | src/components/LoanList.tsx:43-54 | over any list, the counts passing the four narrowing filters add up to the count passing "all" |

## Left out

- `formatCurrency` and `formatDate` (src/utils/loanCalculations.ts:225-239). They wrap locale formatting libraries whose behaviour is not part of this model. Timeline descriptions are kept as structured values (`EventText`) instead of formatted strings.
- `generateId` (src/utils/loanCalculations.ts:261-263). It reads the clock and a random source; identifiers are parameters instead.
- Persistence to browser storage and JSON (de)serialisation (src/hooks/useLoans.ts:24-48), the loading flag, and the network client in src/lib/api.ts: these are I/O. The React state machinery and all rendering are also left out.
- Clock reads: every `new Date()` becomes one `asOf`/`now` parameter per call. The source may read the clock several times within one call, and a day boundary between those reads is not modelled.
- Time zones and daylight saving: days are exact 24-hour UTC days.
- ISO 8601 parsing and formatting: dates are integers. An empty-string `closedAt` or `startDate`, which the source treats as absent through truthiness, is not representable.
- IEEE-754 floating point: money is exact real arithmetic, and summation order and rounding are not modelled.
- `LoanList.Lower`: lower-cases ASCII letters only, not the full Unicode case mapping of `toLowerCase`.
- `LoanStore.PatchLoan`: an explicit `undefined` for a required field (the partial type allows it) is not representable. For the optional fields `notes` and `closedAt` a present `None` models it and clears the field.
- `LoanCalculations.ImplicitClosureCanReopen` documents source behaviour rather than a defect claim. The code does not say whether closure by payment should be terminal, so no corrected definition is given.
