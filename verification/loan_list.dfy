/**
 * The loan list pipeline: every loan is computed as of one instant, kept when
 * it matches the search text and the status filter, sorted by the chosen key,
 * and finally sorted stably by status priority so that loans due today and
 * overdue loans come first.
 */
module LoanList {
  import opened Dates
  import opened LoanTypes
  import Seqs
  import StableSort
  import opened LoanCalculations

  datatype SortOption = Newest | Oldest | AmountHigh | AmountLow | DueSoon

  datatype FilterOption = AllLoans | ActiveOnly | OverdueOnly | ClosedOnly | PartialOnly

  // ---------------------------------------------------------------------------
  // Search

  /** Lower case for the ASCII letters; every other character is left as it is. */
  function LowerChar(c: char): char
  {
    if 'A' <= c <= 'Z' then (c as int + 32) as char else c
  }

  function Lower(s: string): (r: string)
    ensures |r| == |s| && forall i :: 0 <= i < |s| ==> r[i] == LowerChar(s[i])
  {
    seq(|s|, i requires 0 <= i < |s| => LowerChar(s[i]))
  }

  /** `q` occurs in `s` starting at index `i`. */
  predicate OccursAt(s: string, q: string, i: int)
  {
    0 <= i && i + |q| <= |s| && s[i..i + |q|] == q
  }

  /** `q` occurs in `s` as a contiguous piece; the empty text occurs everywhere. */
  function Contains(s: string, q: string): (b: bool)
    ensures b <==> exists i :: OccursAt(s, q, i)
    decreases |s|
  {
    if |q| > |s| then false
    else if s[..|q|] == q then assert OccursAt(s, q, 0); true
    else
      var b := Contains(s[1..], q);
      assert b ==> exists i :: OccursAt(s, q, i) by {
        if b {
          var k :| OccursAt(s[1..], q, k);
          assert s[k + 1..k + 1 + |q|] == q;
          assert OccursAt(s, q, k + 1);
        }
      }
      assert (exists i :: OccursAt(s, q, i)) ==> b by {
        if exists i :: OccursAt(s, q, i) {
          var k :| OccursAt(s, q, k);
          assert k != 0;
          assert s[1..][k - 1..k - 1 + |q|] == q;
          assert OccursAt(s[1..], q, k - 1);
        }
      }
      b
  }

  /** Lower-casing both sides keeps an occurrence an occurrence. */
  lemma ContainsLower(s: string, q: string)
    requires Contains(s, q)
    ensures Contains(Lower(s), Lower(q))
  {
    var k :| OccursAt(s, q, k);
    assert Lower(s)[k..k + |q|] == Lower(q);
    assert OccursAt(Lower(s), Lower(q), k);
  }

  /**
   * The search rule: the borrower's name contains the query, ignoring case; or
   * the phone, when there is one, contains it exactly; or the notes, when there
   * are any, contain it ignoring case.
   */
  predicate MatchesSearch(c: LoanCalculation, query: string)
  {
    || Contains(Lower(c.loan.borrower.name), Lower(query))
    || (c.loan.borrower.phone.Some? && Contains(c.loan.borrower.phone.value, query))
    || (c.loan.notes.Some? && Contains(Lower(c.loan.notes.value), Lower(query)))
  }

  /** The status filter: "active" also keeps loans due today; "all" keeps everything. */
  predicate MatchesFilter(filterBy: FilterOption, status: LoanStatus)
  {
    match filterBy
    case ActiveOnly => status == Active || status == DueToday
    case OverdueOnly => status == Overdue
    case ClosedOnly => status == Closed
    case PartialOnly => status == PartiallyPaid
    case AllLoans => true
  }

  function Shown(query: string, filterBy: FilterOption): LoanCalculation -> bool
  {
    (c: LoanCalculation) => MatchesSearch(c, query) && MatchesFilter(filterBy, c.status)
  }

  /** The computed loans that pass the search and the status filter, in list order. */
  function Filtered(calculations: seq<LoanCalculation>, query: string, filterBy: FilterOption): seq<LoanCalculation>
  {
    Seqs.Filter(calculations, Shown(query, filterBy))
  }

  /** An empty query matches every loan, and so does any piece of the borrower's name. */
  lemma SearchMatches(c: LoanCalculation, query: string)
    ensures query == [] ==> MatchesSearch(c, query)
    ensures Contains(c.loan.borrower.name, query) ==> MatchesSearch(c, query)
  {
    if query == [] {
      assert OccursAt(Lower(c.loan.borrower.name), Lower(query), 0);
    }
    if Contains(c.loan.borrower.name, query) {
      ContainsLower(c.loan.borrower.name, query);
    }
  }

  // ---------------------------------------------------------------------------
  // Ordering

  /**
   * The key the chosen order sorts by, ascending: creation time newest first
   * or oldest first, principal highest first or lowest first, due date
   * soonest first.
   */
  function SortKey(sortBy: SortOption, c: LoanCalculation): real
  {
    match sortBy
    case Newest => -(c.loan.createdAt as real)
    case Oldest => c.loan.createdAt as real
    case AmountHigh => -c.loan.principal
    case AmountLow => c.loan.principal
    case DueSoon => c.loan.dueDate as real
  }

  function SortKeyOf(sortBy: SortOption): LoanCalculation -> real
  {
    (c: LoanCalculation) => SortKey(sortBy, c)
  }

  /** Due today first, then overdue, active, partially paid and closed. */
  function Priority(status: LoanStatus): (p: int)
    ensures 0 <= p <= 4
  {
    match status
    case DueToday => 0
    case Overdue => 1
    case Active => 2
    case PartiallyPaid => 3
    case Closed => 4
  }

  function PriorityKey(c: LoanCalculation): real
  {
    Priority(c.status) as real
  }

  /** The list as shown. */
  function VisibleLoans(loans: seq<Loan>, asOf: Timestamp, query: string,
                        filterBy: FilterOption, sortBy: SortOption): seq<LoanCalculation>
  {
    var filtered := Filtered(CalculateAll(loans, asOf), query, filterBy);
    StableSort.SortBy(StableSort.SortBy(filtered, SortKeyOf(sortBy)), PriorityKey)
  }

  // ---------------------------------------------------------------------------
  // Properties

  /**
   * The shown list is a reordering of the filtered list, which keeps the
   * computed loans in their order; so no more loans are shown than exist.
   */
  lemma VisibleIsFilteredPermutation(loans: seq<Loan>, asOf: Timestamp, query: string,
                                     filterBy: FilterOption, sortBy: SortOption)
    ensures var filtered := Filtered(CalculateAll(loans, asOf), query, filterBy);
      && multiset(VisibleLoans(loans, asOf, query, filterBy, sortBy)) == multiset(filtered)
      && Seqs.IsSubsequence(filtered, CalculateAll(loans, asOf))
      && |VisibleLoans(loans, asOf, query, filterBy, sortBy)| <= |loans|
  {
    var filtered := Filtered(CalculateAll(loans, asOf), query, filterBy);
    var v := VisibleLoans(loans, asOf, query, filterBy, sortBy);
    assert |v| == |multiset(v)| == |multiset(filtered)| == |filtered|;
  }

  /** Sorting twice keeps exactly the filtered loans. */
  lemma SortedFilteredMembers(calculations: seq<LoanCalculation>, query: string,
                              filterBy: FilterOption, sortBy: SortOption, c: LoanCalculation)
    ensures c in StableSort.SortBy(StableSort.SortBy(Filtered(calculations, query, filterBy), SortKeyOf(sortBy)), PriorityKey)
      <==> c in calculations && MatchesSearch(c, query) && MatchesFilter(filterBy, c.status)
  {
    var filtered := Filtered(calculations, query, filterBy);
    var sorted := StableSort.SortBy(filtered, SortKeyOf(sortBy));
    StableSort.SortByMembers(filtered, SortKeyOf(sortBy));
    StableSort.SortByMembers(sorted, PriorityKey);
    if c in calculations && Shown(query, filterBy)(c) {
      var i :| 0 <= i < |calculations| && calculations[i] == c;
      assert c in filtered;
    }
  }

  /** A loan is shown exactly when it is computed from the list and passes both filters. */
  lemma VisibleMembership(loans: seq<Loan>, asOf: Timestamp, query: string,
                          filterBy: FilterOption, sortBy: SortOption, c: LoanCalculation)
    ensures c in VisibleLoans(loans, asOf, query, filterBy, sortBy) <==>
      (exists i :: 0 <= i < |loans| && c == CalculateLoan(loans[i], asOf))
      && MatchesSearch(c, query) && MatchesFilter(filterBy, c.status)
  {
    var all := CalculateAll(loans, asOf);
    SortedFilteredMembers(all, query, filterBy, sortBy, c);
    if c in all {
      var i :| 0 <= i < |all| && all[i] == c;
      assert c == CalculateLoan(loans[i], asOf);
    }
    if exists i :: 0 <= i < |loans| && c == CalculateLoan(loans[i], asOf) {
      var i :| 0 <= i < |loans| && c == CalculateLoan(loans[i], asOf);
      assert all[i] == c;
    }
  }

  /** The shown list runs from the highest priority to the lowest. */
  lemma VisibleByPriority(loans: seq<Loan>, asOf: Timestamp, query: string,
                          filterBy: FilterOption, sortBy: SortOption)
    ensures var v := VisibleLoans(loans, asOf, query, filterBy, sortBy);
      forall i, j :: 0 <= i < j < |v| ==> Priority(v[i].status) <= Priority(v[j].status)
  {
    var v := VisibleLoans(loans, asOf, query, filterBy, sortBy);
    forall i, j | 0 <= i < j < |v|
      ensures Priority(v[i].status) <= Priority(v[j].status)
    {
      assert PriorityKey(v[i]) <= PriorityKey(v[j]);
    }
  }

  /**
   * Among loans of the same status, the chosen order survives the priority
   * sort: the chosen key never decreases.
   */
  lemma VisibleWithinStatusBySortKey(loans: seq<Loan>, asOf: Timestamp, query: string,
                                     filterBy: FilterOption, sortBy: SortOption)
    ensures var v := VisibleLoans(loans, asOf, query, filterBy, sortBy);
      forall i, j :: 0 <= i < j < |v| && v[i].status == v[j].status ==>
        SortKey(sortBy, v[i]) <= SortKey(sortBy, v[j])
  {
    var filtered := Filtered(CalculateAll(loans, asOf), query, filterBy);
    var key := SortKeyOf(sortBy);
    var sorted := StableSort.SortBy(filtered, key);
    assert StableSort.SortedWithinGroups(sorted, PriorityKey, key);
    StableSort.SortByKeepsGroupOrder(sorted, PriorityKey, key);
    var v := StableSort.SortBy(sorted, PriorityKey);
    forall i, j | 0 <= i < j < |v| && v[i].status == v[j].status
      ensures SortKey(sortBy, v[i]) <= SortKey(sortBy, v[j])
    {
      assert PriorityKey(v[i]) == PriorityKey(v[j]);
      assert key(v[i]) <= key(v[j]);
    }
  }

  /** Under "amount high", loans of one status are listed from the largest principal down. */
  lemma AmountHighWithinStatus(loans: seq<Loan>, asOf: Timestamp, query: string, filterBy: FilterOption)
    ensures var v := VisibleLoans(loans, asOf, query, filterBy, AmountHigh);
      forall i, j :: 0 <= i < j < |v| && v[i].status == v[j].status ==>
        v[i].loan.principal >= v[j].loan.principal
  {
    VisibleWithinStatusBySortKey(loans, asOf, query, filterBy, AmountHigh);
  }

  /** Every status passes exactly one of the four narrowing filters. */
  lemma OneNarrowingFilter(status: LoanStatus)
    ensures (if MatchesFilter(ActiveOnly, status) then 1 else 0) + (if MatchesFilter(OverdueOnly, status) then 1 else 0)
          + (if MatchesFilter(ClosedOnly, status) then 1 else 0) + (if MatchesFilter(PartialOnly, status) then 1 else 0)
         == 1
    ensures MatchesFilter(AllLoans, status)
  {
  }

  /**
   * The four narrowing filters together show as many loans as "all" does (each
   * loan passes exactly one of them, by `OneNarrowingFilter`).
   */
  lemma FiltersPartition(calculations: seq<LoanCalculation>, query: string)
    ensures |Filtered(calculations, query, ActiveOnly)| + |Filtered(calculations, query, OverdueOnly)|
          + |Filtered(calculations, query, ClosedOnly)| + |Filtered(calculations, query, PartialOnly)|
         == |Filtered(calculations, query, AllLoans)|
  {
    Seqs.FilterLength(calculations, Shown(query, ActiveOnly));
    Seqs.FilterLength(calculations, Shown(query, OverdueOnly));
    Seqs.FilterLength(calculations, Shown(query, ClosedOnly));
    Seqs.FilterLength(calculations, Shown(query, PartialOnly));
    Seqs.FilterLength(calculations, Shown(query, AllLoans));
    CountsPartition(calculations, query);
  }

  lemma {:induction false} CountsPartition(calculations: seq<LoanCalculation>, query: string)
    ensures Seqs.Count(calculations, Shown(query, ActiveOnly)) + Seqs.Count(calculations, Shown(query, OverdueOnly))
          + Seqs.Count(calculations, Shown(query, ClosedOnly)) + Seqs.Count(calculations, Shown(query, PartialOnly))
         == Seqs.Count(calculations, Shown(query, AllLoans))
    decreases |calculations|
  {
    if calculations != [] {
      CountsPartition(calculations[1..], query);
    }
  }
}
