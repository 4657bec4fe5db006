/** The demonstration student list: the search and the class and status filters, the counts
    of students by payment status, and each student's balance and paid percentage. */
module StudentList {
  import opened Seqs
  import opened Text
  import opened Rounding

  datatype Status = Active | Inactive | Suspended

  /** Every student has one of the three payment statuses. */
  datatype PaymentStatus = UpToDate | Late | Partial

  function StatusName(s: Status): string {
    match s
    case Active => "Actif"
    case Inactive => "Inactif"
    case Suspended => "Suspendu"
  }

  datatype ListedStudent = ListedStudent(
    id: string, firstName: string, lastName: string, className: string,
    parentName: string, parentPhone: string,
    status: Status, paymentStatus: PaymentStatus,
    outstandingAmount: int, totalFees: int, paidAmount: int)

  /** The full name or the parent's name contains the term, both lower-cased, or the parent's
      phone contains the term as typed. */
  predicate MatchesSearch(s: ListedStudent, term: string) {
    Contains(ToLower(s.firstName + " " + s.lastName), ToLower(term)) ||
    Contains(ToLower(s.parentName), ToLower(term)) ||
    Contains(s.parentPhone, term)
  }

  /** The class filter and the status filter, each 'all' or an exact value. */
  predicate MatchesFilters(s: ListedStudent, classFilter: string, statusFilter: string) {
    (classFilter == "all" || s.className == classFilter) &&
    (statusFilter == "all" || StatusName(s.status) == statusFilter)
  }

  predicate Listed(s: ListedStudent, term: string, classFilter: string, statusFilter: string) {
    MatchesSearch(s, term) && MatchesFilters(s, classFilter, statusFilter)
  }

  /** `filteredStudents`: the students meeting the search and both filters, in order. */
  function FilteredStudents(students: seq<ListedStudent>, term: string, classFilter: string, statusFilter: string): (r: seq<ListedStudent>)
    ensures IsSubsequence(r, students)
    ensures forall i :: 0 <= i < |r| ==> MatchesSearch(r[i], term) && MatchesFilters(r[i], classFilter, statusFilter)
    ensures forall i :: 0 <= i < |students| && MatchesSearch(students[i], term) && MatchesFilters(students[i], classFilter, statusFilter) ==>
      students[i] in r
  {
    FilterIsSubsequence(students, s => Listed(s, term, classFilter, statusFilter));
    Filter(students, s => Listed(s, term, classFilter, statusFilter))
  }

  /** An empty search with both filters at 'all' shows every student. */
  lemma EmptySearchKeepsAll(students: seq<ListedStudent>)
    ensures FilteredStudents(students, "", "all", "all") == students
  {
    forall i | 0 <= i < |students|
      ensures Listed(students[i], "", "all", "all")
    {
      ContainsEmpty(ToLower(students[i].firstName + " " + students[i].lastName));
    }
    FilterAll(students, s => Listed(s, "", "all", "all"));
  }

  /** The names are searched without regard to case: a term and its lower-cased form find
      the same names. */
  lemma NameSearchIgnoresCase(s: ListedStudent, term: string)
    ensures Contains(ToLower(s.firstName + " " + s.lastName), ToLower(term)) <==>
      Contains(ToLower(s.firstName + " " + s.lastName), ToLower(ToLower(term)))
    ensures Contains(ToLower(s.parentName), ToLower(term)) <==> Contains(ToLower(s.parentName), ToLower(ToLower(term)))
  {
    ToLowerIdempotent(term);
  }

  predicate HasPaymentStatus(s: ListedStudent, p: PaymentStatus) {
    s.paymentStatus == p
  }

  /** The number of students with a payment status (`students.filter(...).length`). */
  function StatusCount(students: seq<ListedStudent>, p: PaymentStatus): (n: nat)
    ensures n <= |students|
  {
    Count(students, s => HasPaymentStatus(s, p))
  }

  /** The "À jour", "En retard" and "Partiel" cards count every student once. */
  lemma {:induction false} StatusCountsAddUp(students: seq<ListedStudent>)
    ensures StatusCount(students, UpToDate) + StatusCount(students, Late) + StatusCount(students, Partial) == |students|
  {
    if |students| > 0 {
      StatusCountsAddUp(students[..|students| - 1]);
    }
  }

  /** "Solde restant": the fees less the amount paid. */
  function Balance(s: ListedStudent): (r: int)
    ensures r + s.paidAmount == s.totalFees
  {
    s.totalFees - s.paidAmount
  }

  /** The balance is computed without the stored outstanding amount: changing that amount
      leaves it as it is. */
  lemma BalanceIgnoresOutstanding(s: ListedStudent, o: int)
    ensures Balance(s.(outstandingAmount := o)) == Balance(s)
  {
  }

  /** The progress bar's width, `(paid / total) * 100` unclamped; None for a zero total, whose
      quotient is NaN or infinite. */
  function PaidWidth(s: ListedStudent): (r: Option<real>)
    ensures r.None? <==> s.totalFees == 0
    ensures r.Some? ==> r.value * s.totalFees as real == 100.0 * s.paidAmount as real
  {
    if s.totalFees == 0 then None else Some(Share(s.paidAmount, s.totalFees))
  }

  /** `(part / whole) * 100` for a non-zero whole. */
  function Share(part: int, whole: int): (r: real)
    requires whole != 0
    ensures r * whole as real == 100.0 * part as real
  {
    part as real / whole as real * 100.0
  }

  /** `${Math.round((paid / total) * 100)}% payé`: None for a zero total. */
  function PaidPercent(s: ListedStudent): (r: Option<int>)
    ensures r.None? <==> s.totalFees == 0
  {
    RoundedPercent(s.paidAmount, s.totalFees)
  }

  /** For a positive total the percentage shown is the bar's width rounded to the nearest
      integer. */
  lemma PaidPercentRoundsWidth(s: ListedStudent)
    requires s.totalFees > 0
    ensures var w, r := PaidWidth(s).value, PaidPercent(s).value;
      r as real - 0.5 <= w < r as real + 0.5
  {
    RoundHalfUpNearest(100 * s.paidAmount, s.totalFees);
    ShareIsQuotient(s.paidAmount, s.totalFees);
  }

  lemma ShareIsQuotient(part: int, whole: int)
    requires whole > 0
    ensures Share(part, whole) == (100 * part) as real / whole as real
  {
    var w := whole as real;
    var q := (100 * part) as real / w;
    assert q * w == (100 * part) as real;
    var r := Share(part, whole);
    if r != q {
      if r < q {
        ScaleStrict(r, q, w);
      } else {
        ScaleStrict(q, r, w);
      }
    }
  }

  /** With an amount paid between nothing and the whole of positive fees, the percentage lies
      in [0, 100] and reaches 100 for the whole. */
  lemma PaidPercentRange(s: ListedStudent)
    requires 0 <= s.paidAmount <= s.totalFees && s.totalFees > 0
    ensures 0 <= PaidPercent(s).value <= 100
    ensures s.paidAmount == s.totalFees ==> PaidPercent(s).value == 100
  {
    GuardedPercentRange(s.paidAmount, s.totalFees);
  }
}
