/** The finance screen: the summary figures derived from the fetched balances and revenue
    statistics, the payment list filter, the payment export, and the per-method and per-type
    revenue shares. */
module Finance {
  import opened Seqs
  import opened Text
  import opened Rounding

  /** A student balance as fetched (`outstanding_amount` may be missing). */
  datatype Balance = Balance(outstanding: Option<int>)

  /** `outstanding_amount || 0`. */
  function OwedOrZero(b: Balance): int {
    if b.outstanding.Some? then b.outstanding.value else 0
  }

  predicate UpToDate(b: Balance) {
    OwedOrZero(b) == 0
  }

  /** The revenue statistics as fetched; every field may be missing. Revenue per method and
      per type are listed in the order `Object.entries` gives them. */
  datatype RevenueStats = RevenueStats(
    totalRevenue: Option<int>,
    transactionCount: Option<int>,
    paymentMethods: Option<seq<(string, int)>>,
    paymentTypes: Option<seq<(string, int)>>)

  /** The figures shown on the screen. */
  datatype FinancialStats = FinancialStats(
    totalRevenue: int,
    monthlyRevenue: int,
    outstandingAmount: int,
    collectionRate: real,
    totalPayments: int,
    paymentMethods: seq<(string, int)>,
    paymentTypes: seq<(string, int)>)

  /** `outstandingData?.reduce(...) || 0`: the sum of the balances, 0 when none were fetched. */
  function TotalOwed(balances: Option<seq<Balance>>): int {
    if balances.Some? then Sum(balances.value, OwedOrZero) else 0
  }

  /** `total > 0 ? (up / total) * 100 : 0` on counts. */
  function RateOf(up: nat, total: nat): (r: real)
    ensures total == 0 ==> r == 0.0
    ensures total > 0 ==> r * total as real == 100.0 * up as real
    ensures up <= total ==> 0.0 <= r <= 100.0
  {
    GuardedShare(up as real, total as real)
  }

  /** The collection rate: the percentage of students who owe nothing, 0 when there are
      none. */
  function CollectionRate(balances: seq<Balance>): (r: real)
    ensures |balances| == 0 ==> r == 0.0
    ensures |balances| > 0 ==> r * |balances| as real == 100.0 * Count(balances, UpToDate) as real
    ensures 0.0 <= r <= 100.0
  {
    RateOf(Count(balances, UpToDate), |balances|)
  }

  /** The derivation of the screen's figures in `loadData`: missing data count as zero
      students, zero revenue and no breakdown. */
  function DeriveStats(balances: Option<seq<Balance>>, revenue: Option<RevenueStats>): (r: FinancialStats)
    ensures r.outstandingAmount == TotalOwed(balances)
    ensures r.collectionRate == (if balances.Some? then CollectionRate(balances.value) else 0.0)
    ensures r.totalRevenue == r.monthlyRevenue
    ensures revenue.Some? ==> r.totalRevenue == OrZero(revenue.value.totalRevenue) && r.totalPayments == OrZero(revenue.value.transactionCount)
    ensures revenue.Some? ==>
      r.paymentMethods == (if revenue.value.paymentMethods.Some? then revenue.value.paymentMethods.value else []) &&
      r.paymentTypes == (if revenue.value.paymentTypes.Some? then revenue.value.paymentTypes.value else [])
    ensures revenue.None? ==> r.totalRevenue == 0 && r.totalPayments == 0 && r.paymentMethods == [] && r.paymentTypes == []
  {
    var rev := if revenue.Some? then revenue.value else RevenueStats(None, None, None, None);
    FinancialStats(
      OrZero(rev.totalRevenue),
      OrZero(rev.totalRevenue),
      TotalOwed(balances),
      if balances.Some? then CollectionRate(balances.value) else 0.0,
      OrZero(rev.transactionCount),
      if rev.paymentMethods.Some? then rev.paymentMethods.value else [],
      if rev.paymentTypes.Some? then rev.paymentTypes.value else [])
  }

  /** A rate of counts is 100 exactly for the whole and 0 exactly for none. */
  lemma RateOfExtremes(up: nat, total: nat)
    requires 0 < total
    ensures RateOf(up, total) == 100.0 <==> up == total
    ensures RateOf(up, total) == 0.0 <==> up == 0
  {
  }

  /** The collection rate is 100 exactly when every fetched student is up to date, and 0
      exactly when none is. */
  lemma CollectionRateExtremes(balances: seq<Balance>)
    requires |balances| > 0
    ensures CollectionRate(balances) == 100.0 <==> forall i :: 0 <= i < |balances| ==> UpToDate(balances[i])
    ensures CollectionRate(balances) == 0.0 <==> forall i :: 0 <= i < |balances| ==> !UpToDate(balances[i])
  {
    RateOfExtremes(Count(balances, UpToDate), |balances|);
    CountExtremes(balances, UpToDate);
  }

  /** With non-negative balances the outstanding total is 0 exactly when every student is up
      to date. */
  lemma {:induction false} TotalOwedZero(balances: seq<Balance>)
    requires forall i :: 0 <= i < |balances| ==> OwedOrZero(balances[i]) >= 0
    ensures TotalOwed(Some(balances)) >= 0
    ensures TotalOwed(Some(balances)) == 0 <==> forall i :: 0 <= i < |balances| ==> UpToDate(balances[i])
  {
    if |balances| > 0 {
      TotalOwedZero(balances[..|balances| - 1]);
      assert forall i :: 0 <= i < |balances| - 1 ==> balances[..|balances| - 1][i] == balances[i];
    }
  }

  /** The student side of a payment, as joined by the query. */
  datatype Payer = Payer(firstName: string, lastName: string, className: Option<string>)

  datatype Payment = Payment(
    payer: Option<Payer>,
    reference: Option<string>,
    date: string,
    amount: int,
    payMethod: string,
    paymentType: string,
    status: Option<string>)

  /** The searched name: the lower-cased full name, or nothing for a payment without a
      student. */
  function SearchName(p: Payment): string {
    if p.payer.Some? then ToLower(p.payer.value.firstName + " " + p.payer.value.lastName) else ""
  }

  predicate MatchesSearch(p: Payment, term: string) {
    Contains(SearchName(p), ToLower(term)) || Contains(ToLower(OrEmpty(p.reference)), ToLower(term))
  }

  /** The three select filters, each either 'all' or an exact value. */
  datatype PaymentFilters = PaymentFilters(payMethod: string, paymentType: string, status: string)

  predicate MatchesFilters(p: Payment, f: PaymentFilters) {
    (f.payMethod == "all" || p.payMethod == f.payMethod) &&
    (f.paymentType == "all" || p.paymentType == f.paymentType) &&
    (f.status == "all" || p.status == Some(f.status))
  }

  predicate Listed(p: Payment, term: string, f: PaymentFilters) {
    MatchesSearch(p, term) && MatchesFilters(p, f)
  }

  /** `filteredPayments`: the payments meeting the search and the three filters, in order. */
  function FilteredPayments(payments: seq<Payment>, term: string, f: PaymentFilters): (r: seq<Payment>)
    ensures forall i :: 0 <= i < |r| ==> r[i] in payments
    ensures forall i :: 0 <= i < |r| ==> MatchesSearch(r[i], term) && MatchesFilters(r[i], f)
    ensures forall i :: 0 <= i < |payments| && MatchesSearch(payments[i], term) && MatchesFilters(payments[i], f) ==> payments[i] in r
  {
    Filter(payments, p => Listed(p, term, f))
  }

  /** The listed payments keep the order of the fetched list. */
  lemma FilteredPaymentsOrder(payments: seq<Payment>, term: string, f: PaymentFilters)
    ensures IsSubsequence(FilteredPayments(payments, term, f), payments)
  {
    FilterIsSubsequence(payments, p => Listed(p, term, f));
  }

  /** An empty search term matches every payment, so with all filters at 'all' the whole list
      is shown, in order. */
  lemma EmptySearchKeepsAll(payments: seq<Payment>)
    ensures FilteredPayments(payments, "", PaymentFilters("all", "all", "all")) == payments
  {
    forall i | 0 <= i < |payments|
      ensures Listed(payments[i], "", PaymentFilters("all", "all", "all"))
    {
      ContainsEmpty(SearchName(payments[i]));
    }
    FilterAll(payments, p => Listed(p, "", PaymentFilters("all", "all", "all")));
  }

  /** A payment without a student has an empty searched name, so a non-empty term finds it
      only through its reference number. */
  lemma NoPayerSearch(p: Payment, term: string)
    requires p.payer.None? && term != ""
    ensures MatchesSearch(p, term) <==> Contains(ToLower(OrEmpty(p.reference)), ToLower(term))
  {
    ContainsInEmpty(ToLower(term));
  }

  const ExportHeaders: seq<string> := ["Date", "Élève", "Classe", "Type", "Montant", "Méthode", "Référence", "Statut"]

  /** One line of the payment export: the date and the amount go through the locale
      formatting, parameters here; missing texts become empty cells. */
  function ExportRow(p: Payment, fmtDate: string -> string, fmtAmount: int -> string): (r: seq<string>)
    ensures |r| == |ExportHeaders|
    ensures r[1] == (if p.payer.Some? then p.payer.value.firstName + " " + p.payer.value.lastName else "")
    ensures r[0] == fmtDate(p.date)
    ensures r[2] == (if p.payer.Some? then OrEmpty(p.payer.value.className) else "")
    ensures r[3] == p.paymentType && r[4] == fmtAmount(p.amount) && r[5] == p.payMethod
    ensures r[6] == OrEmpty(p.reference) && r[7] == OrEmpty(p.status)
  {
    [fmtDate(p.date),
     if p.payer.Some? then p.payer.value.firstName + " " + p.payer.value.lastName else "",
     if p.payer.Some? then OrEmpty(p.payer.value.className) else "",
     p.paymentType,
     fmtAmount(p.amount),
     p.payMethod,
     OrEmpty(p.reference),
     OrEmpty(p.status)]
  }

  function ExportText(shown: seq<Payment>, fmtDate: string -> string, fmtAmount: int -> string): string {
    CsvText(ExportHeaders, MapSeq(shown, p => ExportRow(p, fmtDate, fmtAmount)))
  }

  /** The export cells of a payment, free of the character `c`. */
  predicate RowFree(p: Payment, c: char) {
    c !in p.date && c !in p.payMethod && c !in p.paymentType && c !in OrEmpty(p.reference) && c !in OrEmpty(p.status) &&
    (p.payer.Some? ==> c !in p.payer.value.firstName && c !in p.payer.value.lastName && c !in OrEmpty(p.payer.value.className))
  }

  lemma ExportRowFree(p: Payment, fmtDate: string -> string, fmtAmount: int -> string, c: char)
    requires RowFree(p, c) && c != ' ' && c !in fmtDate(p.date) && c !in fmtAmount(p.amount)
    ensures forall j :: 0 <= j < 8 ==> c !in ExportRow(p, fmtDate, fmtAmount)[j]
  {
  }

  /** When no text holds a newline, the export is a header line plus one line per listed
      payment. */
  lemma ExportLineCount(shown: seq<Payment>, fmtDate: string -> string, fmtAmount: int -> string)
    requires forall i :: 0 <= i < |shown| ==> RowFree(shown[i], '\n')
    requires forall d :: '\n' !in fmtDate(d)
    requires forall n :: '\n' !in fmtAmount(n)
    ensures CountChar(ExportText(shown, fmtDate, fmtAmount), '\n') == |shown|
  {
    var rows := MapSeq(shown, p => ExportRow(p, fmtDate, fmtAmount));
    forall i, j | 0 <= i < |rows| && 0 <= j < |rows[i]|
      ensures '\n' !in rows[i][j]
    {
      ExportRowFree(shown[i], fmtDate, fmtAmount, '\n');
    }
    CsvLineCount(ExportHeaders, rows);
  }

  /** Each of the eight cells of a data line is wrapped in one pair of double quotes, none
      escaped: a line holds exactly sixteen quote characters when its texts hold none. */
  lemma ExportRowQuotes(p: Payment, fmtDate: string -> string, fmtAmount: int -> string)
    requires RowFree(p, '"') && '"' !in fmtDate(p.date) && '"' !in fmtAmount(p.amount)
    ensures CountChar(QuotedLine(ExportRow(p, fmtDate, fmtAmount)), '"') == 16
  {
    ExportRowFree(p, fmtDate, fmtAmount, '"');
    QuotedLineQuotes(ExportRow(p, fmtDate, fmtAmount));
  }

  /** The share of one method or type: `totalRevenue > 0 ? (amount / totalRevenue) * 100 : 0`. */
  function RevenueShare(amount: int, totalRevenue: int): (r: real)
    ensures totalRevenue <= 0 ==> r == 0.0
    ensures totalRevenue > 0 ==> r * totalRevenue as real == 100.0 * amount as real
  {
    GuardedShare(amount as real, totalRevenue as real)
  }

  function EntryAmounts(entries: seq<(string, int)>): int {
    if |entries| == 0 then 0 else EntryAmounts(entries[..|entries| - 1]) + entries[|entries| - 1].1
  }

  function ShareSum(entries: seq<(string, int)>, totalRevenue: int): real {
    if |entries| == 0 then 0.0 else ShareSum(entries[..|entries| - 1], totalRevenue) + RevenueShare(entries[|entries| - 1].1, totalRevenue)
  }

  /** The shares add up proportionally: 100 times the listed amounts over the revenue. */
  lemma {:induction false} ShareSumScaled(entries: seq<(string, int)>, totalRevenue: int)
    requires totalRevenue > 0
    ensures ShareSum(entries, totalRevenue) * totalRevenue as real == 100.0 * EntryAmounts(entries) as real
  {
    if |entries| > 0 {
      ShareSumScaled(entries[..|entries| - 1], totalRevenue);
      var a := ShareSum(entries[..|entries| - 1], totalRevenue);
      var b := RevenueShare(entries[|entries| - 1].1, totalRevenue);
      assert (a + b) * totalRevenue as real == a * totalRevenue as real + b * totalRevenue as real;
    }
  }

  /** When the listed amounts make up the whole revenue, the shares add up to 100. */
  lemma SharesAddUp(entries: seq<(string, int)>, totalRevenue: int)
    requires totalRevenue > 0 && EntryAmounts(entries) == totalRevenue
    ensures ShareSum(entries, totalRevenue) == 100.0
  {
    ShareSumScaled(entries, totalRevenue);
    var s := ShareSum(entries, totalRevenue);
    var t := totalRevenue as real;
    assert s * t == 100.0 * t;
    assert (s - 100.0) * t == 0.0;
  }
}
