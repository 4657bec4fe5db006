/** The student roster backed by the database: the class, status and payment-status
    filters, the CSV export of the shown students, the class filter's options, the summary
    percentage of students up to date, and the payment progress bar and remaining amount of
    each student. */
module StudentRoster {
  import opened Seqs
  import opened Text
  import opened Rounding
  import opened Calendar

  /** The class a student is enrolled in, with its level's name when it was fetched. */
  datatype ClassRef = ClassRef(name: string, levelName: Option<string>)

  /** A fetched student. `birth` is the parsed `date_of_birth`; `dateOfBirth` is the text as
      stored, which the export passes to the locale date formatting. */
  datatype RosterStudent = RosterStudent(
    id: string, firstName: string, lastName: string, gender: string,
    dateOfBirth: string, birth: Date, classRef: Option<ClassRef>,
    fatherName: Option<string>, fatherPhone: Option<string>,
    motherName: Option<string>, motherPhone: Option<string>,
    parentEmail: string, address: string,
    status: Option<string>, paymentStatus: Option<string>,
    paidAmount: Option<int>, totalFees: int, outstandingAmount: Option<int>)

  /** The three select filters, each either 'all' or an exact value. */
  datatype RosterFilters = RosterFilters(className: string, status: string, paymentStatus: string)

  /** `student.classes?.name`. */
  function ClassName(s: RosterStudent): Option<string> {
    if s.classRef.Some? then Some(s.classRef.value.name) else None
  }

  /** Each filter is 'all' or an exact match; a student without a class, status or payment
      status matches only 'all'. */
  predicate MatchesRoster(s: RosterStudent, f: RosterFilters) {
    (f.className == "all" || ClassName(s) == Some(f.className)) &&
    (f.status == "all" || s.status == Some(f.status)) &&
    (f.paymentStatus == "all" || s.paymentStatus == Some(f.paymentStatus))
  }

  /** `filteredStudents`: the students meeting the three filters, in order. */
  function FilteredStudents(students: seq<RosterStudent>, f: RosterFilters): (r: seq<RosterStudent>)
    ensures IsSubsequence(r, students)
    ensures forall i :: 0 <= i < |r| ==> MatchesRoster(r[i], f)
    ensures forall i :: 0 <= i < |students| && MatchesRoster(students[i], f) ==> students[i] in r
  {
    FilterIsSubsequence(students, s => MatchesRoster(s, f));
    Filter(students, s => MatchesRoster(s, f))
  }

  /** With every filter at 'all' the whole list is shown. */
  lemma AllFiltersKeepAll(students: seq<RosterStudent>)
    ensures FilteredStudents(students, RosterFilters("all", "all", "all")) == students
  {
    FilterAll(students, s => MatchesRoster(s, RosterFilters("all", "all", "all")));
  }

  /** A student without a class is shown only while the class filter is 'all'. */
  lemma UnassignedOnlyUnderAll(students: seq<RosterStudent>, f: RosterFilters, i: nat)
    requires i < |students| && students[i].classRef.None?
    ensures students[i] in FilteredStudents(students, f) ==> f.className == "all"
  {
  }

  const ExportHeaders: seq<string> := [
    "Prénom", "Nom", "Sexe", "Date de naissance", "Classe", "Niveau",
    "Père", "Téléphone père", "Mère", "Téléphone mère", "Email parent",
    "Adresse", "Statut", "Statut paiement", "Montant payé", "Montant total"]

  /** `s.classes?.levels?.name || ''`. */
  function LevelCell(s: RosterStudent): string {
    if s.classRef.Some? then OrEmpty(s.classRef.value.levelName) else ""
  }

  /** One line of the export: missing texts become empty cells, a missing paid amount is 0;
      the date and the amounts go through the locale formatting, parameters here. */
  function ExportRow(s: RosterStudent, fmtDate: string -> string, fmtAmount: int -> string): (r: seq<string>)
    ensures |r| == |ExportHeaders| == 16
    ensures r[0] == s.firstName && r[1] == s.lastName
    ensures r[2] == s.gender && r[3] == fmtDate(s.dateOfBirth)
    ensures r[4] == OrEmpty(ClassName(s)) && r[5] == LevelCell(s)
    ensures r[6] == OrEmpty(s.fatherName) && r[7] == OrEmpty(s.fatherPhone)
    ensures r[8] == OrEmpty(s.motherName) && r[9] == OrEmpty(s.motherPhone)
    ensures r[10] == s.parentEmail && r[11] == s.address
    ensures r[12] == OrEmpty(s.status) && r[13] == OrEmpty(s.paymentStatus)
    ensures r[14] == fmtAmount(OrZero(s.paidAmount)) && r[15] == fmtAmount(s.totalFees)
  {
    [s.firstName, s.lastName, s.gender, fmtDate(s.dateOfBirth),
     OrEmpty(ClassName(s)), LevelCell(s),
     OrEmpty(s.fatherName), OrEmpty(s.fatherPhone), OrEmpty(s.motherName), OrEmpty(s.motherPhone),
     s.parentEmail, s.address, OrEmpty(s.status), OrEmpty(s.paymentStatus),
     fmtAmount(OrZero(s.paidAmount)), fmtAmount(s.totalFees)]
  }

  /** `exportStudents`' CSV text for the shown students. */
  function ExportText(shown: seq<RosterStudent>, fmtDate: string -> string, fmtAmount: int -> string): string {
    CsvText(ExportHeaders, MapSeq(shown, s => ExportRow(s, fmtDate, fmtAmount)))
  }

  /** The stored texts of a student that reach the export, free of the character `c`. */
  predicate RowFree(s: RosterStudent, c: char) {
    c !in s.firstName && c !in s.lastName && c !in s.gender && c !in OrEmpty(ClassName(s)) && c !in LevelCell(s) &&
    c !in OrEmpty(s.fatherName) && c !in OrEmpty(s.fatherPhone) && c !in OrEmpty(s.motherName) && c !in OrEmpty(s.motherPhone) &&
    c !in s.parentEmail && c !in s.address && c !in OrEmpty(s.status) && c !in OrEmpty(s.paymentStatus)
  }

  /** Formatted dates and amounts free of `c` as well. */
  ghost predicate FormatsFree(fmtDate: string -> string, fmtAmount: int -> string, c: char) {
    (forall d :: c !in fmtDate(d)) && (forall n :: c !in fmtAmount(n))
  }

  lemma ExportRowFree(s: RosterStudent, fmtDate: string -> string, fmtAmount: int -> string, c: char)
    requires RowFree(s, c) && FormatsFree(fmtDate, fmtAmount, c)
    ensures forall j :: 0 <= j < 16 ==> c !in ExportRow(s, fmtDate, fmtAmount)[j]
  {
    assert c !in fmtDate(s.dateOfBirth);
    assert c !in fmtAmount(OrZero(s.paidAmount)) && c !in fmtAmount(s.totalFees);
  }

  /** When no text holds a line break, the export is the header line plus one line per shown
      student. */
  lemma ExportLineCount(shown: seq<RosterStudent>, fmtDate: string -> string, fmtAmount: int -> string)
    requires forall i :: 0 <= i < |shown| ==> RowFree(shown[i], '\n')
    requires FormatsFree(fmtDate, fmtAmount, '\n')
    ensures CountChar(ExportText(shown, fmtDate, fmtAmount), '\n') == |shown|
  {
    var rows := MapSeq(shown, s => ExportRow(s, fmtDate, fmtAmount));
    forall i, j | 0 <= i < |rows| && 0 <= j < |rows[i]|
      ensures '\n' !in rows[i][j]
    {
      ExportRowFree(shown[i], fmtDate, fmtAmount, '\n');
    }
    CsvLineCount(ExportHeaders, rows);
  }

  /** Each of the sixteen cells of a data line is wrapped in one pair of double quotes, none
      escaped. */
  lemma ExportRowQuotes(s: RosterStudent, fmtDate: string -> string, fmtAmount: int -> string)
    requires RowFree(s, '"') && FormatsFree(fmtDate, fmtAmount, '"')
    ensures CountChar(QuotedLine(ExportRow(s, fmtDate, fmtAmount)), '"') == 32
  {
    ExportRowFree(s, fmtDate, fmtAmount, '"');
    QuotedLineQuotes(ExportRow(s, fmtDate, fmtAmount));
  }

  /** The non-empty class names of the students, in order (`.map(...).filter(Boolean)`). */
  function NamedClasses(students: seq<RosterStudent>): (r: seq<string>)
    ensures forall i :: 0 <= i < |r| ==> r[i] != "" && exists j :: 0 <= j < |students| && ClassName(students[j]) == Some(r[i])
    ensures forall j :: 0 <= j < |students| && ClassName(students[j]).Some? && ClassName(students[j]).value != "" ==> ClassName(students[j]).value in r
  {
    if |students| == 0 then []
    else
      var p, s := students[..|students| - 1], students[|students| - 1];
      assert forall j :: 0 <= j < |p| ==> p[j] == students[j];
      NamedClasses(p) + (if ClassName(s).Some? && ClassName(s).value != "" then [ClassName(s).value] else [])
  }

  /** The class filter's options: each distinct non-empty class name of the fetched students
      once. */
  function ClassOptions(students: seq<RosterStudent>): (r: seq<string>)
    ensures NoDup(r)
    ensures forall x :: x in r <==> x != "" && exists j :: 0 <= j < |students| && ClassName(students[j]) == Some(x)
  {
    Distinct(NamedClasses(students))
  }

  /** The counts `getStudentStats` returns. */
  datatype StudentStats = StudentStats(total: int, upToDate: int, late: int, partial: int)

  /** The summary line under "Paiements à Jour": the rounded percentage of students up to
      date, 0 when there are none. */
  function UpToDatePercent(stats: StudentStats): (r: int)
    ensures stats.total <= 0 ==> r == 0
    ensures stats.total > 0 ==> 2 * stats.total * r <= 200 * stats.upToDate + stats.total < 2 * stats.total * (r + 1)
  {
    GuardedPercent(stats.upToDate, stats.total)
  }

  /** When the up-to-date count is a part of the total, the percentage is in [0, 100]. */
  lemma UpToDatePercentRange(stats: StudentStats)
    requires 0 <= stats.upToDate <= stats.total
    ensures 0 <= UpToDatePercent(stats) <= 100
    ensures stats.upToDate == stats.total > 0 ==> UpToDatePercent(stats) == 100
  {
    GuardedPercentRange(stats.upToDate, stats.total);
  }

  function Min100(x: real): real {
    if x < 100.0 then x else 100.0
  }

  /** The progress bar's width, `Math.min(((paid || 0) / total) * 100, 100)`, in percent. For a
      zero total the quotient is infinite or NaN: a positive amount gives 100, and otherwise the
      width is NaN or -Infinity, which is no width at all (None). */
  function ProgressWidth(paid: Option<int>, total: int): (r: Option<real>)
    ensures r.None? <==> total == 0 && OrZero(paid) <= 0
    ensures r.Some? ==> r.value <= 100.0
  {
    var p := OrZero(paid);
    if total > 0 then Some(Min100(GuardedShare(p as real, total as real)))
    else if total < 0 then Some(Min100(p as real / total as real * 100.0))
    else if p > 0 then Some(100.0)
    else None
  }

  /** For a positive total and an amount between 0 and the total, the width is the paid share
      of the total in percent. */
  lemma ProgressProportional(paid: Option<int>, total: int)
    requires 0 < total && 0 <= OrZero(paid) <= total
    ensures var r := ProgressWidth(paid, total);
      r.Some? && 0.0 <= r.value && r.value * total as real == 100.0 * OrZero(paid) as real
  {
  }

  /** An amount at or above a positive total fills the bar. */
  lemma ProgressFull(paid: Option<int>, total: int)
    requires 0 < total <= OrZero(paid)
    ensures ProgressWidth(paid, total) == Some(100.0)
  {
    var share := GuardedShare(OrZero(paid) as real, total as real);
    if share < 100.0 {
      ScaleStrict(share, 100.0, total as real);
    }
  }

  /** `student.outstanding_amount || (student.total_fees - (student.paid_amount || 0))`: the
      remaining amount of the detail view. */
  function Remaining(s: RosterStudent): (r: int)
    ensures s.outstandingAmount.Some? && s.outstandingAmount.value != 0 ==> r == s.outstandingAmount.value
  {
    if s.outstandingAmount.Some? && s.outstandingAmount.value != 0 then s.outstandingAmount.value
    else s.totalFees - OrZero(s.paidAmount)
  }

  /** Where the stored outstanding amount is missing or agrees with the fees and the paid
      amount, the remaining amount shown is the fees less the paid amount; a stored 0 is
      replaced by that difference even when it is not 0. */
  lemma RemainingFallback(s: RosterStudent)
    ensures s.outstandingAmount.None? || s.outstandingAmount == Some(s.totalFees - OrZero(s.paidAmount)) ==>
      Remaining(s) == s.totalFees - OrZero(s.paidAmount)
    ensures s.outstandingAmount == Some(0) ==> Remaining(s) == s.totalFees - OrZero(s.paidAmount)
  {
  }

  /** What a JSX `{...}` slot renders: nothing, a text, or the "Reste" paragraph. */
  datatype Rendered = NothingRendered | TextNode(text: string) | ResteLine(amount: int)

  /** `{student.outstanding_amount && student.outstanding_amount > 0 && <p>Reste…</p>}` as
      written: a missing amount renders nothing, but an amount of 0 is the value of the
      expression, and React renders the number 0 as the text "0". */
  function ResteAsWritten(outstanding: Option<int>): Rendered {
    if outstanding.None? then NothingRendered
    else if outstanding.value == 0 then TextNode("0")
    else if outstanding.value > 0 then ResteLine(outstanding.value)
    else NothingRendered
  }

  /** A student who owes nothing gets a stray "0" in the payment column. */
  lemma ResteStrayZero()
    ensures ResteAsWritten(Some(0)) == TextNode("0")
  {
  }

  /** The slot as evidently intended: the "Reste" line exactly when something is owed, and
      nothing otherwise. */
  function Reste(outstanding: Option<int>): (r: Rendered)
    ensures r.ResteLine? <==> outstanding.Some? && outstanding.value > 0
    ensures r.ResteLine? ==> r.amount == outstanding.value
    ensures !r.TextNode?
  {
    if outstanding.Some? && outstanding.value > 0 then ResteLine(outstanding.value) else NothingRendered
  }

  /** The two agree except on an amount of 0. */
  lemma ResteAgreesElsewhere(outstanding: Option<int>)
    requires outstanding != Some(0)
    ensures ResteAsWritten(outstanding) == Reste(outstanding)
  {
  }

  /** The age shown in the list and the detail view, as written: the difference of the years
      of today and of the birth date, ignoring whether the birthday has come this year. */
  function ShownAgeAsWritten(birth: Date, today: Date): int {
    YearDifference(birth, today)
  }

  /** Before this year's birthday the written age is one year too many. */
  lemma ShownAgeTooOld()
    ensures var birth, today := Date(2015, 12, 31), Date(2024, 6, 1);
      ShownAgeAsWritten(birth, today) == 9 && Age(birth, today) == 8
  {
  }

  /** The shown age as evidently intended, as the enrolment form computes it: the number of
      whole years lived by today. */
  function ShownAge(birth: Date, today: Date): (r: int)
    ensures OnOrBefore(Anniversary(birth, r), today)
    ensures !OnOrBefore(Anniversary(birth, r + 1), today)
  {
    AgeIsWholeYears(birth, today);
    Age(birth, today)
  }

  /** The written age is right from the birthday on, and one too many before it. */
  lemma ShownAgeAsWrittenVersusShownAge(birth: Date, today: Date)
    ensures ShownAgeAsWritten(birth, today) == ShownAge(birth, today) <==> !BeforeBirthday(birth, today)
    ensures BeforeBirthday(birth, today) ==> ShownAgeAsWritten(birth, today) == ShownAge(birth, today) + 1
  {
    YearDifferenceVersusAge(birth, today);
  }
}
