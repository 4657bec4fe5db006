/** The grade service's processing of fetched rows: per-subject weighted averages, the rows
    inserted when a class's grades are entered, and the attendance rate and last grade shown
    on the grade-entry sheet. */
module Grades {
  import opened Seqs
  import opened Rounding

  /** A fetched grade with its coefficient and its subject's name, either possibly missing. */
  datatype GradeEntry = GradeEntry(grade: real, coefficient: Option<real>, subjectName: Option<string>)

  /** `grade.coefficient || 1`: a missing or zero coefficient counts as 1. */
  function CoefOrOne(g: GradeEntry): (c: real)
    ensures c != 0.0
    ensures g.coefficient.Some? && g.coefficient.value >= 0.0 ==> c > 0.0
  {
    if g.coefficient.Some? && g.coefficient.value != 0.0 then g.coefficient.value else 1.0
  }

  /** `grade.subjects?.name || ''`. */
  function SubjectKey(g: GradeEntry): string {
    if g.subjectName.Some? then g.subjectName.value else ""
  }

  function Weighted(g: GradeEntry): real {
    g.grade * CoefOrOne(g)
  }

  /** One subject's accumulator: its name, the weighted grades pushed so far and the total
      coefficient. */
  datatype SubjectAcc = SubjectAcc(subject: string, grades: seq<real>, totalCoefficient: real)

  /** The accumulator of the reduction after the rows `s`: the row's subject is created when
      missing, then its weighted grade is pushed and its coefficient added. */
  function SubjectGroups(s: seq<GradeEntry>): map<string, SubjectAcc> {
    if |s| == 0 then map[]
    else
      var m, g := SubjectGroups(s[..|s| - 1]), s[|s| - 1];
      var k := SubjectKey(g);
      var m' := if k in m then m else m[k := SubjectAcc(k, [], 0.0)];
      m'[k := SubjectAcc(m'[k].subject, m'[k].grades + [Weighted(g)], m'[k].totalCoefficient + CoefOrOne(g))]
  }

  /** The subject keys, each once, in the order their accumulators are created. */
  function SubjectOrder(s: seq<GradeEntry>): seq<string> {
    if |s| == 0 then []
    else
      var p, k := SubjectOrder(s[..|s| - 1]), SubjectKey(s[|s| - 1]);
      if k in p then p else p + [k]
  }

  lemma SubjectStep(s: seq<GradeEntry>, g: GradeEntry)
    ensures var m, k := SubjectGroups(s), SubjectKey(g);
      var m' := if k in m then m else m[k := SubjectAcc(k, [], 0.0)];
      SubjectGroups(s + [g]) == m'[k := SubjectAcc(m'[k].subject, m'[k].grades + [Weighted(g)], m'[k].totalCoefficient + CoefOrOne(g))]
    ensures SubjectOrder(s + [g]) == if SubjectKey(g) in SubjectOrder(s) then SubjectOrder(s) else SubjectOrder(s) + [SubjectKey(g)]
  {
    assert (s + [g])[..|s|] == s;
  }

  /** The subject order is the distinct subject keys of the rows. */
  lemma {:induction false} SubjectOrderDistinct(s: seq<GradeEntry>)
    ensures SubjectOrder(s) == Distinct(MapSeq(s, SubjectKey))
  {
    if |s| > 0 {
      var p, g := s[..|s| - 1], s[|s| - 1];
      SubjectOrderDistinct(p);
      assert MapSeq(s, SubjectKey) == MapSeq(p, SubjectKey) + [SubjectKey(g)];
      DistinctSnoc(MapSeq(p, SubjectKey), SubjectKey(g));
    }
  }

  /** The accumulators are exactly the subjects met. */
  lemma {:induction false} SubjectGroupsKeys(s: seq<GradeEntry>)
    ensures forall k :: k in SubjectGroups(s) <==> k in SubjectOrder(s)
  {
    if |s| > 0 {
      var p, g := s[..|s| - 1], s[|s| - 1];
      SubjectGroupsKeys(p);
      assert s == p + [g];
      SubjectStep(p, g);
    }
  }

  lemma SubjectGroupsKey(s: seq<GradeEntry>, k: string)
    ensures k in SubjectGroups(s) <==> k in SubjectOrder(s)
  {
    SubjectGroupsKeys(s);
  }

  /** The rows of one subject, in order. */
  function SubjectRows(s: seq<GradeEntry>, k: string): seq<GradeEntry> {
    if |s| == 0 then []
    else SubjectRows(s[..|s| - 1], k) + (if SubjectKey(s[|s| - 1]) == k then [s[|s| - 1]] else [])
  }

  function WeightedList(t: seq<GradeEntry>): (r: seq<real>)
    ensures |r| == |t|
  {
    if |t| == 0 then [] else WeightedList(t[..|t| - 1]) + [Weighted(t[|t| - 1])]
  }

  function WeightedSum(t: seq<GradeEntry>): real {
    if |t| == 0 then 0.0 else WeightedSum(t[..|t| - 1]) + Weighted(t[|t| - 1])
  }

  function CoefSum(t: seq<GradeEntry>): real {
    if |t| == 0 then 0.0 else CoefSum(t[..|t| - 1]) + CoefOrOne(t[|t| - 1])
  }

  lemma {:induction false} SubjectRowsAbsent(s: seq<GradeEntry>, k: string)
    requires k !in SubjectOrder(s)
    ensures SubjectRows(s, k) == []
  {
    if |s| > 0 {
      var p := s[..|s| - 1];
      assert s == p + [s[|s| - 1]];
      SubjectStep(p, s[|s| - 1]);
      SubjectRowsAbsent(p, k);
    }
  }

  lemma SubjectRowsSnoc(s: seq<GradeEntry>, g: GradeEntry, k: string)
    ensures SubjectRows(s + [g], k) == SubjectRows(s, k) + (if SubjectKey(g) == k then [g] else [])
  {
    assert (s + [g])[..|s|] == s;
  }

  /** Each accumulator holds its subject's name, the weighted grades of that subject's rows
      in order, and the sum of their coefficients. */
  lemma {:induction false} SubjectGroupContent(s: seq<GradeEntry>, k: string)
    requires k in SubjectGroups(s)
    ensures SubjectGroups(s)[k] == SubjectAcc(k, WeightedList(SubjectRows(s, k)), CoefSum(SubjectRows(s, k)))
  {
    var p, g := s[..|s| - 1], s[|s| - 1];
    assert s == p + [g];
    SubjectStep(p, g);
    SubjectRowsSnoc(p, g, k);
    if SubjectKey(g) == k {
      var t := SubjectRows(p, k);
      assert (t + [g])[..|t|] == t;
      if k in SubjectGroups(p) {
        SubjectGroupContent(p, k);
      } else {
        SubjectGroupsKey(p, k);
        SubjectRowsAbsent(p, k);
      }
    } else {
      var m, kg := SubjectGroups(p), SubjectKey(g);
      var m' := if kg in m then m else m[kg := SubjectAcc(kg, [], 0.0)];
      assert k in m' && m'[k] == SubjectGroups(s)[k];
      assert k in m && m[k] == SubjectGroups(s)[k];
      assert SubjectRows(s, k) == SubjectRows(p, k);
      SubjectGroupContent(p, k);
    }
  }

  function Total(xs: seq<real>): real {
    if |xs| == 0 then 0.0 else Total(xs[..|xs| - 1]) + xs[|xs| - 1]
  }

  lemma {:induction false} TotalOfWeighted(t: seq<GradeEntry>)
    ensures Total(WeightedList(t)) == WeightedSum(t)
  {
    if |t| > 0 {
      TotalOfWeighted(t[..|t| - 1]);
      var w := WeightedList(t);
      assert w == WeightedList(t[..|t| - 1]) + [Weighted(t[|t| - 1])];
      assert w[..|w| - 1] == WeightedList(t[..|t| - 1]);
    }
  }

  /** One subject in the result: the accumulator with its average written in; None where the
      division by a zero total coefficient gives NaN or Infinity. */
  datatype SubjectAverage = SubjectAverage(subject: string, grades: seq<real>, totalCoefficient: real, average: Option<real>)

  function Finished(a: SubjectAcc): (r: SubjectAverage)
    ensures r.subject == a.subject && r.grades == a.grades && r.totalCoefficient == a.totalCoefficient
    ensures r.average.None? <==> a.totalCoefficient == 0.0
  {
    SubjectAverage(a.subject, a.grades, a.totalCoefficient,
      if a.totalCoefficient != 0.0 then Some(Total(a.grades) / a.totalCoefficient) else None)
  }

  /** A present average times the coefficient total is the total of the weighted grades. */
  lemma FinishedAverage(a: SubjectAcc)
    ensures var r := Finished(a);
      r.average.Some? ==> r.average.value * a.totalCoefficient == Total(a.grades)
  {
  }

  /** `getSubjectAverages`: the reduction fills the accumulators row by row; then every
      accumulator, in creation order, gets its average. `Object.values` gives the same order
      when no subject name is an integer-like key. */
  method SubjectAverages(rows: seq<GradeEntry>) returns (result: seq<SubjectAverage>)
    ensures |result| == |SubjectOrder(rows)|
    ensures forall i :: 0 <= i < |result| ==>
      SubjectOrder(rows)[i] in SubjectGroups(rows) && result[i] == Finished(SubjectGroups(rows)[SubjectOrder(rows)[i]])
  {
    var keys, acc := SubjectTotals(rows);
    SubjectGroupsKeys(rows);
    result := FinishAll(keys, acc);
  }

  /** The averaging pass over `Object.keys(subjectAverages)`: each accumulator, in the order of
      `keys`, with its average. */
  method FinishAll(keys: seq<string>, acc: map<string, SubjectAcc>) returns (result: seq<SubjectAverage>)
    requires forall n :: 0 <= n < |keys| ==> keys[n] in acc
    ensures |result| == |keys|
    ensures forall n :: 0 <= n < |keys| ==> result[n] == Finished(acc[keys[n]])
  {
    result := [];
    var j := 0;
    while j < |keys|
      invariant 0 <= j <= |keys|
      invariant |result| == j
      invariant forall n :: 0 <= n < j ==> result[n] == Finished(acc[keys[n]])
    {
      var a := acc[keys[j]];
      var average := if a.totalCoefficient != 0.0 then Some(Total(a.grades) / a.totalCoefficient) else None;
      result := result + [SubjectAverage(a.subject, a.grades, a.totalCoefficient, average)];
      j := j + 1;
    }
  }

  /** The reduction of `getSubjectAverages`: the accumulators and the order they are created in. */
  method SubjectTotals(rows: seq<GradeEntry>) returns (keys: seq<string>, acc: map<string, SubjectAcc>)
    ensures keys == SubjectOrder(rows) && acc == SubjectGroups(rows)
  {
    keys, acc := [], map[];
    var i := 0;
    while i < |rows|
      invariant 0 <= i <= |rows|
      invariant keys == SubjectOrder(rows[..i]) && acc == SubjectGroups(rows[..i])
    {
      var g := rows[i];
      var subject := SubjectKey(g);
      ghost var pre := rows[..i];
      assert rows[..i + 1] == pre + [g];
      SubjectGroupsKey(pre, subject);
      SubjectStep(pre, g);
      if subject !in acc {
        acc := acc[subject := SubjectAcc(subject, [], 0.0)];
        keys := keys + [subject];
      }
      acc := acc[subject := SubjectAcc(acc[subject].subject, acc[subject].grades + [Weighted(g)], acc[subject].totalCoefficient + CoefOrOne(g))];
      assert keys == SubjectOrder(pre + [g]) && acc == SubjectGroups(pre + [g]);
      i := i + 1;
    }
    assert rows[..i] == rows;
  }

  /** The results name each distinct subject once. */
  lemma SubjectOrderNoDup(rows: seq<GradeEntry>)
    ensures NoDup(SubjectOrder(rows))
  {
    SubjectOrderDistinct(rows);
  }

  /** Every row's subject, a missing name counting as "", has a result. */
  lemma SubjectOrderCovers(rows: seq<GradeEntry>, r: GradeEntry)
    requires r in rows
    ensures SubjectKey(r) in SubjectOrder(rows)
  {
    SubjectOrderDistinct(rows);
    var j :| 0 <= j < |rows| && rows[j] == r;
    assert MapSeq(rows, SubjectKey)[j] == SubjectKey(r);
  }

  /** A subject's result holds its name, the weighted grades of its rows and their
      coefficient sum, and its average is the weighted grade sum over the coefficient sum,
      absent when that sum is 0. */
  lemma SubjectAverageOf(rows: seq<GradeEntry>, k: string)
    requires k in SubjectOrder(rows)
    ensures k in SubjectGroups(rows)
    ensures var t, a := SubjectRows(rows, k), Finished(SubjectGroups(rows)[k]);
      a.subject == k && a.grades == WeightedList(t) && a.totalCoefficient == CoefSum(t) &&
      a.average == if CoefSum(t) != 0.0 then Some(WeightedSum(t) / CoefSum(t)) else None
  {
    SubjectGroupsKey(rows, k);
    SubjectGroupContent(rows, k);
    TotalOfWeighted(SubjectRows(rows, k));
  }

  /** Every coefficient present is non-negative. */
  predicate NonNegativeCoefficients(t: seq<GradeEntry>) {
    forall j :: 0 <= j < |t| ==> t[j].coefficient.Some? ==> t[j].coefficient.value >= 0.0
  }

  /** With non-negative coefficients the coefficient sum of a non-empty list is positive. */
  lemma {:induction false} CoefSumPositive(t: seq<GradeEntry>)
    requires NonNegativeCoefficients(t)
    ensures |t| > 0 ==> CoefSum(t) > 0.0
    ensures |t| == 0 ==> CoefSum(t) == 0.0
  {
    if |t| > 0 {
      var p := t[..|t| - 1];
      assert forall j :: 0 <= j < |p| ==> p[j] == t[j];
      CoefSumPositive(p);
    }
  }

  /** One more weighted term keeps a lower bound. */
  lemma LowerStep(lo: real, cp: real, wp: real, x: real, c: real)
    requires lo * cp <= wp && lo <= x && c > 0.0
    ensures lo * (cp + c) <= wp + x * c
  {
    ScaleWeak(lo, x, c);
  }

  /** One more weighted term keeps an upper bound. */
  lemma UpperStep(hi: real, cp: real, wp: real, x: real, c: real)
    requires wp <= hi * cp && x <= hi && c > 0.0
    ensures wp + x * c <= hi * (cp + c)
  {
    ScaleWeak(x, hi, c);
  }

  /** With non-negative coefficients the weighted sum of grades in `[lo, hi]` lies between `lo`
      and `hi` times the coefficient sum. */
  lemma {:induction false} WeightedSumBounds(t: seq<GradeEntry>, lo: real, hi: real)
    requires NonNegativeCoefficients(t)
    requires forall j :: 0 <= j < |t| ==> lo <= t[j].grade <= hi
    ensures lo * CoefSum(t) <= WeightedSum(t) <= hi * CoefSum(t)
  {
    if |t| > 0 {
      var p, g := t[..|t| - 1], t[|t| - 1];
      assert forall j :: 0 <= j < |p| ==> p[j] == t[j];
      assert NonNegativeCoefficients(p);
      assert forall j :: 0 <= j < |p| ==> lo <= p[j].grade <= hi;
      WeightedSumBounds(p, lo, hi);
      var c, cp, wp := CoefOrOne(g), CoefSum(p), WeightedSum(p);
      assert c > 0.0 && lo <= g.grade <= hi;
      assert CoefSum(t) == cp + c && WeightedSum(t) == wp + g.grade * c;
      LowerStep(lo, cp, wp, g.grade, c);
      UpperStep(hi, cp, wp, g.grade, c);
    }
  }

  /** A quotient whose numerator lies between `lo` and `hi` times a positive denominator lies
      between `lo` and `hi`. */
  lemma QuotientBounds(w: real, c: real, lo: real, hi: real)
    requires c > 0.0 && lo * c <= w <= hi * c
    ensures lo <= w / c <= hi
  {
    var q := w / c;
    assert q * c == w;
    if q < lo {
      ScaleStrict(q, lo, c);
    }
    if q > hi {
      ScaleStrict(hi, q, c);
    }
  }

  /** With non-negative coefficients a non-empty list's weighted average lies between its
      lowest and its highest grade. */
  lemma WeightedAverageBounds(t: seq<GradeEntry>, lo: real, hi: real)
    requires |t| > 0 && NonNegativeCoefficients(t)
    requires forall j :: 0 <= j < |t| ==> lo <= t[j].grade <= hi
    ensures CoefSum(t) > 0.0 && lo <= WeightedSum(t) / CoefSum(t) <= hi
  {
    CoefSumPositive(t);
    WeightedSumBounds(t, lo, hi);
    QuotientBounds(WeightedSum(t), CoefSum(t), lo, hi);
  }

  /** With non-negative coefficients a subject's average exists and lies between its lowest
      and its highest grade. */
  lemma AverageWithinGrades(rows: seq<GradeEntry>, k: string, lo: real, hi: real)
    requires k in SubjectOrder(rows)
    requires NonNegativeCoefficients(rows)
    requires forall j :: 0 <= j < |SubjectRows(rows, k)| ==> lo <= SubjectRows(rows, k)[j].grade <= hi
    ensures k in SubjectGroups(rows)
    ensures var a := Finished(SubjectGroups(rows)[k]);
      a.average.Some? && lo <= a.average.value <= hi
  {
    SubjectAverageOf(rows, k);
    SubjectRowsSubset(rows, k);
    SubjectRowsNonEmpty(rows, k);
    WeightedAverageBounds(SubjectRows(rows, k), lo, hi);
  }

  /** The rows of a subject come from the rows and keep their coefficients' sign. */
  lemma {:induction false} SubjectRowsSubset(s: seq<GradeEntry>, k: string)
    requires NonNegativeCoefficients(s)
    ensures NonNegativeCoefficients(SubjectRows(s, k))
  {
    if |s| > 0 {
      var p := s[..|s| - 1];
      assert forall j :: 0 <= j < |p| ==> p[j] == s[j];
      SubjectRowsSubset(p, k);
    }
  }

  /** A subject met has at least one row. */
  lemma {:induction false} SubjectRowsNonEmpty(s: seq<GradeEntry>, k: string)
    requires k in SubjectOrder(s)
    ensures |SubjectRows(s, k)| > 0
  {
    var p, g := s[..|s| - 1], s[|s| - 1];
    assert s == p + [g];
    SubjectStep(p, g);
    SubjectRowsSnoc(p, g, k);
    if SubjectKey(g) != k {
      SubjectRowsNonEmpty(p, k);
    }
  }

  /** The evaluation shared by every row of a class's grade entry. */
  datatype Evaluation = Evaluation(
    subjectId: string, classId: string, academicPeriodId: string,
    evaluationType: string, evaluationTitle: string, evaluationDate: string, coefficient: real)

  /** A student's entry in the class sheet; the grade may be left empty. */
  datatype ClassGradeEntry = ClassGradeEntry(studentId: string, grade: Option<real>, comment: Option<string>)

  /** A row inserted into the grades table. */
  datatype GradeInsert = GradeInsert(
    studentId: string, subjectId: string, classId: string, academicPeriodId: string,
    grade: real, coefficient: real, evaluationType: string, evaluationTitle: string,
    evaluationDate: string, teacherComment: Option<string>, createdBy: Option<string>)

  predicate Graded(e: ClassGradeEntry) {
    e.grade.Some?
  }

  function InsertRow(e: ClassGradeEntry, ev: Evaluation, user: Option<string>): GradeInsert
    requires Graded(e)
  {
    GradeInsert(e.studentId, ev.subjectId, ev.classId, ev.academicPeriodId, e.grade.value,
      ev.coefficient, ev.evaluationType, ev.evaluationTitle, ev.evaluationDate, e.comment, user)
  }

  /** `gradeInserts` in `enterClassGrades`: one row per entry with a grade, in order; `user`
      is the signed-in user's id, if any. */
  function GradeInserts(entries: seq<ClassGradeEntry>, ev: Evaluation, user: Option<string>): (r: seq<GradeInsert>)
    ensures |r| == Count(entries, Graded)
  {
    if |entries| == 0 then []
    else
      var p, e := entries[..|entries| - 1], entries[|entries| - 1];
      GradeInserts(p, ev, user) + (if Graded(e) then [InsertRow(e, ev, user)] else [])
  }

  /** An inserted row carries the shared evaluation and the signed-in user, and the student,
      grade and comment of one of the entries. */
  predicate Carries(x: GradeInsert, entries: seq<ClassGradeEntry>, ev: Evaluation, user: Option<string>) {
    x.subjectId == ev.subjectId && x.classId == ev.classId && x.academicPeriodId == ev.academicPeriodId &&
    x.coefficient == ev.coefficient && x.evaluationType == ev.evaluationType &&
    x.evaluationTitle == ev.evaluationTitle && x.evaluationDate == ev.evaluationDate && x.createdBy == user &&
    ClassGradeEntry(x.studentId, Some(x.grade), x.teacherComment) in entries
  }

  /** Every inserted row carries the evaluation, the user and one entry's own fields. */
  lemma {:induction false} GradeInsertsContent(entries: seq<ClassGradeEntry>, ev: Evaluation, user: Option<string>)
    ensures forall i :: 0 <= i < |GradeInserts(entries, ev, user)| ==> Carries(GradeInserts(entries, ev, user)[i], entries, ev, user)
  {
    if |entries| > 0 {
      var p, e := entries[..|entries| - 1], entries[|entries| - 1];
      GradeInsertsContent(p, ev, user);
      var r, rp := GradeInserts(entries, ev, user), GradeInserts(p, ev, user);
      assert r == rp + (if Graded(e) then [InsertRow(e, ev, user)] else []);
      forall i | 0 <= i < |r|
        ensures Carries(r[i], entries, ev, user)
      {
        if i < |rp| {
          assert r[i] == rp[i] && Carries(rp[i], p, ev, user);
          var x := ClassGradeEntry(r[i].studentId, Some(r[i].grade), r[i].teacherComment);
          assert x in p;
          var j :| 0 <= j < |p| && p[j] == x;
          assert entries[j] == x;
        } else {
          assert Graded(e) && r[i] == InsertRow(e, ev, user);
          assert ClassGradeEntry(r[i].studentId, Some(r[i].grade), r[i].teacherComment) == e;
        }
      }
    }
  }

  /** The inserted rows are, in order, the rows built from the entries that have a grade. */
  lemma {:induction false} GradeInsertsInOrder(entries: seq<ClassGradeEntry>, ev: Evaluation, user: Option<string>)
    ensures |GradeInserts(entries, ev, user)| == |Filter(entries, Graded)|
    ensures forall i :: 0 <= i < |Filter(entries, Graded)| ==>
      GradeInserts(entries, ev, user)[i] == InsertRow(Filter(entries, Graded)[i], ev, user)
  {
    if |entries| > 0 {
      var p, e := entries[..|entries| - 1], entries[|entries| - 1];
      GradeInsertsInOrder(p, ev, user);
      var f, fp := Filter(entries, Graded), Filter(p, Graded);
      var r, rp := GradeInserts(entries, ev, user), GradeInserts(p, ev, user);
      assert f == fp + (if Graded(e) then [e] else []);
      assert r == rp + (if Graded(e) then [InsertRow(e, ev, user)] else []);
      forall i | 0 <= i < |f|
        ensures r[i] == InsertRow(f[i], ev, user)
      {
        if i < |fp| {
          assert f[i] == fp[i] && r[i] == rp[i];
        }
      }
    }
  }

  /** When every entry has a grade, there is one row per entry, for the same student, in
      order. */
  lemma {:induction false} AllGradedInserts(entries: seq<ClassGradeEntry>, ev: Evaluation, user: Option<string>)
    requires forall i :: 0 <= i < |entries| ==> Graded(entries[i])
    ensures |GradeInserts(entries, ev, user)| == |entries|
    ensures forall i :: 0 <= i < |entries| ==>
      GradeInserts(entries, ev, user)[i].studentId == entries[i].studentId &&
      Some(GradeInserts(entries, ev, user)[i].grade) == entries[i].grade
  {
    if |entries| > 0 {
      var p, e := entries[..|entries| - 1], entries[|entries| - 1];
      assert forall i :: 0 <= i < |p| ==> p[i] == entries[i];
      AllGradedInserts(p, ev, user);
      var r, rp := GradeInserts(entries, ev, user), GradeInserts(p, ev, user);
      assert r == rp + [InsertRow(e, ev, user)];
      forall i | 0 <= i < |entries|
        ensures r[i].studentId == entries[i].studentId && Some(r[i].grade) == entries[i].grade
      {
        if i < |p| {
          assert r[i] == rp[i] && entries[i] == p[i];
        } else {
          assert i == |entries| - 1;
          assert r[i] == InsertRow(e, ev, user);
        }
      }
    }
  }

  /** A fetched student of the grade-entry sheet with the statuses of their attendance
      records and their grades, as fetched (either list may be missing). */
  datatype EntryStudent = EntryStudent(
    id: string, firstName: string, lastName: string,
    attendance: Option<seq<string>>, grades: Option<seq<real>>)

  datatype SheetRow = SheetRow(
    id: string, firstName: string, lastName: string,
    currentGrade: Option<real>, previousGrade: Option<real>, attendance: int)

  /** The number of `Présent` records, 0 when the list is missing. */
  function PresentDays(st: EntryStudent): (n: nat)
    ensures st.attendance.Some? ==> n <= |st.attendance.value|
  {
    if st.attendance.Some? then Count(st.attendance.value, (a: string) => a == "Présent") else 0
  }

  /** `Math.round((presentDays / 30) * 100)`: the attendance rate over a 30-day month. No
      number of days lands on a half, so the exact rounding agrees with the floating-point
      one. */
  function AttendanceRate(presentDays: nat): (r: int)
    ensures presentDays <= 30 ==> 0 <= r <= 100
    ensures presentDays == 0 ==> r == 0
    ensures presentDays == 30 ==> r == 100
    ensures 60 * r <= 200 * presentDays + 30 < 60 * (r + 1)
  {
    if presentDays <= 30 then
      GuardedPercentRange(presentDays, 30);
      GuardedPercent(presentDays, 30)
    else GuardedPercent(presentDays, 30)
  }

  /** The attendance rate is never exactly between two integers. */
  lemma AttendanceNeverHalf(presentDays: nat, k: int)
    ensures 2 * 100 * presentDays != 30 * (2 * k + 1)
  {
  }

  /** One sheet row: no current grade yet, the first fetched grade as the previous one. */
  function SheetRowOf(st: EntryStudent): (r: SheetRow)
    ensures r.id == st.id && r.firstName == st.firstName && r.lastName == st.lastName
    ensures r.currentGrade.None?
    ensures r.previousGrade.None? <==> st.grades.None? || |st.grades.value| == 0
    ensures r.previousGrade.Some? ==> r.previousGrade.value == st.grades.value[0]
    ensures r.attendance == AttendanceRate(PresentDays(st))
  {
    SheetRow(st.id, st.firstName, st.lastName, None,
      if st.grades.Some? && |st.grades.value| > 0 then Some(st.grades.value[0]) else None,
      AttendanceRate(PresentDays(st)))
  }

  /** `getStudentsForGradeEntry`'s mapping: one row per fetched student in order, none when
      nothing was fetched. */
  function SheetRows(data: Option<seq<EntryStudent>>): (r: seq<SheetRow>)
    ensures data.None? ==> r == []
    ensures data.Some? ==> |r| == |data.value| && forall i :: 0 <= i < |r| ==> r[i] == SheetRowOf(data.value[i])
  {
    if data.Some? then MapSeq(data.value, SheetRowOf) else []
  }
}
