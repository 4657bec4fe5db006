/** A teacher's weekly timetable: the schedule of the selected teacher, the lesson in a cell of
    the grid, the hours per subject with their shares, and the numbers of distinct classes and
    rooms. */
module TeacherTimetable {
  import opened Seqs
  import opened Rounding
  import ClassSchedule

  datatype Lesson = Lesson(day: string, time: string, subject: string, className: string, room: string)

  datatype Teacher = Teacher(id: string, name: string, subjects: seq<string>)

  const Teachers: seq<Teacher> := [
    Teacher("traore", "M. Moussa Traore", ["Mathématiques", "Sciences"]),
    Teacher("kone", "Mme Aminata Kone", ["Français", "Histoire"]),
    Teacher("sidibe", "M. Ibrahim Sidibe", ["Anglais"]),
    Teacher("coulibaly", "Mlle Fatoumata Coulibaly", ["Arts", "Sport"])]

  const TraoreLessons: seq<Lesson> := [
    Lesson("Lundi", "08:00-09:00", "Mathématiques", "CM2A", "Salle 12"),
    Lesson("Lundi", "09:00-10:00", "Sciences", "CM1A", "Labo 1"),
    Lesson("Lundi", "10:30-11:30", "Mathématiques", "CM2B", "Salle 12"),
    Lesson("Mardi", "08:00-09:00", "Sciences", "CM2A", "Labo 1"),
    Lesson("Mardi", "14:00-15:00", "Mathématiques", "CM1B", "Salle 15"),
    Lesson("Mercredi", "08:00-09:00", "Mathématiques", "CM2A", "Salle 12"),
    Lesson("Jeudi", "09:00-10:00", "Sciences", "CM1A", "Labo 1"),
    Lesson("Vendredi", "08:00-09:00", "Mathématiques", "CM2B", "Salle 12")]

  const KoneLessons: seq<Lesson> := [
    Lesson("Lundi", "08:00-09:00", "Français", "CE2A", "Salle 8"),
    Lesson("Lundi", "09:00-10:00", "Histoire", "CE1A", "Salle 10"),
    Lesson("Mardi", "08:00-09:00", "Français", "CE2B", "Salle 8"),
    Lesson("Mercredi", "10:30-11:30", "Histoire", "CE2A", "Salle 10"),
    Lesson("Jeudi", "08:00-09:00", "Français", "CE1B", "Salle 8"),
    Lesson("Vendredi", "09:00-10:00", "Histoire", "CE2B", "Salle 10")]

  /** The teacher selected at first, `teacherId || 'traore'`. */
  function InitialTeacher(teacherId: Option<string>): (r: string)
    ensures teacherId.Some? && teacherId.value != "" ==> r == teacherId.value
    ensures teacherId.None? || teacherId.value == "" ==> r == "traore"
  {
    if teacherId.Some? && teacherId.value != "" then teacherId.value else "traore"
  }

  /** `teacherSchedules[selectedTeacher] || []`: only two teachers have a timetable. */
  function ScheduleOf(teacherId: string): (r: seq<Lesson>)
    ensures teacherId != "traore" && teacherId != "kone" ==> r == []
    ensures teacherId == "traore" ==> r == TraoreLessons
    ensures teacherId == "kone" ==> r == KoneLessons
  {
    if teacherId == "traore" then TraoreLessons
    else if teacherId == "kone" then KoneLessons
    else []
  }

  /** `currentTeacher`: the listed teacher with that id. */
  function CurrentTeacher(teacherId: string): (r: Option<Teacher>)
    ensures r.Some? ==> r.value.id == teacherId && r.value in Teachers
    ensures r.None? <==> forall i :: 0 <= i < |Teachers| ==> Teachers[i].id != teacherId
  {
    Find(Teachers, (t: Teacher) => t.id == teacherId)
  }

  /** Two teachers are listed without a timetable: their grid is empty. */
  lemma ListedWithoutLessons()
    ensures CurrentTeacher("sidibe").Some? && ScheduleOf("sidibe") == []
  {
    assert Teachers[2].id == "sidibe";
  }

  predicate LessonFits(l: Lesson, day: string, time: string) {
    l.day == day && l.time == time
  }

  /** `getScheduleForSlot`: the first lesson on that day at that time, None for a free cell. */
  function LessonAt(schedule: seq<Lesson>, day: string, time: string): (r: Option<Lesson>)
    ensures r.Some? ==> r.value.day == day && r.value.time == time
    ensures r.Some? ==>
      exists i :: 0 <= i < |schedule| && schedule[i] == r.value && forall j :: 0 <= j < i ==> !LessonFits(schedule[j], day, time)
    ensures r.None? <==> forall i :: 0 <= i < |schedule| ==> !LessonFits(schedule[i], day, time)
  {
    Find(schedule, l => LessonFits(l, day, time))
  }

  function SubjectOf(l: Lesson): string {
    l.subject
  }

  /** The accumulator of the `subjectHours` reduction after the lessons `s`:
      `acc[subject] = (acc[subject] || 0) + 1`. */
  function HourCounts(s: seq<Lesson>): map<string, int> {
    if |s| == 0 then map[]
    else
      var m, k := HourCounts(s[..|s| - 1]), SubjectOf(s[|s| - 1]);
      m[k := (if k in m then m[k] else 0) + 1]
  }

  /** The subjects in the order the reduction first meets them. This is the order
      `Object.entries` lists them in when no subject name is an integer-like key. */
  function SubjectOrder(s: seq<Lesson>): seq<string> {
    if |s| == 0 then []
    else
      var p, k := SubjectOrder(s[..|s| - 1]), SubjectOf(s[|s| - 1]);
      if k in p then p else p + [k]
  }

  lemma HourStep(s: seq<Lesson>, l: Lesson)
    ensures var m, k := HourCounts(s), SubjectOf(l);
      HourCounts(s + [l]) == m[k := (if k in m then m[k] else 0) + 1]
    ensures SubjectOrder(s + [l]) == if SubjectOf(l) in SubjectOrder(s) then SubjectOrder(s) else SubjectOrder(s) + [SubjectOf(l)]
  {
    assert (s + [l])[..|s|] == s;
  }

  /** The counted subjects are exactly the subjects met. */
  lemma {:induction false} HourKeys(s: seq<Lesson>)
    ensures forall k :: k in HourCounts(s) <==> k in SubjectOrder(s)
  {
    if |s| > 0 {
      var p, l := s[..|s| - 1], s[|s| - 1];
      HourKeys(p);
      assert s == p + [l];
      HourStep(p, l);
    }
  }

  lemma HourKey(s: seq<Lesson>, k: string)
    ensures k in HourCounts(s) <==> k in SubjectOrder(s)
  {
    HourKeys(s);
  }

  /** `subjectHours`: the reduction fills the record lesson by lesson; `subjects` lists its
      keys in insertion order. */
  method SubjectHours(schedule: seq<Lesson>) returns (subjects: seq<string>, hours: map<string, int>)
    ensures subjects == SubjectOrder(schedule) && hours == HourCounts(schedule)
  {
    subjects, hours := [], map[];
    var i := 0;
    while i < |schedule|
      invariant 0 <= i <= |schedule|
      invariant subjects == SubjectOrder(schedule[..i]) && hours == HourCounts(schedule[..i])
    {
      var item := schedule[i];
      assert schedule[..i + 1] == schedule[..i] + [item];
      HourKey(schedule[..i], item.subject);
      HourStep(schedule[..i], item);
      if item.subject !in hours {
        subjects := subjects + [item.subject];
      }
      hours := hours[item.subject := (if item.subject in hours then hours[item.subject] else 0) + 1];
      i := i + 1;
    }
    assert schedule[..i] == schedule;
  }

  /** The subject order is the distinct subjects of the lessons. */
  lemma {:induction false} SubjectOrderDistinct(s: seq<Lesson>)
    ensures SubjectOrder(s) == Distinct(MapSeq(s, SubjectOf))
  {
    if |s| > 0 {
      var p, l := s[..|s| - 1], s[|s| - 1];
      SubjectOrderDistinct(p);
      assert MapSeq(s, SubjectOf) == MapSeq(p, SubjectOf) + [SubjectOf(l)];
      DistinctSnoc(MapSeq(p, SubjectOf), SubjectOf(l));
    }
  }

  /** Each subject's hours are the number of its lessons. */
  lemma {:induction false} HourCountsAre(s: seq<Lesson>)
    ensures forall k :: k in HourCounts(s) ==> HourCounts(s)[k] == CountWhere(s, SubjectOf, k)
  {
    if |s| > 0 {
      var p, l := s[..|s| - 1], s[|s| - 1];
      HourCountsAre(p);
      assert s == p + [l];
      HourStep(p, l);
      WhereSnoc(p, l, SubjectOf, _ => 0);
      if SubjectOf(l) !in HourCounts(p) {
        HourKey(p, SubjectOf(l));
        SubjectOrderDistinct(p);
        forall j | 0 <= j < |p|
          ensures SubjectOf(p[j]) != SubjectOf(l)
        {
          assert MapSeq(p, SubjectOf)[j] == SubjectOf(p[j]);
        }
        WhereAbsent(p, SubjectOf, SubjectOf(l), _ => 0);
      }
    }
  }

  /** The hours of the subjects listed in `ks`, added up. */
  function HoursOver(m: map<string, int>, ks: seq<string>): int {
    if |ks| == 0 then 0
    else HoursOver(m, ks[..|ks| - 1]) + (if ks[|ks| - 1] in m then m[ks[|ks| - 1]] else 0)
  }

  lemma {:induction false} HoursOverKeys(s: seq<Lesson>, ks: seq<string>)
    ensures HoursOver(HourCounts(s), ks) == CountOverKeys(s, SubjectOf, ks)
  {
    if |ks| > 0 {
      HoursOverKeys(s, ks[..|ks| - 1]);
      var k := ks[|ks| - 1];
      HourCountsAre(s);
      if k !in HourCounts(s) {
        HourKey(s, k);
        SubjectOrderDistinct(s);
        forall j | 0 <= j < |s|
          ensures SubjectOf(s[j]) != k
        {
          assert MapSeq(s, SubjectOf)[j] == SubjectOf(s[j]);
        }
        WhereAbsent(s, SubjectOf, k, _ => 0);
      }
    }
  }

  /** `totalHours`, the number of lessons in the week. */
  function TotalHours(schedule: seq<Lesson>): nat {
    |schedule|
  }

  /** The hours of the subjects listed add up to the total hours. */
  lemma SubjectHoursAddUp(schedule: seq<Lesson>)
    ensures HoursOver(HourCounts(schedule), SubjectOrder(schedule)) == TotalHours(schedule)
  {
    var ks := SubjectOrder(schedule);
    SubjectOrderDistinct(schedule);
    forall i | 0 <= i < |schedule|
      ensures SubjectOf(schedule[i]) in ks
    {
      assert MapSeq(schedule, SubjectOf)[i] == SubjectOf(schedule[i]);
    }
    HoursOverKeys(schedule, ks);
    PartitionCount(schedule, SubjectOf, ks);
  }

  /** A subject's share of the bar, `(hours / totalHours) * 100`. A share is drawn only for a
      subject met, so the total is then positive; for a zero total the share is taken as 0. */
  function HourShare(hours: int, totalHours: nat): real {
    if totalHours > 0 then hours as real / totalHours as real * 100.0 else 0.0
  }

  /** The share of one hour. */
  function PerHour(totalHours: nat): real {
    if totalHours > 0 then 100.0 / totalHours as real else 0.0
  }

  lemma HourShareIsScaled(hours: int, totalHours: nat)
    ensures HourShare(hours, totalHours) == hours as real * PerHour(totalHours)
  {
  }

  lemma PerHourWhole(totalHours: nat)
    requires totalHours > 0
    ensures totalHours as real * PerHour(totalHours) == 100.0
  {
  }

  function SharesOver(m: map<string, int>, ks: seq<string>, totalHours: nat): real {
    if |ks| == 0 then 0.0
    else SharesOver(m, ks[..|ks| - 1], totalHours) + HourShare(if ks[|ks| - 1] in m then m[ks[|ks| - 1]] else 0, totalHours)
  }

  /** The shares of the subjects listed are their hours times the share of one hour. */
  lemma {:induction false} SharesOverScaled(m: map<string, int>, ks: seq<string>, totalHours: nat)
    ensures SharesOver(m, ks, totalHours) == HoursOver(m, ks) as real * PerHour(totalHours)
  {
    if |ks| > 0 {
      var p, k := ks[..|ks| - 1], ks[|ks| - 1];
      SharesOverScaled(m, p, totalHours);
      var h := if k in m then m[k] else 0;
      HourShareIsScaled(h, totalHours);
      var u := PerHour(totalHours);
      assert HoursOver(m, p) as real * u + h as real * u == (HoursOver(m, p) + h) as real * u;
    }
  }

  /** Shares of hours that make up the whole add up to 100. */
  lemma SharesOfWhole(m: map<string, int>, ks: seq<string>, totalHours: nat)
    requires totalHours > 0 && HoursOver(m, ks) == totalHours
    ensures SharesOver(m, ks, totalHours) == 100.0
  {
    SharesOverScaled(m, ks, totalHours);
    PerHourWhole(totalHours);
  }

  /** For a non-empty timetable the subject shares add up to 100. */
  lemma SharesAddUp(schedule: seq<Lesson>)
    requires |schedule| > 0
    ensures SharesOver(HourCounts(schedule), SubjectOrder(schedule), TotalHours(schedule)) == 100.0
  {
    SubjectHoursAddUp(schedule);
    SharesOfWhole(HourCounts(schedule), SubjectOrder(schedule), TotalHours(schedule));
  }

  function ClassOf(l: Lesson): string {
    l.className
  }

  function RoomOf(l: Lesson): string {
    l.room
  }

  /** `new Set(schedule.map(s => s.class)).size`: at most one class per lesson, and at least
      one when there is a lesson. */
  function ClassCount(schedule: seq<Lesson>): (n: nat)
    ensures n <= TotalHours(schedule)
    ensures |schedule| > 0 ==> n > 0
  {
    var d := Distinct(MapSeq(schedule, ClassOf));
    assert |schedule| > 0 ==> MapSeq(schedule, ClassOf)[0] in d;
    |d|
  }

  /** The number of distinct rooms, bounded the same way. */
  function RoomCount(schedule: seq<Lesson>): (n: nat)
    ensures n <= TotalHours(schedule)
    ensures |schedule| > 0 ==> n > 0
  {
    var d := Distinct(MapSeq(schedule, RoomOf));
    assert |schedule| > 0 ==> MapSeq(schedule, RoomOf)[0] in d;
    |d|
  }

  /** `getSubjectColor`: the same colours as the class timetable, gray for any other subject. */
  function SubjectColor(subject: string): string {
    ClassSchedule.ClassesOf(
      if subject == "Mathématiques" then "blue"
      else if subject == "Français" then "green"
      else if subject == "Sciences" then "purple"
      else if subject == "Histoire" then "orange"
      else if subject == "Anglais" then "pink"
      else if subject == "Arts" then "yellow"
      else if subject == "Sport" then "red"
      else "gray")
  }

  /** Both timetables colour every subject alike, gray outside the seven coloured ones. */
  lemma SameColours(subject: string)
    ensures SubjectColor(subject) == ClassSchedule.SubjectColor(subject)
    ensures subject !in ClassSchedule.ColouredSubjects ==> SubjectColor(subject) == ClassSchedule.Gray
  {
  }
}
