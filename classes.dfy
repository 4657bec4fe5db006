/** The class management screen: the per-level summary, the teachers' availability, the fill
    rate of each class with its colour tier, the share of classes with a teacher, and the level
    colours. */
module Classes {
  import opened Seqs
  import opened Rounding

  /** A fetched class: its level's name when the level was fetched, its teacher's id when it
      has one, its number of students and its capacity. */
  datatype ClassRow = ClassRow(
    id: string, name: string, levelName: Option<string>, teacherId: Option<string>,
    studentCount: int, capacity: int)

  datatype Level = Level(name: string)

  datatype Teacher = Teacher(id: string, firstName: string, lastName: string)

  /** `c.levels?.name`. */
  function LevelOf(c: ClassRow): Option<string> {
    c.levelName
  }

  function StudentsOf(c: ClassRow): int {
    c.studentCount
  }

  /** One card of the per-level summary. */
  datatype LevelStat = LevelStat(name: string, classes: nat, students: int, color: string)

  function LevelStatOf(level: Level, classes: seq<ClassRow>): LevelStat {
    LevelStat(level.name, CountWhere(classes, LevelOf, Some(level.name)),
      SumWhere(classes, LevelOf, Some(level.name), StudentsOf), LevelColor(level.name))
  }

  /** `levelStats`: one card per level, in order, with the number of classes of that level,
      the sum of their students and the level's colour. */
  function LevelStats(levels: seq<Level>, classes: seq<ClassRow>): (r: seq<LevelStat>)
    ensures |r| == |levels|
    ensures forall i :: 0 <= i < |r| ==>
      r[i].name == levels[i].name && r[i].color == LevelColor(levels[i].name) &&
      r[i].classes == CountWhere(classes, LevelOf, Some(levels[i].name)) &&
      r[i].students == SumWhere(classes, LevelOf, Some(levels[i].name), StudentsOf)
  {
    MapSeq(levels, l => LevelStatOf(l, classes))
  }

  /** The level keys the classes are matched against. */
  function LevelKeys(levels: seq<Level>): (r: seq<Option<string>>)
    ensures |r| == |levels| && forall i :: 0 <= i < |r| ==> r[i] == Some(levels[i].name)
  {
    MapSeq(levels, (l: Level) => Some(l.name))
  }

  function StatClasses(stats: seq<LevelStat>): int {
    if |stats| == 0 then 0 else StatClasses(stats[..|stats| - 1]) + stats[|stats| - 1].classes
  }

  function StatStudents(stats: seq<LevelStat>): int {
    if |stats| == 0 then 0 else StatStudents(stats[..|stats| - 1]) + stats[|stats| - 1].students
  }

  lemma {:induction false} StatSumsOverKeys(levels: seq<Level>, classes: seq<ClassRow>)
    ensures StatClasses(LevelStats(levels, classes)) == CountOverKeys(classes, LevelOf, LevelKeys(levels))
    ensures StatStudents(LevelStats(levels, classes)) == SumOverKeys(classes, LevelOf, StudentsOf, LevelKeys(levels))
  {
    if |levels| > 0 {
      var p := levels[..|levels| - 1];
      StatSumsOverKeys(p, classes);
      assert LevelStats(levels, classes)[..|levels| - 1] == LevelStats(p, classes);
      assert LevelKeys(levels)[..|levels| - 1] == LevelKeys(p);
    }
  }

  /** When the level names are distinct and every class has one of the listed levels, the
      cards count every class once and every student once. */
  lemma LevelStatsPartition(levels: seq<Level>, classes: seq<ClassRow>)
    requires NoDup(LevelKeys(levels))
    requires forall j :: 0 <= j < |classes| ==> LevelOf(classes[j]) in LevelKeys(levels)
    ensures StatClasses(LevelStats(levels, classes)) == |classes|
    ensures StatStudents(LevelStats(levels, classes)) == Sum(classes, StudentsOf)
  {
    StatSumsOverKeys(levels, classes);
    PartitionCount(classes, LevelOf, LevelKeys(levels));
    PartitionSum(classes, LevelOf, StudentsOf, LevelKeys(levels));
  }

  /** An entry of `availableTeachers`. */
  datatype TeacherEntry = TeacherEntry(id: string, name: string, isAvailable: bool)

  /** `classes.some(c => c.teacher_id === t.id)`. */
  predicate Assigned(classes: seq<ClassRow>, id: string) {
    exists j :: 0 <= j < |classes| && classes[j].teacherId == Some(id)
  }

  function EntryOf(t: Teacher, classes: seq<ClassRow>): TeacherEntry {
    TeacherEntry(t.id, t.firstName + " " + t.lastName, !Assigned(classes, t.id))
  }

  /** `availableTeachers`: one entry per teacher, in order, available exactly when no class has
      that teacher. */
  function AvailableTeachers(teachers: seq<Teacher>, classes: seq<ClassRow>): (r: seq<TeacherEntry>)
    ensures |r| == |teachers|
    ensures forall i :: 0 <= i < |r| ==>
      r[i].id == teachers[i].id && r[i].name == teachers[i].firstName + " " + teachers[i].lastName &&
      (r[i].isAvailable <==> forall j :: 0 <= j < |classes| ==> classes[j].teacherId != Some(teachers[i].id))
  {
    MapSeq(teachers, t => EntryOf(t, classes))
  }

  predicate IsAvailable(e: TeacherEntry) {
    e.isAvailable
  }

  /** "Enseignants disponibles": never more than the teachers. */
  function AvailableCount(teachers: seq<Teacher>, classes: seq<ClassRow>): (n: nat)
    ensures n <= |teachers|
  {
    Count(AvailableTeachers(teachers, classes), IsAvailable)
  }

  /** The list offered when changing a class's teacher: the available entries, in order; none
      of them teaches a class. */
  function ChangeTeacherChoices(teachers: seq<Teacher>, classes: seq<ClassRow>): (r: seq<TeacherEntry>)
    ensures IsSubsequence(r, AvailableTeachers(teachers, classes))
    ensures forall i :: 0 <= i < |r| ==> r[i].isAvailable && !Assigned(classes, r[i].id)
  {
    var all := AvailableTeachers(teachers, classes);
    FilterIsSubsequence(all, IsAvailable);
    var r := Filter(all, IsAvailable);
    forall i | 0 <= i < |r|
      ensures !Assigned(classes, r[i].id)
    {
      var k :| 0 <= k < |all| && all[k] == r[i];
      assert all[k].id == teachers[k].id;
    }
    r
  }

  /** The count of available teachers is the length of the change-teacher list. */
  lemma AvailableCountIsChoices(teachers: seq<Teacher>, classes: seq<ClassRow>)
    ensures AvailableCount(teachers, classes) == |ChangeTeacherChoices(teachers, classes)|
  {
    CountIsFilterLength(AvailableTeachers(teachers, classes), IsAvailable);
  }

  /** With no class assigned to anyone every teacher is available. */
  lemma NoAssignmentAllAvailable(teachers: seq<Teacher>, classes: seq<ClassRow>)
    requires forall j :: 0 <= j < |classes| ==> classes[j].teacherId.None?
    ensures AvailableCount(teachers, classes) == |teachers|
  {
    CountExtremes(AvailableTeachers(teachers, classes), IsAvailable);
  }

  /** A JavaScript quotient: a finite number, an infinity or NaN. */
  datatype Quotient = Finite(value: real) | PlusInfinity | MinusInfinity | NotANumber

  /** `fillRate = (student_count / capacity) * 100`; a zero capacity gives an infinity or NaN. */
  function FillRate(studentCount: int, capacity: int): (r: Quotient)
    ensures capacity != 0 <==> r.Finite?
    ensures r.Finite? ==> r.value * capacity as real == 100.0 * studentCount as real
    ensures capacity == 0 ==> (studentCount > 0 <==> r.PlusInfinity?) && (studentCount == 0 <==> r.NotANumber?)
  {
    if capacity != 0 then Finite(studentCount as real / capacity as real * 100.0)
    else if studentCount > 0 then PlusInfinity
    else if studentCount < 0 then MinusInfinity
    else NotANumber
  }

  datatype Tier = Red | Yellow | Green

  /** `fillRate >= 90 ? red : fillRate >= 75 ? yellow : green`; every comparison with NaN is
      false. */
  function FillTier(rate: Quotient): Tier {
    match rate
    case Finite(v) => if v >= 90.0 then Red else if v >= 75.0 then Yellow else Green
    case PlusInfinity => Red
    case MinusInfinity => Green
    case NotANumber => Green
  }

  /** For a positive capacity the tiers are read on whole numbers: red from 90 % of the
      capacity, yellow from 75 %, green below. */
  lemma FillTierByCounts(studentCount: int, capacity: int)
    requires capacity > 0
    ensures FillTier(FillRate(studentCount, capacity)) == Red <==> 10 * studentCount >= 9 * capacity
    ensures FillTier(FillRate(studentCount, capacity)) == Yellow <==> 4 * studentCount >= 3 * capacity && 10 * studentCount < 9 * capacity
    ensures FillTier(FillRate(studentCount, capacity)) == Green <==> 4 * studentCount < 3 * capacity
  {
    var v := FillRate(studentCount, capacity).value;
    AtLeastIff(v, capacity, studentCount, 90);
    AtLeastIff(v, capacity, studentCount, 75);
  }

  /** A rate with `v * c == 100 * n` for a positive `c` reaches `t` exactly when `100 n` reaches
      `t c`. */
  lemma AtLeastIff(v: real, c: int, n: int, t: int)
    requires c > 0 && v * c as real == 100.0 * n as real
    ensures v >= t as real <==> 100 * n >= t * c
  {
    if v >= t as real {
      ScaleWeak(t as real, v, c as real);
    } else {
      ScaleStrict(v, t as real, c as real);
    }
  }

  /** A full room with no capacity counts as red, an empty one as green. */
  lemma ZeroCapacityTiers(studentCount: int)
    ensures studentCount > 0 ==> FillTier(FillRate(studentCount, 0)) == Red
    ensures studentCount <= 0 ==> FillTier(FillRate(studentCount, 0)) == Green
  {
  }

  /** The counts of the summary cards. */
  datatype ClassStats = ClassStats(total: int, withTeacher: int, withoutTeacher: int, totalStudents: int)

  /** "Avec Enseignant": the rounded percentage of classes with a teacher, 0 with no class. */
  function WithTeacherPercent(stats: ClassStats): (r: int)
    ensures stats.total <= 0 ==> r == 0
    ensures stats.total > 0 ==> 2 * stats.total * r <= 200 * stats.withTeacher + stats.total < 2 * stats.total * (r + 1)
  {
    GuardedPercent(stats.withTeacher, stats.total)
  }

  lemma WithTeacherPercentRange(stats: ClassStats)
    requires 0 <= stats.withTeacher <= stats.total
    ensures 0 <= WithTeacherPercent(stats) <= 100
    ensures stats.withTeacher == 0 ==> WithTeacherPercent(stats) == 0
  {
    GuardedPercentRange(stats.withTeacher, stats.total);
  }

  const LevelColors: seq<(string, string)> := [
    ("Maternelle", "purple"), ("CI", "blue"), ("CP", "green"), ("CE1", "yellow"),
    ("CE2", "orange"), ("CM1", "red"), ("CM2", "indigo")]

  const LevelNames: set<string> := {"Maternelle", "CI", "CP", "CE1", "CE2", "CM1", "CM2"}

  /** The colours that have classes of their own. */
  const Colors: seq<string> := ["purple", "blue", "green", "yellow", "orange", "red", "indigo"]

  /** `getLevelColor`: the level's colour, 'blue' for any other level. */
  function LevelColor(levelName: string): (r: string)
    ensures r == "blue" || levelName in LevelNames
  {
    if levelName == "Maternelle" then "purple"
    else if levelName == "CI" then "blue"
    else if levelName == "CP" then "green"
    else if levelName == "CE1" then "yellow"
    else if levelName == "CE2" then "orange"
    else if levelName == "CM1" then "red"
    else if levelName == "CM2" then "indigo"
    else "blue"
  }

  /** Every level gets one of the colours that have classes of their own. */
  lemma LevelColorIsColor(levelName: string)
    ensures LevelColor(levelName) in Colors
  {
    assert Colors[0] == "purple" && Colors[1] == "blue" && Colors[2] == "green" && Colors[3] == "yellow";
    assert Colors[4] == "orange" && Colors[5] == "red" && Colors[6] == "indigo";
  }

  /** An unlisted level is blue. */
  lemma LevelColorFallback(levelName: string)
    requires forall i :: 0 <= i < |LevelColors| ==> LevelColors[i].0 != levelName
    ensures LevelColor(levelName) == "blue"
  {
    assert LevelColors[0].0 == "Maternelle" && LevelColors[1].0 == "CI" && LevelColors[2].0 == "CP";
    assert LevelColors[3].0 == "CE1" && LevelColors[4].0 == "CE2" && LevelColors[5].0 == "CM1" && LevelColors[6].0 == "CM2";
  }

  /** A listed level gets the colour listed for it. */
  lemma LevelColorListed(i: nat)
    requires i < |LevelColors|
    ensures LevelColor(LevelColors[i].0) == LevelColors[i].1
  {
  }

  const BlueClasses := "bg-blue-50 text-blue-700"

  /** `getColorClasses`: the colour's classes, the blue ones for any other colour. */
  function ColorClasses(color: string): (r: string)
    ensures color !in Colors ==> r == BlueClasses
  {
    if color == "purple" then "bg-purple-50 text-purple-700"
    else if color == "blue" then BlueClasses
    else if color == "green" then "bg-green-50 text-green-700"
    else if color == "yellow" then "bg-yellow-50 text-yellow-700"
    else if color == "orange" then "bg-orange-50 text-orange-700"
    else if color == "red" then "bg-red-50 text-red-700"
    else if color == "indigo" then "bg-indigo-50 text-indigo-700"
    else BlueClasses
  }

  /** Distinct colours have distinct classes, so no level colour falls back to blue unless it
      is blue. */
  lemma ColorClassesDistinct(a: string, b: string)
    requires a in Colors && b in Colors && a != b
    ensures ColorClasses(a) != ColorClasses(b)
  {
  }
}
