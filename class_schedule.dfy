/** The class timetable: the lesson shown in a cell of the week grid for the selected class,
    and the colour of a subject. */
module ClassSchedule {
  import opened Seqs

  /** One lesson of the timetable. */
  datatype TimeSlot = TimeSlot(
    id: string, startTime: string, endTime: string, subject: string,
    teacher: string, classroom: string, className: string, day: string)

  /** The text a slot is listed under in the grid, `${startTime}-${endTime}`. */
  function SlotText(slot: TimeSlot): string {
    slot.startTime + "-" + slot.endTime
  }

  predicate FillsCell(slot: TimeSlot, selectedClass: string, day: string, slotText: string) {
    slot.day == day && SlotText(slot) == slotText && slot.className == selectedClass
  }

  /** `getScheduleForSlot`: the first lesson of the selected class on that day whose start and
      end times spell the requested slot; None when the cell is free. */
  function SlotFor(slots: seq<TimeSlot>, selectedClass: string, day: string, slotText: string): (r: Option<TimeSlot>)
    ensures r.Some? ==>
      r.value.day == day && r.value.className == selectedClass && r.value.startTime + "-" + r.value.endTime == slotText
    ensures r.Some? ==>
      exists i :: 0 <= i < |slots| && slots[i] == r.value && forall j :: 0 <= j < i ==> !FillsCell(slots[j], selectedClass, day, slotText)
    ensures r.None? <==> forall i :: 0 <= i < |slots| ==> !FillsCell(slots[i], selectedClass, day, slotText)
  {
    Find(slots, s => FillsCell(s, selectedClass, day, slotText))
  }

  /** The lessons the screen lists. */
  const TimeSlots: seq<TimeSlot> := [
    TimeSlot("1", "08:00", "09:00", "Mathématiques", "M. Traore", "Salle 12", "CM2A", "Lundi"),
    TimeSlot("2", "09:00", "10:00", "Français", "Mme Kone", "Salle 8", "CM2A", "Lundi"),
    TimeSlot("3", "10:30", "11:30", "Sciences", "M. Sidibe", "Labo 1", "CM2A", "Lundi"),
    TimeSlot("4", "08:00", "09:00", "Histoire", "Mme Coulibaly", "Salle 15", "CM2A", "Mardi")]

  /** On Monday morning the first cell of CM2A holds the mathematics lesson, and every cell
      of another class is free. */
  lemma SlotForListed(day: string, slotText: string)
    ensures SlotFor(TimeSlots, "CM2A", "Lundi", "08:00-09:00") == Some(TimeSlots[0])
    ensures SlotFor(TimeSlots, "CM2B", day, slotText).None?
  {
    assert FillsCell(TimeSlots[0], "CM2A", "Lundi", "08:00-09:00");
  }

  /** The Tailwind classes of a timetable colour: light background, dark text, mid border. */
  function ClassesOf(colour: string): string {
    "bg-" + colour + "-100 text-" + colour + "-800 border-" + colour + "-200"
  }

  /** Different colours give different classes. */
  lemma ClassesOfInjective(x: string, y: string)
    ensures ClassesOf(x) == ClassesOf(y) ==> x == y
  {
    if ClassesOf(x) == ClassesOf(y) {
      assert |ClassesOf(x)| == 3 * |x| + 29 && |ClassesOf(y)| == 3 * |y| + 29;
      assert ClassesOf(x)[3..3 + |x|] == x;
      assert ClassesOf(y)[3..3 + |y|] == y;
    }
  }

  const Gray := ClassesOf("gray")

  /** The subjects that have a colour of their own. */
  const ColouredSubjects: seq<string> := ["Mathématiques", "Français", "Sciences", "Histoire", "Anglais", "Sport", "Arts"]

  /** The colour of a subject, "gray" for any other subject. */
  function ColourName(subject: string): (c: string)
    ensures subject !in ColouredSubjects <==> c == "gray"
  {
    if subject == "Mathématiques" then "blue"
    else if subject == "Français" then "green"
    else if subject == "Sciences" then "purple"
    else if subject == "Histoire" then "orange"
    else if subject == "Anglais" then "pink"
    else if subject == "Sport" then "red"
    else if subject == "Arts" then "yellow"
    else "gray"
  }

  /** `getSubjectColor`: the subject's colour classes, gray for any other subject. */
  function SubjectColor(subject: string): (r: string)
    ensures subject !in ColouredSubjects <==> r == Gray
  {
    ClassesOfInjective(ColourName(subject), "gray");
    ClassesOf(ColourName(subject))
  }

  /** No two coloured subjects share a colour. */
  lemma SubjectColorsDistinct(a: string, b: string)
    requires a in ColouredSubjects && b in ColouredSubjects && a != b
    ensures SubjectColor(a) != SubjectColor(b)
  {
    ClassesOfInjective(ColourName(a), ColourName(b));
  }
}
