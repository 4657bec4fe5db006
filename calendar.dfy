/** Calendar dates as the screens compare them: year, month and day of month, ordered
    lexicographically, and a person's age in whole years on a given day. */
module Calendar {

  datatype Date = Date(year: int, month: int, day: int)

  /** `a` is on or before `b`. */
  predicate OnOrBefore(a: Date, b: Date) {
    a.year < b.year || (a.year == b.year && (a.month < b.month || (a.month == b.month && a.day <= b.day)))
  }

  /** The `k`-th anniversary of a date: the same month and day, `k` years later. */
  function Anniversary(birth: Date, k: int): Date {
    Date(birth.year + k, birth.month, birth.day)
  }

  /** Today's month and day come before the birthday's. */
  predicate BeforeBirthday(birth: Date, today: Date) {
    today.month < birth.month || (today.month == birth.month && today.day < birth.day)
  }

  /** The age on `today`: the difference of the years, one less while this year's birthday is
      still to come. */
  function Age(birth: Date, today: Date): int {
    var years := today.year - birth.year;
    if BeforeBirthday(birth, today) then years - 1 else years
  }

  /** The age is the number of whole years lived: the last anniversary reached by `today`,
      the next one still ahead. */
  lemma AgeIsWholeYears(birth: Date, today: Date)
    ensures OnOrBefore(Anniversary(birth, Age(birth, today)), today)
    ensures !OnOrBefore(Anniversary(birth, Age(birth, today) + 1), today)
  {
  }

  /** The age is the only count of years with that property. */
  lemma AgeUnique(birth: Date, today: Date, k: int)
    requires OnOrBefore(Anniversary(birth, k), today)
    requires !OnOrBefore(Anniversary(birth, k + 1), today)
    ensures k == Age(birth, today)
  {
  }

  /** Ages do not decrease as time passes. */
  lemma AgeMonotone(birth: Date, d1: Date, d2: Date)
    requires OnOrBefore(d1, d2)
    ensures Age(birth, d1) <= Age(birth, d2)
  {
    AgeIsWholeYears(birth, d1);
    AgeIsWholeYears(birth, d2);
    if Age(birth, d1) > Age(birth, d2) {
      AnniversaryOrder(birth, Age(birth, d2) + 1, Age(birth, d1));
      assert OnOrBefore(Anniversary(birth, Age(birth, d2) + 1), d2);
    }
  }

  /** Anniversaries come in order. */
  lemma AnniversaryOrder(birth: Date, j: int, k: int)
    requires j <= k
    ensures OnOrBefore(Anniversary(birth, j), Anniversary(birth, k))
  {
  }

  /** The year difference alone. */
  function YearDifference(birth: Date, today: Date): int {
    today.year - birth.year
  }

  /** The year difference is the age, or one more while the birthday is still to come. */
  lemma YearDifferenceVersusAge(birth: Date, today: Date)
    ensures YearDifference(birth, today) == Age(birth, today) <==> !BeforeBirthday(birth, today)
    ensures BeforeBirthday(birth, today) ==> YearDifference(birth, today) == Age(birth, today) + 1
  {
  }
}
