/** The outstanding-payments window of the finance screen: the list of students who still owe
    fees, narrowed by a name search, a level and an amount bracket; the total and average owed;
    the amounts grouped by level; the reminder selection; the priority tiers; and the export. */
module Outstanding {
  import opened Seqs
  import opened Text
  import opened Rounding

  /** The class of a student as the query joins it: a name and, optionally, its level. */
  datatype ClassInfo = ClassInfo(name: string, level: Option<string>)

  /** A row of the outstanding list (amounts in FCFA). */
  datatype Debtor = Debtor(
    id: string,
    firstName: string,
    lastName: string,
    outstanding: int,
    totalFees: int,
    paid: Option<int>,
    cls: Option<ClassInfo>)

  function FullName(d: Debtor): string {
    d.firstName + " " + d.lastName
  }

  /** `student.classes?.levels?.name`. */
  function LevelName(d: Debtor): Option<string> {
    if d.cls.Some? then d.cls.value.level else None
  }

  function OutstandingOf(d: Debtor): int {
    d.outstanding
  }

  /** `paid_amount || 0`. */
  function PaidOrZero(d: Debtor): int {
    if d.paid.Some? then d.paid.value else 0
  }

  const LowLimit := 100000
  const HighLimit := 300000

  /** The amount filter. The values offered are 'all', 'low', 'medium' and 'high'; any value
      other than the last three lets every amount through. */
  predicate MatchesAmount(filter: string, amount: int) {
    if filter == "low" then amount < LowLimit
    else if filter == "medium" then LowLimit <= amount < HighLimit
    else if filter == "high" then amount >= HighLimit
    else true
  }

  /** The three brackets partition the amounts: each amount is in exactly one of them, and
      the 'all' filter keeps every amount. */
  lemma AmountBracketsPartition(amount: int)
    ensures MatchesAmount("all", amount)
    ensures MatchesAmount("low", amount) || MatchesAmount("medium", amount) || MatchesAmount("high", amount)
    ensures !(MatchesAmount("low", amount) && MatchesAmount("medium", amount))
    ensures !(MatchesAmount("low", amount) && MatchesAmount("high", amount))
    ensures !(MatchesAmount("medium", amount) && MatchesAmount("high", amount))
  {
  }

  /** The three conditions of the list filter. */
  predicate MatchesSearch(d: Debtor, term: string) {
    Contains(ToLower(FullName(d)), ToLower(term))
  }

  predicate MatchesLevel(d: Debtor, levelFilter: string) {
    levelFilter == "all" || LevelName(d) == Some(levelFilter)
  }

  predicate Shown(d: Debtor, term: string, levelFilter: string, amountFilter: string) {
    MatchesSearch(d, term) && MatchesLevel(d, levelFilter) && MatchesAmount(amountFilter, d.outstanding)
  }

  /** `filteredPayments`: the rows that satisfy all three conditions, in their order. */
  function FilteredDebtors(list: seq<Debtor>, term: string, levelFilter: string, amountFilter: string): (r: seq<Debtor>)
    ensures forall i :: 0 <= i < |r| ==> Shown(r[i], term, levelFilter, amountFilter)
    ensures forall i :: 0 <= i < |list| && Shown(list[i], term, levelFilter, amountFilter) ==> list[i] in r
  {
    Filter(list, d => Shown(d, term, levelFilter, amountFilter))
  }

  /** The filtered list keeps the order of the input, and with every filter at rest (empty
      search, 'all', 'all') nothing is dropped. */
  lemma {:induction false} FilteredDebtorsOrder(list: seq<Debtor>, term: string, levelFilter: string, amountFilter: string)
    ensures IsSubsequence(FilteredDebtors(list, term, levelFilter, amountFilter), list)
    ensures term == "" && levelFilter == "all" && amountFilter == "all" ==> FilteredDebtors(list, term, levelFilter, amountFilter) == list
  {
    FilterIsSubsequence(list, d => Shown(d, term, levelFilter, amountFilter));
    if term == "" && levelFilter == "all" && amountFilter == "all" {
      forall i | 0 <= i < |list|
        ensures Shown(list[i], term, levelFilter, amountFilter)
      {
        ContainsEmpty(ToLower(FullName(list[i])));
      }
      FilterAll(list, d => Shown(d, term, levelFilter, amountFilter));
    }
  }

  /** `totalOutstanding`. */
  function TotalOutstanding(shown: seq<Debtor>): int {
    Sum(shown, OutstandingOf)
  }

  /** `averageOutstanding`: the total divided by the number of rows, 0 for no rows. */
  function AverageOutstanding(shown: seq<Debtor>): (r: real)
    ensures |shown| == 0 ==> r == 0.0
    ensures |shown| > 0 ==> r * |shown| as real == TotalOutstanding(shown) as real
  {
    if |shown| > 0 then TotalOutstanding(shown) as real / |shown| as real else 0.0
  }

  /** A total of non-negative amounts lies between 0 and the row count times the largest. */
  lemma {:induction false} TotalOutstandingBounds(shown: seq<Debtor>, cap: int)
    requires forall i :: 0 <= i < |shown| ==> 0 <= shown[i].outstanding <= cap
    ensures 0 <= TotalOutstanding(shown) <= |shown| * cap
  {
    if |shown| > 0 {
      TotalOutstandingBounds(shown[..|shown| - 1], cap);
    }
  }

  /** The key of the level groups: the level name, or 'Non défini' when it is missing or
      empty (`name || 'Non défini'`). */
  function LevelKey(d: Debtor): (k: string)
    ensures k != ""
    ensures LevelName(d).Some? && LevelName(d).value != "" ==> k == LevelName(d).value
  {
    if LevelName(d).Some? && LevelName(d).value != "" then LevelName(d).value else "Non défini"
  }

  /** One group of `outstandingByLevel`. */
  datatype LevelTotal = LevelTotal(students: nat, amount: int)

  /** The accumulator of `outstandingByLevel` after the rows `s`, one row at a time: the
      row's group is created when missing, then counted. */
  function Groups(s: seq<Debtor>): map<string, LevelTotal> {
    if |s| == 0 then map[]
    else
      var m, d := Groups(s[..|s| - 1]), s[|s| - 1];
      var k := LevelKey(d);
      var m' := if k in m then m else m[k := LevelTotal(0, 0)];
      m'[k := LevelTotal(m'[k].students + 1, m'[k].amount + d.outstanding)]
  }

  /** The level keys of the rows, each once, in order of first appearance: the order in
      which the accumulator's groups are created. */
  function KeyOrder(s: seq<Debtor>): seq<string> {
    if |s| == 0 then []
    else
      var p, k := KeyOrder(s[..|s| - 1]), LevelKey(s[|s| - 1]);
      if k in p then p else p + [k]
  }

  /** Both, unfolded for a row appended to `s`. */
  lemma GroupsStep(s: seq<Debtor>, d: Debtor)
    ensures var g, k := Groups(s), LevelKey(d);
      var g' := if k in g then g else g[k := LevelTotal(0, 0)];
      Groups(s + [d]) == g'[k := LevelTotal(g'[k].students + 1, g'[k].amount + d.outstanding)]
    ensures KeyOrder(s + [d]) == if LevelKey(d) in KeyOrder(s) then KeyOrder(s) else KeyOrder(s) + [LevelKey(d)]
  {
    assert (s + [d])[..|s|] == s;
  }

  /** The key order is the distinct level keys of the rows. */
  lemma {:induction false} KeyOrderDistinct(s: seq<Debtor>)
    ensures KeyOrder(s) == Distinct(MapSeq(s, LevelKey))
  {
    if |s| > 0 {
      var p, d := s[..|s| - 1], s[|s| - 1];
      KeyOrderDistinct(p);
      assert s == p + [d];
      MapSeqSnoc(p, d, LevelKey);
      DistinctSnoc(MapSeq(p, LevelKey), LevelKey(d));
    }
  }

  /** The groups are exactly the level keys met. */
  lemma {:induction false} GroupsKeys(s: seq<Debtor>)
    ensures forall k :: k in Groups(s) <==> k in KeyOrder(s)
  {
    if |s| > 0 {
      var p, d := s[..|s| - 1], s[|s| - 1];
      GroupsKeys(p);
      assert s == p + [d];
      GroupsStep(p, d);
    }
  }

  lemma GroupsKey(s: seq<Debtor>, k: string)
    ensures k in Groups(s) <==> k in KeyOrder(s)
  {
    GroupsKeys(s);
  }

  /** A key not met yet has no rows and no amount. */
  lemma UnmetKey(s: seq<Debtor>, k: string)
    requires k !in KeyOrder(s)
    ensures CountWhere(s, LevelKey, k) == 0 && SumWhere(s, LevelKey, k, OutstandingOf) == 0
  {
    KeyOrderDistinct(s);
    forall j | 0 <= j < |s|
      ensures LevelKey(s[j]) != k
    {
      assert MapSeq(s, LevelKey)[j] == LevelKey(s[j]);
    }
    WhereAbsent(s, LevelKey, k, OutstandingOf);
  }

  /** Each group holds the number of rows with its key and the sum of their amounts. */
  lemma {:induction false} GroupsTotals(s: seq<Debtor>)
    ensures forall k :: k in Groups(s) ==>
      Groups(s)[k] == LevelTotal(CountWhere(s, LevelKey, k), SumWhere(s, LevelKey, k, OutstandingOf))
  {
    if |s| > 0 {
      var p, d := s[..|s| - 1], s[|s| - 1];
      GroupsTotals(p);
      assert s == p + [d];
      GroupsStep(p, d);
      WhereSnoc(p, d, LevelKey, OutstandingOf);
      if LevelKey(d) !in Groups(p) {
        GroupsKey(p, LevelKey(d));
        UnmetKey(p, LevelKey(d));
      }
    }
  }

  /** `outstandingByLevel`: the accumulator is filled row by row, creating a group the first
      time a level is met. `keys` lists the groups in the order they were created, which is
      the order `Object.entries` lists them in when no level name is an integer-like key. */
  method OutstandingByLevel(shown: seq<Debtor>) returns (keys: seq<string>, acc: map<string, LevelTotal>)
    ensures keys == KeyOrder(shown) && acc == Groups(shown)
  {
    keys, acc := [], map[];
    var i := 0;
    while i < |shown|
      invariant 0 <= i <= |shown|
      invariant keys == KeyOrder(shown[..i]) && acc == Groups(shown[..i])
    {
      var d := shown[i];
      var level := LevelKey(d);
      ghost var pre := shown[..i];
      assert shown[..i + 1] == pre + [d];
      GroupsKey(pre, level);
      GroupsStep(pre, d);
      if level !in acc {
        acc := acc[level := LevelTotal(0, 0)];
        keys := keys + [level];
      }
      acc := acc[level := LevelTotal(acc[level].students + 1, acc[level].amount + d.outstanding)];
      assert keys == KeyOrder(pre + [d]) && acc == Groups(pre + [d]);
      i := i + 1;
    }
    assert shown[..i] == shown;
  }

  /** The student counts and the amounts of the groups listed in `ks`, added up. */
  function GroupStudents(g: map<string, LevelTotal>, ks: seq<string>): int {
    if |ks| == 0 then 0
    else GroupStudents(g, ks[..|ks| - 1]) + (if ks[|ks| - 1] in g then g[ks[|ks| - 1]].students else 0)
  }

  function GroupAmounts(g: map<string, LevelTotal>, ks: seq<string>): int {
    if |ks| == 0 then 0
    else GroupAmounts(g, ks[..|ks| - 1]) + (if ks[|ks| - 1] in g then g[ks[|ks| - 1]].amount else 0)
  }

  lemma {:induction false} GroupSumsOverKeys(s: seq<Debtor>, ks: seq<string>)
    requires forall k :: k in ks ==> k in Groups(s)
    ensures GroupStudents(Groups(s), ks) == CountOverKeys(s, LevelKey, ks)
    ensures GroupAmounts(Groups(s), ks) == SumOverKeys(s, LevelKey, OutstandingOf, ks)
  {
    if |ks| > 0 {
      GroupSumsOverKeys(s, ks[..|ks| - 1]);
      GroupsTotals(s);
    }
  }

  /** The groups partition the shown rows: over the groups of `outstandingByLevel`, the
      student counts add up to the number of rows and the amounts to `totalOutstanding`. */
  lemma LevelGroupsPartition(shown: seq<Debtor>)
    ensures GroupStudents(Groups(shown), KeyOrder(shown)) == |shown|
    ensures GroupAmounts(Groups(shown), KeyOrder(shown)) == TotalOutstanding(shown)
  {
    var ks := KeyOrder(shown);
    KeyOrderDistinct(shown);
    GroupsKeys(shown);
    forall i | 0 <= i < |shown|
      ensures LevelKey(shown[i]) in ks
    {
      assert MapSeq(shown, LevelKey)[i] == LevelKey(shown[i]);
    }
    GroupSumsOverKeys(shown, ks);
    PartitionCount(shown, LevelKey, ks);
    PartitionSum(shown, LevelKey, OutstandingOf, ks);
  }

  /** The non-empty level names of the rows, in order (`.map(...).filter(Boolean)`). */
  function NamedLevels(list: seq<Debtor>): (r: seq<string>)
    ensures forall i :: 0 <= i < |r| ==> r[i] != "" && exists j :: 0 <= j < |list| && LevelName(list[j]) == Some(r[i])
    ensures forall j :: 0 <= j < |list| && LevelName(list[j]).Some? && LevelName(list[j]).value != "" ==> LevelName(list[j]).value in r
  {
    if |list| == 0 then []
    else
      var p := list[..|list| - 1];
      var d := list[|list| - 1];
      assert forall j :: 0 <= j < |p| ==> p[j] == list[j];
      NamedLevels(p) + (if LevelName(d).Some? && LevelName(d).value != "" then [LevelName(d).value] else [])
  }

  /** `levels`: the level filter's options, each distinct non-empty level name of the
      unfiltered list once. */
  function LevelOptions(list: seq<Debtor>): (r: seq<string>)
    ensures NoDup(r)
    ensures forall x :: x in r <==> x != "" && exists j :: 0 <= j < |list| && LevelName(list[j]) == Some(x)
  {
    Distinct(NamedLevels(list))
  }

  /** The ids of the rows, in order (`filteredPayments.map(s => s.id)`). */
  function Ids(shown: seq<Debtor>): (r: seq<string>)
    ensures |r| == |shown|
    ensures forall i :: 0 <= i < |r| ==> r[i] == shown[i].id
  {
    MapSeq(shown, (d: Debtor) => d.id)
  }

  /** `handleStudentToggle`: a selected id is removed, any other one appended. */
  function Toggled(selected: seq<string>, id: string): seq<string> {
    if id in selected then Filter(selected, x => x != id) else selected + [id]
  }

  /** Toggling flips the membership of `id` and of nothing else. */
  lemma ToggledMembership(selected: seq<string>, id: string, x: string)
    ensures x in Toggled(selected, id) <==> (if x == id then id !in selected else x in selected)
  {
  }

  /** Toggling never introduces a duplicate. */
  lemma ToggledNoDup(selected: seq<string>, id: string)
    requires NoDup(selected)
    ensures NoDup(Toggled(selected, id))
  {
    if id in selected {
      FilterIsSubsequence(selected, x => x != id);
      SubsequenceNoDup(Filter(selected, x => x != id), selected);
    }
  }

  /** Toggling the same id twice restores the selected set; when the id was not selected it
      restores the list itself, while a selected id comes back at the end of the list. */
  lemma ToggleTwice(selected: seq<string>, id: string)
    ensures forall x :: x in Toggled(Toggled(selected, id), id) <==> x in selected
    ensures id !in selected ==> Toggled(Toggled(selected, id), id) == selected
  {
    forall x
      ensures x in Toggled(Toggled(selected, id), id) <==> x in selected
    {
      ToggledMembership(selected, id, x);
      ToggledMembership(Toggled(selected, id), id, x);
    }
    if id !in selected {
      var t := selected + [id];
      assert t[..|t| - 1] == selected;
      FilterAll(selected, x => x != id);
    }
  }

  /** The header checkbox as written: ticked when as many ids are selected as rows are shown. */
  predicate HeaderCheckedAsWritten(selected: seq<string>, shown: seq<Debtor>) {
    |selected| == |shown| && |shown| > 0
  }

  /** The header checkbox as evidently intended: every shown row is selected. */
  predicate AllShownSelected(selected: seq<string>, shown: seq<Debtor>) {
    |shown| > 0 && forall i :: 0 <= i < |shown| ==> shown[i].id in selected
  }

  /** A search that shows only the row "b". */
  const OnlyRowB: seq<Debtor> := [Debtor("b", "Awa", "Koné", 200000, 400000, None, None)]

  /** The selection is kept when the search changes, so the written test can tick the box
      while no shown row is selected: one id selected, one other row shown. */
  lemma HeaderCheckedMismatch()
    ensures HeaderCheckedAsWritten(["a"], OnlyRowB) && !AllShownSelected(["a"], OnlyRowB)
  {
    assert OnlyRowB[0].id !in ["a"];
  }

  /** After select-all the box reads ticked under the intended rule: the selection is exactly
      the shown ids. */
  lemma SelectAllChecks(shown: seq<Debtor>)
    requires |shown| > 0
    ensures AllShownSelected(Ids(shown), shown)
  {
    assert forall i :: 0 <= i < |shown| ==> Ids(shown)[i] == shown[i].id;
  }

  /** The reminder selection (`selectedStudents`). */
  class Selection {
    var selected: seq<string>

    constructor()
      ensures selected == []
    {
      selected := [];
    }

    method Toggle(id: string)
      modifies this
      ensures selected == Toggled(old(selected), id)
    {
      selected := Toggled(selected, id);
    }

    /** `selectAllStudents`: exactly the ids of the shown rows. */
    method SelectAll(shown: seq<Debtor>)
      modifies this
      ensures selected == Ids(shown)
    {
      selected := Ids(shown);
    }

    /** `deselectAllStudents`. */
    method DeselectAll()
      modifies this
      ensures selected == []
    {
      selected := [];
    }

    /** A click on the header checkbox: clear the selection when the box is ticked, select all
      shown rows otherwise (using the intended ticked test). */
    method HeaderClick(shown: seq<Debtor>)
      modifies this
      ensures AllShownSelected(old(selected), shown) ==> selected == []
      ensures !AllShownSelected(old(selected), shown) ==> selected == Ids(shown)
    {
      if AllShownSelected(selected, shown) {
        DeselectAll();
      } else {
        SelectAll(shown);
      }
    }

    /** A click on the header checkbox as written: it clears the selection when as many ids
        are selected as rows are shown, whichever they are, and selects all shown rows
        otherwise. */
    method HeaderClickAsWritten(shown: seq<Debtor>)
      modifies this
      ensures |old(selected)| == |shown| ==> selected == []
      ensures |old(selected)| != |shown| ==> selected == Ids(shown)
    {
      if |selected| == |shown| {
        DeselectAll();
      } else {
        SelectAll(shown);
      }
    }

    /** `sendReminders`: with nothing selected it only warns (None) and keeps the selection;
        otherwise it announces the number of families and clears the selection. */
    method SendReminders() returns (families: Option<nat>)
      modifies this
      ensures old(selected) == [] ==> families == None && selected == old(selected)
      ensures old(selected) != [] ==> families == Some(|old(selected)|) && selected == []
    {
      if |selected| == 0 {
        families := None;
        return;
      }
      families := Some(|selected|);
      selected := [];
    }
  }

  /** The priority badge of a row. */
  function Priority(amount: int): (p: string)
    ensures p == "Élevée" <==> amount >= HighLimit
    ensures p == "Moyenne" <==> 150000 <= amount < HighLimit
    ensures p == "Faible" <==> amount < 150000
  {
    if amount >= HighLimit then "Élevée" else if amount >= 150000 then "Moyenne" else "Faible"
  }

  const ExportHeaders: seq<string> :=
    ["Élève", "Classe", "Niveau", "Montant dû", "Total frais", "Montant payé", "Pourcentage payé"]

  /** One line of the export. The three amounts go through the locale formatting, a parameter
      here; the last cell is the rounded paid percentage followed by `%`. */
  function ExportRow(d: Debtor, fmt: int -> string): (r: seq<string>)
    ensures |r| == |ExportHeaders|
    ensures r[0] == FullName(d) && r[6] == PercentText(PaidOrZero(d), d.totalFees)
    ensures r[1] == (if d.cls.Some? then d.cls.value.name else "")
    ensures r[2] == (if d.cls.Some? && d.cls.value.level.Some? then d.cls.value.level.value else "")
    ensures r[3] == fmt(d.outstanding) && r[4] == fmt(d.totalFees) && r[5] == fmt(PaidOrZero(d))
  {
    [FullName(d),
     if d.cls.Some? then d.cls.value.name else "",
     if LevelName(d).Some? then LevelName(d).value else "",
     fmt(d.outstanding),
     fmt(d.totalFees),
     fmt(PaidOrZero(d)),
     PercentText(PaidOrZero(d), d.totalFees)]
  }

  /** `exportOutstanding`'s text. */
  function ExportText(shown: seq<Debtor>, fmt: int -> string): string {
    CsvText(ExportHeaders, MapSeq(shown, d => ExportRow(d, fmt)))
  }

  /** The texts of a row, free of the character `c`. */
  predicate RowFree(d: Debtor, c: char) {
    c !in d.firstName && c !in d.lastName &&
    (d.cls.Some? ==> c !in d.cls.value.name && (d.cls.value.level.Some? ==> c !in d.cls.value.level.value))
  }

  /** A character absent from the texts, from the amount formatting and from the percentage
      text is absent from every cell. */
  lemma ExportRowFree(d: Debtor, fmt: int -> string, c: char)
    requires RowFree(d, c) && c != ' ' && !IsDigit(c) && c !in "-%InfinityNa"
    requires c !in fmt(d.outstanding) && c !in fmt(d.totalFees) && c !in fmt(PaidOrZero(d))
    ensures forall j :: 0 <= j < 7 ==> c !in ExportRow(d, fmt)[j]
  {
    PercentTextFree(PaidOrZero(d), d.totalFees, c);
  }

  /** When no name holds a newline and the number formatting writes none, the export has a
      header line and exactly one line per shown row. */
  lemma ExportLineCount(shown: seq<Debtor>, fmt: int -> string)
    requires forall i :: 0 <= i < |shown| ==> RowFree(shown[i], '\n')
    requires forall n :: '\n' !in fmt(n)
    ensures CountChar(ExportText(shown, fmt), '\n') == |shown|
  {
    var rows := MapSeq(shown, d => ExportRow(d, fmt));
    forall i, j | 0 <= i < |rows| && 0 <= j < |rows[i]|
      ensures '\n' !in rows[i][j]
    {
      var d := shown[i];
      PercentTextSingleLine(PaidOrZero(d), d.totalFees);
    }
    CsvLineCount(ExportHeaders, rows);
  }

  /** Each of the seven cells of a data line is wrapped in one pair of double quotes, none
      escaped: a line holds exactly fourteen quote characters when its texts hold none. */
  lemma ExportRowQuotes(d: Debtor, fmt: int -> string)
    requires RowFree(d, '"')
    requires '"' !in fmt(d.outstanding) && '"' !in fmt(d.totalFees) && '"' !in fmt(PaidOrZero(d))
    ensures CountChar(QuotedLine(ExportRow(d, fmt)), '"') == 14
  {
    ExportRowFree(d, fmt, '"');
    QuotedLineQuotes(ExportRow(d, fmt));
  }

  /** With "a" selected and only row "b" shown, the written box is ticked, and the written
      click clears the selection where the intended one selects row "b". */
  method HeaderClickDiffers() returns (asWritten: seq<string>, intended: seq<string>)
    ensures HeaderCheckedAsWritten(["a"], OnlyRowB) && !AllShownSelected(["a"], OnlyRowB)
    ensures asWritten == [] && intended == ["b"]
  {
    HeaderCheckedMismatch();
    var written := new Selection();
    written.Toggle("a");
    written.HeaderClickAsWritten(OnlyRowB);
    var meant := new Selection();
    meant.Toggle("a");
    meant.HeaderClick(OnlyRowB);
    asWritten, intended := written.selected, meant.selected;
  }
}
