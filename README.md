# School administration rules, modelled in Dafny

The application manages a primary school: students and their enrolment, classes and
teachers, timetables, grades and the payment of school fees in FCFA. Nearly all of it is
screens wired to a hosted database. This project lifts the rules those screens and services
compute on the rows they fetch into Dafny, and proves what they promise.

- **Outstanding balances** (`outstanding.dfy`, module `Outstanding`): the debtor list with
  its amount brackets, name search and level filter, the totals and average, the grouping by
  level, the level options, the selection of students for reminders (a class), the priority
  tiers and the CSV export.
- **Finance screen** (`finance.dfy`, `Finance`): the figures derived from the fetched rows
  (outstanding total, collection rate, revenue), the payment filters, the CSV export and the
  shares by method and type.
- **Payment dialog** (`payment_form.dfy`, `PaymentEntry`): the student search, the preset
  amounts, the validation, and the three-step dialog as a class.
- **Enrolment wizard** (`enrolment.dfy`, `Enrolment`; dates in `calendar.dfy`, `Calendar`):
  the four steps, the per-step validation including the e-mail pattern, the class and fee
  table, and the age in whole years.
- **Grades** (`grades.dfy`, `Grades`): the weighted per-subject averages, the rows inserted
  for a class evaluation and the grade-entry sheet with its attendance rate.
- **Student roster** (`student_roster.dfy`, `StudentRoster`) and the **demonstration student
  list** (`student_list.dfy`, `StudentList`): filters, the CSV export, class options, the
  summary percentages, the payment progress bar and the amounts shown.
- **Timetables** (`class_schedule.dfy`, `ClassSchedule`; `teacher_timetable.dfy`,
  `TeacherTimetable`): the lesson in a cell, the subject colours, the hours per subject with
  their shares, and the distinct classes and rooms.
- **Classes** (`classes.dfy`, `Classes`): the per-level cards, teacher availability, the fill
  rate with its colour tiers, the with-teacher percentage and the level colours.
- **Authentication** (`auth.dfy`, `Auth`): the permission and role checks and the session
  state as a class with its transitions, including whether a profile lookup is under way.
- **Dashboard** (`dashboard.dfy`, `Dashboard`): the default statistics, the recent activities
  joined with user names, and the academic overview.
- Shared modules: `Seqs` (`seqs.dfy`: Option, filtering, sums and counts by key, distinct
  elements, first match; the partition lemmas), `Text` (`text.dfy`: JavaScript white space and
  trimming, lower-casing, substring search, joining and CSV quoting, number printing) and
  `Rounding` (`rounding.dfy`: `Math.round` and the guarded percentages).

Conventions: a fetched row is an input value. A JavaScript `null`/`undefined` is `Option`'s
`None`, and `x || d` falls back on `None` as well as on `""` and `0`. Amounts are integers.
Quotients are exact rationals (`real`), and `Math.round(n / d)` is `(2n + d) div 2d`, which
rounds halves up as JavaScript does. Where the source divides by zero without a guard, the
NaN or Infinity it gets is `None` (or, for the fill rate, a `Quotient` case). Today's date,
the locale formatting of dates and amounts, and `Math.random` are parameters. Objects updated
in place are classes: the outstanding selection, the payment dialog, the enrolment wizard and
the session state. Each of their methods states the whole new state. The reduce and forEach
loops that build an object or a map (`outstandingByLevel`, the subject accumulators of
`getSubjectAverages`, `subjectHours` and the dashboard's `userMap`) are methods with loops,
proved against recursive specification functions. The numeric reduces (the outstanding total,
the balances, the weighted grade sum, the class sizes and the level student sums) are
recursive functions.

## Model

| member | source | states |
|---|---|---|
| Outstanding.AmountBracketsPartition | src/components/Finance/OutstandingPaymentsModal.tsx:40-47 | the 'low', 'medium' and 'high' brackets partition every amount, and 'all' keeps every amount |
| Outstanding.FilteredDebtors | src/components/Finance/OutstandingPaymentsModal.tsx:35-50 | a row is listed exactly when the name search (both sides lowered by `Text.ToLower`), the level filter and the amount bracket all accept it |
| Outstanding.FilteredDebtorsOrder | src/components/Finance/OutstandingPaymentsModal.tsx:35-50 | the list keeps the input order, and with every filter at rest it is the whole input |
| Outstanding.AverageOutstanding | src/components/Finance/OutstandingPaymentsModal.tsx:53 | the average times the row count is the total; 0 with no rows |
| Outstanding.TotalOutstandingBounds | src/components/Finance/OutstandingPaymentsModal.tsx:52 | a total of amounts in [0, cap] lies in [0, rows × cap] |
| Outstanding.LevelKey | src/components/Finance/OutstandingPaymentsModal.tsx:57 | the group key is the level name when it is non-empty and 'Non défini' otherwise; never empty |
| Outstanding.GroupsStep | src/components/Finance/OutstandingPaymentsModal.tsx:56-67 | appending a row creates its group when missing and then adds one student and its amount |
| Outstanding.KeyOrderDistinct | src/components/Finance/OutstandingPaymentsModal.tsx:56-67 | the groups are created in the order of the distinct level keys of the rows |
| Outstanding.GroupsKeys | src/components/Finance/OutstandingPaymentsModal.tsx:56-67 | the groups are exactly the level keys met |
| Outstanding.GroupsKey | src/components/Finance/OutstandingPaymentsModal.tsx:56-67 | one key is a group exactly when it was met |
| Outstanding.UnmetKey | src/components/Finance/OutstandingPaymentsModal.tsx:56-67 | a key that was not met has no rows and no amount |
| Outstanding.GroupsTotals | src/components/Finance/OutstandingPaymentsModal.tsx:56-67 | each group holds the number of rows with its key and the sum of their amounts |
| Outstanding.OutstandingByLevel | src/components/Finance/OutstandingPaymentsModal.tsx:56-67 | the accumulator loop builds the groups and their order of creation, as specified |
| Outstanding.GroupSumsOverKeys | src/components/Finance/OutstandingPaymentsModal.tsx:56-67 | the group counts and amounts over a list of keys are the row counts and sums by key |
| Outstanding.LevelGroupsPartition | src/components/Finance/OutstandingPaymentsModal.tsx:52-67 | across the groups the students add up to the row count and the amounts to the total outstanding |
| Outstanding.NamedLevels | src/components/Finance/OutstandingPaymentsModal.tsx:69 | the non-empty level names of the rows: each one of some row, and every row's non-empty level present |
| Outstanding.LevelOptions | src/components/Finance/OutstandingPaymentsModal.tsx:69 | the level options have no duplicate and are exactly the non-empty level names of the unfiltered list |
| Outstanding.Ids | src/components/Finance/OutstandingPaymentsModal.tsx:80 | one id per shown row, in order |
| Outstanding.ToggledMembership | src/components/Finance/OutstandingPaymentsModal.tsx:71-77 | toggling flips the membership of that id and of no other |
| Outstanding.ToggledNoDup | src/components/Finance/OutstandingPaymentsModal.tsx:71-77 | toggling never introduces a duplicate |
| Outstanding.ToggleTwice | src/components/Finance/OutstandingPaymentsModal.tsx:71-77 | toggling twice restores the selected set, and the list itself when the id was not selected |
| Outstanding.HeaderCheckedMismatch | src/components/Finance/OutstandingPaymentsModal.tsx:272-278 | the length-only header test can be ticked while no shown row is selected |
| Outstanding.SelectAllChecks | src/components/Finance/OutstandingPaymentsModal.tsx:79-81 | after select-all every shown row is selected |
| Outstanding.Selection.constructor | src/components/Finance/OutstandingPaymentsModal.tsx:33 | the selection starts empty |
| Outstanding.Selection.Toggle | src/components/Finance/OutstandingPaymentsModal.tsx:71-77 | the new selection is the old one with the id toggled |
| Outstanding.Selection.SelectAll | src/components/Finance/OutstandingPaymentsModal.tsx:79-81 | the selection becomes exactly the shown ids |
| Outstanding.Selection.DeselectAll | src/components/Finance/OutstandingPaymentsModal.tsx:83-85 | the selection becomes empty |
| Outstanding.Selection.HeaderClick | src/components/Finance/OutstandingPaymentsModal.tsx:273-279 | a ticked box clears the selection, an unticked one selects every shown row (intended ticked test) |
| Outstanding.Selection.HeaderClickAsWritten | src/components/Finance/OutstandingPaymentsModal.tsx:273-279 | as written, the click clears the selection when as many ids are selected as rows are shown, and selects every shown row otherwise |
| Outstanding.HeaderClickDiffers | src/components/Finance/OutstandingPaymentsModal.tsx:272-278 | with "a" selected and only row "b" shown, the written box is ticked and the written click clears the selection, while the intended click selects "b" |
| Outstanding.Selection.SendReminders | src/components/Finance/OutstandingPaymentsModal.tsx:87-95 | an empty selection only warns and is kept; otherwise the family count is announced and the selection cleared |
| Outstanding.Priority | src/components/Finance/OutstandingPaymentsModal.tsx:345-355 | 'Élevée' iff ≥ 300000, 'Moyenne' iff in [150000, 300000), 'Faible' iff < 150000 |
| Outstanding.ExportRowFree | src/components/Finance/OutstandingPaymentsModal.tsx:102-110 | a character absent from the texts, the amount formatting and the percentage text is absent from every cell |
| Outstanding.ExportRowQuotes | src/components/Finance/OutstandingPaymentsModal.tsx:114 | fourteen unescaped quotes per line when no text holds a quote |
| Outstanding.ExportRow | src/components/Finance/OutstandingPaymentsModal.tsx:102-110 | seven cells: the full name, the class name, the level name (empty when missing), the three formatted amounts and the rounded paid percentage followed by '%' |
| Outstanding.ExportLineCount | src/components/Finance/OutstandingPaymentsModal.tsx:112-115 | with no newline in the texts the export is a header line plus one line per shown row |
| Finance.RateOf | src/components/Finance/SupabaseFinanceManagement.tsx:106 | the guarded rate: 0 for no students, otherwise rate × total = 100 × count, within [0, 100] |
| Finance.CollectionRate | src/components/Finance/SupabaseFinanceManagement.tsx:99-106 | the percentage of students owing nothing (missing → 0), 0 with no students, always within [0, 100] |
| Finance.DeriveStats | src/components/Finance/SupabaseFinanceManagement.tsx:98-110 | the outstanding total, the collection rate, the revenue and payment counts with missing values as 0, and the fetched method and type breakdowns, empty when missing |
| Finance.RateOfExtremes | src/components/Finance/SupabaseFinanceManagement.tsx:106 | the rate is 100 iff every student counts and 0 iff none does |
| Finance.CollectionRateExtremes | src/components/Finance/SupabaseFinanceManagement.tsx:99-106 | 100 iff every student is up to date, 0 iff none is |
| Finance.TotalOwedZero | src/components/Finance/SupabaseFinanceManagement.tsx:98 | with non-negative balances the total is non-negative and 0 iff every student is up to date |
| Finance.FilteredPayments | src/components/Finance/SupabaseFinanceManagement.tsx:165-175 | a listed payment is one of the fetched payments, and a payment is listed iff the search (lowered by `Text.ToLower`) and the method, type and status filters all accept it |
| Finance.FilteredPaymentsOrder | src/components/Finance/SupabaseFinanceManagement.tsx:165-175 | the listed payments keep the order of the fetched list |
| Finance.EmptySearchKeepsAll | src/components/Finance/SupabaseFinanceManagement.tsx:165-175 | an empty search with every filter at 'all' lists every payment, in order |
| Finance.NoPayerSearch | src/components/Finance/SupabaseFinanceManagement.tsx:166-169 | a payment without a student matches a non-empty term only through its reference |
| Finance.ExportRow | src/components/Finance/SupabaseFinanceManagement.tsx:210-219 | every cell: the formatted date, the student's full name and class name (empty with no student), the payment type, the formatted amount, the method, the reference and the status, missing texts empty |
| Finance.ExportRowFree | src/components/Finance/SupabaseFinanceManagement.tsx:210-219 | a character absent from the fetched texts and the formatting is absent from every cell |
| Finance.ExportLineCount | src/components/Finance/SupabaseFinanceManagement.tsx:221-224 | a header line plus one line per listed payment |
| Finance.ExportRowQuotes | src/components/Finance/SupabaseFinanceManagement.tsx:223 | every cell is wrapped in one unescaped pair of quotes: sixteen per line |
| Finance.RevenueShare | src/components/Finance/SupabaseFinanceManagement.tsx:380 | 0 without revenue, otherwise share × revenue = 100 × amount |
| Finance.ShareSumScaled | src/components/Finance/SupabaseFinanceManagement.tsx:380 | the shares add up to 100 × the listed amounts over the revenue |
| Finance.SharesAddUp | src/components/Finance/SupabaseFinanceManagement.tsx:380 | when the listed amounts make up the revenue the shares add up to 100 |
| PaymentEntry.ClassLabel | src/components/Finance/PaymentModal.tsx:132 | the class name when it is non-empty, 'Non assigné' otherwise; never empty |
| PaymentEntry.FilteredStudents | src/components/Finance/PaymentModal.tsx:98-101 | a student is listed iff the full name or the class name holds the term, both lowered by `Text.ToLower` |
| PaymentEntry.FilteredStudentsOrder | src/components/Finance/PaymentModal.tsx:98-101 | the list keeps the input order and an empty search lists every student |
| PaymentEntry.ListedAmount | src/components/Finance/PaymentModal.tsx:138 | the amount of an entry with that type in the table; None iff the type is not listed |
| PaymentEntry.PresetAmount | src/components/Finance/PaymentModal.tsx:137-153 | a positive preset is the listed amount of a type other than 'Scolarité'; an unlisted type presets 0 |
| PaymentEntry.PresetAmountsFirst | src/components/Finance/PaymentModal.tsx:137-151 | 'Inscription' presets 50000, 'Scolarité' 0 and 'Cantine' 25000 |
| PaymentEntry.PresetAmountsMiddle | src/components/Finance/PaymentModal.tsx:82 | 'Transport' presets 15000 |
| PaymentEntry.PresetAmountsLast | src/components/Finance/PaymentModal.tsx:83 | 'Fournitures' presets 20000 |
| PaymentEntry.PresetAmountsZero | src/components/Finance/PaymentModal.tsx:150 | 'Autre' and the unlisted 'Mensualité' preset 0 |
| PaymentEntry.ValidationErrors | src/components/Finance/PaymentModal.tsx:103-121 | each error key is present exactly when its condition holds, and no other key |
| PaymentEntry.ValidIffAcceptable | src/components/Finance/PaymentModal.tsx:103-124 | no error is collected iff a student is chosen, the amount is positive and the method's detail is given |
| PaymentEntry.Submitted | src/components/Finance/PaymentModal.tsx:157-170 | the record carries the student's id, full name and class label and every entered field unchanged |
| PaymentEntry.PaymentForm.constructor | src/components/Finance/PaymentModal.tsx:48-56 | the dialog starts at the student step with no student, amount 0, cash, 'Mensualité', no search and no errors |
| PaymentEntry.PaymentForm.SetSearchTerm | src/components/Finance/PaymentModal.tsx:256 | only the search term changes |
| PaymentEntry.PaymentForm.SelectStudent | src/components/Finance/PaymentModal.tsx:126-135 | the student is recorded with id, name and class label, and the step moves to payment |
| PaymentEntry.PaymentForm.ChangePaymentType | src/components/Finance/PaymentModal.tsx:137-153 | only the type and the amount change, the amount to the preset |
| PaymentEntry.PaymentForm.EnterAmount | src/components/Finance/PaymentModal.tsx:388 | the amount becomes the parsed number, or 0 when it does not parse |
| PaymentEntry.PaymentForm.ChooseMethod | src/components/Finance/PaymentModal.tsx:471 | only the method changes |
| PaymentEntry.PaymentForm.EnterMobileNumber | src/components/Finance/PaymentModal.tsx:499 | only the mobile number changes |
| PaymentEntry.PaymentForm.EnterBankDetails | src/components/Finance/PaymentModal.tsx:517 | only the bank details change |
| PaymentEntry.PaymentForm.EnterMonth | src/components/Finance/PaymentModal.tsx:432 | only the month changes |
| PaymentEntry.PaymentForm.EnterDate | src/components/Finance/PaymentModal.tsx:448 | only the date changes |
| PaymentEntry.PaymentForm.EnterReference | src/components/Finance/PaymentModal.tsx:535 | only the reference changes |
| PaymentEntry.PaymentForm.EnterNotes | src/components/Finance/PaymentModal.tsx:548 | only the notes change |
| PaymentEntry.PaymentForm.BackToStudents | src/components/Finance/PaymentModal.tsx:353 | only the step changes, back to the student list |
| PaymentEntry.PaymentForm.Validate | src/components/Finance/PaymentModal.tsx:103-124 | the stored errors are the collected ones and the result is true iff the payment is acceptable |
| PaymentEntry.PaymentForm.Close | src/components/Finance/PaymentModal.tsx:177-189 | the dialog returns to its initial state |
| PaymentEntry.PaymentForm.Submit | src/components/Finance/PaymentModal.tsx:155-175 | an acceptable payment is handed over as the complete record and the dialog reset; otherwise nothing is handed over and only the errors change |
| PaymentEntry.PaymentForm.SaveAsWritten | src/components/Finance/PaymentModal.tsx:627-631 | as written, a valid save hands the payment over and ends reset, never on the confirmation panel |
| PaymentEntry.PaymentForm.SaveAndConfirm | src/components/Finance/PaymentModal.tsx:627-631 | as intended, a valid save hands the payment over and ends on the confirmation step with the student and data kept |
| PaymentEntry.ConfirmationNeverShown | src/components/Finance/PaymentModal.tsx:558 | a concrete valid session with the button as written never shows the confirmation panel |
| PaymentEntry.ConfirmationShown | src/components/Finance/PaymentModal.tsx:558-600 | the same session with the intended button shows the panel with the recorded amount |
| Calendar.AgeIsWholeYears | src/components/Students/AddStudentModal.tsx:198-209 | the age is the number of whole years lived: the last anniversary is reached, the next one is not |
| Calendar.AgeUnique | src/components/Students/AddStudentModal.tsx:198-209 | no other count of years has that property |
| Calendar.AgeMonotone | src/components/Students/AddStudentModal.tsx:198-209 | the age does not decrease as time passes |
| Calendar.AnniversaryOrder | src/components/Students/AddStudentModal.tsx:198-209 | anniversaries come in order |
| Calendar.YearDifferenceVersusAge | src/components/Students/AddStudentModal.tsx:202-208 | the plain year difference is the age iff the birthday has passed, one more otherwise |
| Enrolment.Following | src/components/Students/AddStudentModal.tsx:129-139 | "Suivant" moves one step forward; the confirmation step has no successor and stays |
| Enrolment.Preceding | src/components/Students/AddStudentModal.tsx:143-155 | "Retour" moves one step back; the student step stays |
| Enrolment.BackUndoesNext | src/components/Students/AddStudentModal.tsx:127-155 | back after next, and next after back, return to the same step |
| Enrolment.EmailPatternIffShape | src/components/Students/AddStudentModal.tsx:100 | the e-mail pattern holds iff there is no white space, exactly one '@' not first, and a dot in the domain neither first nor last |
| Enrolment.EmailPatternHasShape | src/components/Students/AddStudentModal.tsx:100 | an address fitting the pattern has that shape |
| Enrolment.EmailShapeFitsPattern | src/components/Students/AddStudentModal.tsx:100 | an address of that shape fits the pattern |
| Enrolment.StudentErrors | src/components/Students/AddStudentModal.tsx:76-89 | an error for each blank name, the missing birth date and the missing class, and no other |
| Enrolment.ParentErrors | src/components/Students/AddStudentModal.tsx:91-106 | an error for each blank parent name, phone and address, and for a blank or malformed e-mail, with the format message for a non-blank one |
| Enrolment.FinancialErrors | src/components/Students/AddStudentModal.tsx:108-121 | an error for a payment below 0 or above the fees (the later message winning), and for the missing detail of the chosen method |
| Enrolment.StepErrorsEmptyIffValid | src/components/Students/AddStudentModal.tsx:73-125 | a step's check collects no error iff the step is valid |
| Enrolment.ClassFeesFollowLevel | src/components/Students/AddStudentModal.tsx:55-71 | the fees in the class table depend only on the level |
| Enrolment.ClassByName | src/components/Students/AddStudentModal.tsx:187 | a returned class has that name and is in the table; None iff no class has it |
| Enrolment.WithTextKeepsOtherSteps | src/components/Students/AddStudentModal.tsx:73-121 | typing into a field changes only what its own step checks |
| Enrolment.EnrolmentForm.constructor | src/components/Students/AddStudentModal.tsx:34-52 | the wizard starts at the student step with a blank enrolment dated today and no errors |
| Enrolment.EnrolmentForm.EditText | src/components/Students/AddStudentModal.tsx:286-557 | only the typed field changes, and the steps already passed stay valid |
| Enrolment.EnrolmentForm.EnterInitialPayment | src/components/Students/AddStudentModal.tsx:467 | the initial payment becomes the parsed number, or 0 when it does not parse |
| Enrolment.EnrolmentForm.ChooseMethod | src/components/Students/AddStudentModal.tsx:495 | only the payment method changes |
| Enrolment.EnrolmentForm.ChangeClass | src/components/Students/AddStudentModal.tsx:186-196 | a known class sets class, level and the level's fees; an unknown name changes nothing |
| Enrolment.EnrolmentForm.Validate | src/components/Students/AddStudentModal.tsx:73-125 | the stored errors are the step's errors and the result is true iff the step is valid |
| Enrolment.EnrolmentForm.Next | src/components/Students/AddStudentModal.tsx:127-141 | a valid step moves forward, an invalid one stays; the data are unchanged |
| Enrolment.EnrolmentForm.Back | src/components/Students/AddStudentModal.tsx:143-155 | the step moves back; nothing else changes |
| Enrolment.EnrolmentForm.Close | src/components/Students/AddStudentModal.tsx:164-184 | the wizard returns to its initial state |
| Enrolment.EnrolmentForm.Submit | src/components/Students/AddStudentModal.tsx:157-162 | only the fees step is re-checked; on success the enrolment is handed over and the form reset, and from the confirmation step the student and parent steps hold too |
| Enrolment.AgeText | src/components/Students/AddStudentModal.tsx:198-209 | an empty birth date shows nothing, otherwise the age in whole years |
| Grades.CoefOrOne | src/services/gradeService.ts:188-189 | the coefficient used is never 0, and positive for a present non-negative one |
| Grades.SubjectStep | src/services/gradeService.ts:179-191 | appending a row creates its subject's accumulator when missing, then pushes the weighted grade and adds the coefficient |
| Grades.SubjectOrderDistinct | src/services/gradeService.ts:179-199 | the accumulators are created in the order of the distinct subject keys |
| Grades.SubjectGroupsKeys | src/services/gradeService.ts:179-191 | the accumulators are exactly the subjects met |
| Grades.SubjectGroupsKey | src/services/gradeService.ts:179-191 | one subject has an accumulator exactly when it was met |
| Grades.WeightedList | src/services/gradeService.ts:188 | one weighted grade per row |
| Grades.SubjectRowsAbsent | src/services/gradeService.ts:179-191 | a subject not met has no rows |
| Grades.SubjectRowsSnoc | src/services/gradeService.ts:179-191 | a row appended joins the rows of its own subject only |
| Grades.SubjectGroupContent | src/services/gradeService.ts:179-191 | each accumulator holds its subject, the weighted grades of its rows and their coefficient sum |
| Grades.TotalOfWeighted | src/services/gradeService.ts:196 | the reduce over the pushed values is the weighted grade sum |
| Grades.Finished | src/services/gradeService.ts:194-197 | the accumulator's subject, grades and coefficient total are kept; the average is absent exactly for a zero total |
| Grades.FinishedAverage | src/services/gradeService.ts:196 | a present average times the coefficient total is the total of the weighted grades |
| Grades.SubjectAverages | src/services/gradeService.ts:179-199 | the loop yields one finished accumulator per subject, in creation order |
| Grades.SubjectOrderNoDup | src/services/gradeService.ts:180-199 | no subject has two results |
| Grades.SubjectOrderCovers | src/services/gradeService.ts:180 | every row's subject, a missing name as "", has a result |
| Grades.SubjectAverageOf | src/services/gradeService.ts:179-197 | a subject's average is Σ(grade × coefficient) / Σ coefficient over its rows, the coefficient defaulting to 1 |
| Grades.CoefSumPositive | src/services/gradeService.ts:189 | with non-negative coefficients the coefficient sum of a non-empty list is positive |
| Grades.LowerStep | src/services/gradeService.ts:188-189 | one more weighted term keeps a lower bound |
| Grades.UpperStep | src/services/gradeService.ts:188-189 | one more weighted term keeps an upper bound |
| Grades.WeightedSumBounds | src/services/gradeService.ts:188-189 | grades in [lo, hi] give a weighted sum between lo and hi times the coefficient sum |
| Grades.QuotientBounds | src/services/gradeService.ts:196 | those bounds carry over to the quotient |
| Grades.WeightedAverageBounds | src/services/gradeService.ts:188-196 | a non-empty list's weighted average lies between its lowest and highest grade |
| Grades.AverageWithinGrades | src/services/gradeService.ts:179-197 | with non-negative coefficients each subject's average exists and lies between its lowest and highest grade |
| Grades.SubjectRowsSubset | src/services/gradeService.ts:179-191 | a subject's rows keep the coefficients' sign |
| Grades.SubjectRowsNonEmpty | src/services/gradeService.ts:179-191 | a subject met has at least one row |
| Grades.GradeInserts | src/services/gradeService.ts:127-141 | one inserted row per entry with a grade |
| Grades.GradeInsertsContent | src/services/gradeService.ts:127-141 | every row carries the shared evaluation fields, the user, and one entry's student, grade and comment |
| Grades.GradeInsertsInOrder | src/services/gradeService.ts:127-141 | the rows are, in order, those built from the entries with a grade |
| Grades.AllGradedInserts | src/services/gradeService.ts:127-141 | with every entry graded there is one row per entry, same student and grade, in order |
| Grades.PresentDays | src/services/gradeService.ts:95 | the number of 'Présent' records, at most the number of records |
| Grades.AttendanceRate | src/services/gradeService.ts:94-96 | round(present / 30 × 100): in [0, 100] for at most 30 days, 0 and 100 at the ends |
| Grades.AttendanceNeverHalf | src/services/gradeService.ts:96 | the exact rate is never half-way between two integers |
| Grades.SheetRowOf | src/services/gradeService.ts:92-108 | the student's id and names, no current grade, the first fetched grade as previous one (absent without grades), and the attendance rate |
| Grades.SheetRows | src/services/gradeService.ts:92-109 | one sheet row per fetched student, in order; none when nothing was fetched |
| StudentRoster.FilteredStudents | src/components/Students/SupabaseStudentManagement.tsx:184-189 | the students meeting the class, status and payment-status filters, each 'all' or equal, in order, and no other |
| StudentRoster.AllFiltersKeepAll | src/components/Students/SupabaseStudentManagement.tsx:184-189 | with every filter at 'all' the whole list is shown |
| StudentRoster.UnassignedOnlyUnderAll | src/components/Students/SupabaseStudentManagement.tsx:185 | a student without a class is shown only while the class filter is 'all' |
| StudentRoster.ExportRow | src/components/Students/SupabaseStudentManagement.tsx:224-241 | every one of the sixteen cells: first and last name, gender, formatted birth date, class and level, the father's and mother's names and phones, the parent e-mail, the address, both statuses, the paid amount (missing → 0) and the fees, missing texts empty |
| StudentRoster.ExportRowFree | src/components/Students/SupabaseStudentManagement.tsx:224-241 | a character absent from the texts and the formatting is absent from every cell |
| StudentRoster.ExportLineCount | src/components/Students/SupabaseStudentManagement.tsx:243-246 | a header line plus one line per shown student |
| StudentRoster.ExportRowQuotes | src/components/Students/SupabaseStudentManagement.tsx:245 | every one of the sixteen cells is wrapped in an unescaped pair of quotes: thirty-two per line |
| StudentRoster.NamedClasses | src/components/Students/SupabaseStudentManagement.tsx:400 | the non-empty class names of the students: each one of some student, and every student's non-empty class present |
| StudentRoster.ClassOptions | src/components/Students/SupabaseStudentManagement.tsx:400 | the class options have no duplicate and are exactly the non-empty class names |
| StudentRoster.UpToDatePercent | src/components/Students/SupabaseStudentManagement.tsx:344 | 0 for no students, otherwise the up-to-date share rounded half up |
| StudentRoster.UpToDatePercentRange | src/components/Students/SupabaseStudentManagement.tsx:344 | a part of the total gives a percentage in [0, 100], 100 for the whole |
| StudentRoster.ProgressWidth | src/components/Students/SupabaseStudentManagement.tsx:528 | the width is capped at 100; it is NaN (None) only for a zero total with nothing paid |
| StudentRoster.ProgressProportional | src/components/Students/SupabaseStudentManagement.tsx:528 | for an amount between 0 and a positive total the width is the paid share in percent |
| StudentRoster.ProgressFull | src/components/Students/SupabaseStudentManagement.tsx:528 | an amount at or above a positive total fills the bar |
| StudentRoster.Remaining | src/components/Students/SupabaseStudentManagement.tsx:916 | a non-zero stored outstanding amount is shown as it is |
| StudentRoster.RemainingFallback | src/components/Students/SupabaseStudentManagement.tsx:916 | a missing or a zero stored amount is replaced by fees less paid (missing → 0) |
| StudentRoster.ResteStrayZero | src/components/Students/SupabaseStudentManagement.tsx:531-535 | as written, an outstanding amount of 0 renders the text "0" |
| StudentRoster.Reste | src/components/Students/SupabaseStudentManagement.tsx:531-535 | as intended, the "Reste" line appears exactly when the amount is positive, and no text otherwise |
| StudentRoster.ResteAgreesElsewhere | src/components/Students/SupabaseStudentManagement.tsx:531-535 | the written and the intended slot agree on every amount but 0 |
| StudentRoster.ShownAgeTooOld | src/components/Students/SupabaseStudentManagement.tsx:209-213 | born 2015-12-31, on 2024-06-01 the written age is 9 while the whole years lived are 8 |
| StudentRoster.ShownAge | src/components/Students/SupabaseStudentManagement.tsx:472 | as intended, the age shown is the number of whole years lived |
| StudentRoster.ShownAgeAsWrittenVersusShownAge | src/components/Students/SupabaseStudentManagement.tsx:209-213 | the written age is right from the birthday on and one too many before it |
| StudentList.FilteredStudents | src/components/Students/StudentManagement.tsx:156-163 | the students meeting the search (lowered by `Text.ToLower`) and both filters, in order, and no other |
| StudentList.EmptySearchKeepsAll | src/components/Students/StudentManagement.tsx:156-163 | an empty search with both filters at 'all' shows every student |
| StudentList.NameSearchIgnoresCase | src/components/Students/StudentManagement.tsx:157-158 | a term and its lower-cased form find the same names |
| StudentList.StatusCount | src/components/Students/StudentManagement.tsx:396-424 | a payment-status count is at most the number of students |
| StudentList.StatusCountsAddUp | src/components/Students/StudentManagement.tsx:396-424 | the three payment-status counts add up to the number of students |
| StudentList.Balance | src/components/Students/StudentManagement.tsx:284 | the balance plus the paid amount is the fees |
| StudentList.BalanceIgnoresOutstanding | src/components/Students/StudentManagement.tsx:284 | the balance does not depend on the stored outstanding amount |
| StudentList.PaidWidth | src/components/Students/StudentManagement.tsx:292 | undefined (None) exactly for zero fees, otherwise width × fees = 100 × paid |
| StudentList.Share | src/components/Students/StudentManagement.tsx:292-296 | share × whole = 100 × part |
| StudentList.PaidPercent | src/components/Students/StudentManagement.tsx:296 | undefined (None) exactly for zero fees |
| StudentList.PaidPercentRoundsWidth | src/components/Students/StudentManagement.tsx:292-296 | the percentage shown is the bar's width rounded to the nearest integer |
| StudentList.ShareIsQuotient | src/components/Students/StudentManagement.tsx:292 | the share is 100 × part / whole |
| StudentList.PaidPercentRange | src/components/Students/StudentManagement.tsx:296 | a paid amount within the fees gives a percentage in [0, 100], 100 for the whole |
| ClassSchedule.SlotFor | src/components/Schedule/ScheduleManagement.tsx:77-83 | the first lesson of the selected class on that day whose start and end spell the slot; None exactly when no lesson fits |
| ClassSchedule.SlotForListed | src/components/Schedule/ScheduleManagement.tsx:20-61 | on the listed lessons, CM2A's Monday 08:00-09:00 cell holds the mathematics lesson and every cell of another class is free |
| ClassSchedule.ClassesOfInjective | src/components/Schedule/ScheduleManagement.tsx:86-95 | distinct colour names give distinct colour classes |
| ClassSchedule.ColourName | src/components/Schedule/ScheduleManagement.tsx:86-95 | "gray" exactly for a subject outside the seven coloured ones |
| ClassSchedule.SubjectColor | src/components/Schedule/ScheduleManagement.tsx:85-96 | gray exactly for a subject outside the seven coloured ones |
| ClassSchedule.SubjectColorsDistinct | src/components/Schedule/ScheduleManagement.tsx:86-94 | no two coloured subjects share a colour |
| TeacherTimetable.InitialTeacher | src/components/Schedule/TeacherSchedule.tsx:9 | the teacher passed in when there is a non-empty one, 'traore' otherwise |
| TeacherTimetable.ScheduleOf | src/components/Schedule/TeacherSchedule.tsx:18-40 | Traore's and Kone's lessons for their ids, an empty timetable for any other id |
| TeacherTimetable.CurrentTeacher | src/components/Schedule/TeacherSchedule.tsx:39 | a listed teacher with that id; None exactly when no listed teacher has it |
| TeacherTimetable.ListedWithoutLessons | src/components/Schedule/TeacherSchedule.tsx:11-40 | a teacher who is listed can have an empty grid |
| TeacherTimetable.LessonAt | src/components/Schedule/TeacherSchedule.tsx:45-47 | the first lesson on that day at that time; None exactly when the cell is free |
| TeacherTimetable.SubjectHours | src/components/Schedule/TeacherSchedule.tsx:63-66 | the loop yields the counted subjects in first-met order and the counts of the reduction |
| TeacherTimetable.HourKeys | src/components/Schedule/TeacherSchedule.tsx:63-66 | the counted subjects are exactly the subjects listed |
| TeacherTimetable.SubjectOrderDistinct | src/components/Schedule/TeacherSchedule.tsx:216 | the subjects listed are the lessons' distinct subjects in first-met order |
| TeacherTimetable.HourCountsAre | src/components/Schedule/TeacherSchedule.tsx:63-66 | each subject's hours are the number of its lessons |
| TeacherTimetable.SubjectHoursAddUp | src/components/Schedule/TeacherSchedule.tsx:62-66 | the hours of the subjects listed add up to the total hours |
| TeacherTimetable.SharesOverScaled | src/components/Schedule/TeacherSchedule.tsx:226 | the bar widths of subjects are their hours times the width of one hour |
| TeacherTimetable.SharesAddUp | src/components/Schedule/TeacherSchedule.tsx:216-226 | for a non-empty timetable the subject bars add up to 100 % |
| TeacherTimetable.ClassCount | src/components/Schedule/TeacherSchedule.tsx:114 | the distinct classes number at most the hours, and at least one when there is a lesson |
| TeacherTimetable.RoomCount | src/components/Schedule/TeacherSchedule.tsx:138 | the distinct rooms number at most the hours, and at least one when there is a lesson |
| TeacherTimetable.SameColours | src/components/Schedule/TeacherSchedule.tsx:49-60 | the teacher timetable colours every subject as the class timetable does, gray outside the seven |
| Classes.LevelStats | src/components/Classes/SupabaseClassManagement.tsx:187-197 | one card per level, in order, with its classes counted, their students added up and the level's colour |
| Classes.LevelKeys | src/components/Classes/SupabaseClassManagement.tsx:188 | the level each card matches against, one per level |
| Classes.StatSumsOverKeys | src/components/Classes/SupabaseClassManagement.tsx:187-197 | the cards' class and student totals are sums over the level names |
| Classes.LevelStatsPartition | src/components/Classes/SupabaseClassManagement.tsx:187-197 | with distinct level names and every class in a listed level, the cards count every class and every student once |
| Classes.AvailableTeachers | src/components/Classes/SupabaseClassManagement.tsx:200-204 | one entry per teacher with the full name, available exactly when no class has that teacher |
| Classes.AvailableCount | src/components/Classes/SupabaseClassManagement.tsx:498 | the available teachers number at most the teachers |
| Classes.ChangeTeacherChoices | src/components/Classes/SupabaseClassManagement.tsx:553 | the teachers offered are entries of the list, each available and teaching no class |
| Classes.AvailableCountIsChoices | src/components/Classes/SupabaseClassManagement.tsx:498 | the count on the card is the number of teachers offered |
| Classes.NoAssignmentAllAvailable | src/components/Classes/SupabaseClassManagement.tsx:203 | with no class assigned, every teacher is available |
| Classes.FillRate | src/components/Classes/SupabaseClassManagement.tsx:367 | for a capacity the fill rate times it is 100 × count; a zero capacity gives +Infinity for a positive count and NaN for none |
| Classes.FillTierByCounts | src/components/Classes/SupabaseClassManagement.tsx:417-420 | red from 90 % on, yellow from 75 % up to 90 %, green below 75 %, stated on the counts |
| Classes.AtLeastIff | src/components/Classes/SupabaseClassManagement.tsx:418-419 | a rate reaches a threshold exactly when 100 × count reaches threshold × capacity |
| Classes.ZeroCapacityTiers | src/components/Classes/SupabaseClassManagement.tsx:367 | a class with no capacity is red when it has students and green when it has none |
| Classes.WithTeacherPercent | src/components/Classes/SupabaseClassManagement.tsx:279 | 0 with no class, otherwise the share of classes with a teacher rounded half up |
| Classes.WithTeacherPercentRange | src/components/Classes/SupabaseClassManagement.tsx:279 | within [0, 100], 0 when no class has a teacher |
| Classes.LevelColor | src/components/Classes/SupabaseClassManagement.tsx:160-171 | a colour other than blue only for one of the seven levels |
| Classes.LevelColorIsColor | src/components/Classes/SupabaseClassManagement.tsx:160-184 | every level's colour is one that has classes of its own |
| Classes.LevelColorFallback | src/components/Classes/SupabaseClassManagement.tsx:170 | an unlisted level is blue |
| Classes.LevelColorListed | src/components/Classes/SupabaseClassManagement.tsx:161-169 | a listed level gets its listed colour |
| Classes.ColorClasses | src/components/Classes/SupabaseClassManagement.tsx:173-184 | an unknown colour gets the blue classes |
| Classes.ColorClassesDistinct | src/components/Classes/SupabaseClassManagement.tsx:174-182 | distinct colours have distinct classes |
| Auth.Grants | src/hooks/useSupabaseAuth.ts:134-138 | nothing without a profile or a list; everything with 'all' listed; otherwise exactly the listed permissions |
| Auth.GrantsMonotone | src/hooks/useSupabaseAuth.ts:134-138 | listing more permissions never takes one away |
| Auth.IsRole | src/hooks/useSupabaseAuth.ts:140-142 | a role holds only with a profile |
| Auth.IsRoleUnique | src/hooks/useSupabaseAuth.ts:140-142 | a profile has at most one role |
| Auth.AuthState.constructor | src/hooks/useSupabaseAuth.ts:14-22 | nobody signed in, nothing to load, no lookup under way, loading |
| Auth.AuthState.IsAuthenticated | src/hooks/useSupabaseAuth.ts:150 | signed in exactly when there is a session |
| Auth.AuthState.HasPermission | src/hooks/useSupabaseAuth.ts:134-138 | a permission is granted only to a signed-in user |
| Auth.AuthState.InitialSession | src/hooks/useSupabaseAuth.ts:25-38 | a session with a user signs them in with no profile and asks for theirs, starting a lookup only for an id other than the one asked for before; otherwise only loading ends; the state stays consistent |
| Auth.AuthState.OnAuthStateChange | src/hooks/useSupabaseAuth.ts:44-64 | a session with a user signs them in, starting a lookup only when the id differs from the one asked for before (a lookup under way goes on); one without signs out; loading ends and no permission is held until a profile arrives |
| Auth.AuthState.PendingAfter | src/hooks/useSupabaseAuth.ts:71-84 | the profile effect starts a lookup exactly when the id to load changes to a non-empty one; otherwise the one under way, if any, goes on |
| Auth.AuthState.ProfileLoaded | src/hooks/useSupabaseAuth.ts:71-103 | the lookup under way stores the fetched profile (none on a failed lookup) and ends; with none under way nothing changes; nothing else changes |
| Auth.SignInWithAllPermissions | src/hooks/useSupabaseAuth.ts:71-84 | a sign-in that starts a lookup (a new id, or one still under way) followed by a profile listing 'all' grants every permission |
| Auth.SameUserEventLosesPermissions | src/hooks/useSupabaseAuth.ts:46-84 | as written: after the profile arrived, an event for the same user clears it and starts no lookup, so no permission holds whatever lookup result follows |
| Auth.AuthState.OnAuthStateChangeIntended | src/hooks/useSupabaseAuth.ts:44-64 | as intended: an event with a user clears the profile and always starts a lookup for a non-empty id; one without signs out |
| Auth.IntendedSignInWithAllPermissions | src/hooks/useSupabaseAuth.ts:44-84 | as intended: any event for a non-empty id followed by a profile listing 'all' grants every permission, whatever the state before |
| Auth.ProfileReloadDiffers | src/hooks/useSupabaseAuth.ts:44-84 | sign-in, an 'all' profile, then a token refresh for the same user and a lookup result: the permission held before is lost as written and back as intended |
| Dashboard.DashboardStatsOf | src/services/dashboardService.ts:5-22 | the statistics fetched, or zeros and year "2024-2025" on an error |
| Dashboard.TruthyIds | src/services/dashboardService.ts:49 | exactly the non-empty user ids of the logs |
| Dashboard.UserIds | src/services/dashboardService.ts:49 | the non-empty user ids of the logs, each once, no empty one |
| Dashboard.UserMapMeaning | src/services/dashboardService.ts:62-65 | the map holds exactly the profiles' ids, each with the name of the last profile carrying it |
| Dashboard.BuildUserMap | src/services/dashboardService.ts:62-65 | the loop builds that map, empty when the profiles failed to load |
| Dashboard.UserName | src/services/dashboardService.ts:73 | the name shown is never empty |
| Dashboard.RecentActivities | src/services/dashboardService.ts:25-75 | nothing when the logs failed or are empty; otherwise one entry per log with its id, action, table or 'système', description and time, and the looked-up user |
| Dashboard.ActivityUserJoin | src/services/dashboardService.ts:62-73 | 'Système' for a log whose user has no profile; otherwise the last such profile's name, or 'Système' when it is empty or null |
| Dashboard.ClassSizesCount | src/services/dashboardService.ts:97 | the reduction counts each fetched student of the level once |
| Dashboard.LevelOverviewOf | src/services/dashboardService.ts:95-100 | an entry's student count is the number of students of its classes |
| Dashboard.AcademicOverview | src/services/dashboardService.ts:78-101 | nothing on an error; otherwise one entry per level, in order, with its name, its classes, its students and the trend 'up' |
| Dashboard.EmptyLevel | src/services/dashboardService.ts:97-98 | a level whose classes were not fetched shows 0 classes and 0 students |
| Rounding.RoundHalfUp | src/services/gradeService.ts:96 | `Math.round` of a quotient: the integer r with r - 1/2 <= n/d < r + 1/2, halves going up |
| Rounding.RoundHalfUpNearest | src/services/gradeService.ts:96 | the same bound read on the rational quotient |
| Rounding.RoundHalfUpMonotone | src/components/Students/StudentManagement.tsx:296 | rounding never decreases as the numerator grows |
| Rounding.RoundHalfUpExact | src/components/Students/StudentManagement.tsx:296 | a whole number of units rounds to itself |
| Rounding.GuardedPercent | src/components/Students/SupabaseStudentManagement.tsx:344 | 0 for an empty total, otherwise the nearest integer to 100 × part / total |
| Rounding.GuardedPercentRange | src/components/Classes/SupabaseClassManagement.tsx:279 | a part of the total gives [0, 100], 0 for no part and 100 for the whole |
| Rounding.RoundedPercent | src/components/Finance/OutstandingPaymentsModal.tsx:109 | the unguarded rounded percentage: undefined (None) exactly for a zero whole, the guarded one for a positive whole |
| Rounding.GuardedShare | src/components/Finance/SupabaseFinanceManagement.tsx:380 | 0 for no revenue; otherwise share × whole = 100 × part, within [0, 100] for a part of the whole |
| Rounding.PercentText | src/components/Finance/OutstandingPaymentsModal.tsx:109 | the rounded percentage followed by '%', and "Infinity%", "NaN%" or "-Infinity%" for a zero whole |
| Rounding.PercentTextFree | src/components/Finance/OutstandingPaymentsModal.tsx:109 | the percentage text holds only digits, '-', '%' and the letters of NaN and Infinity |
| Rounding.PercentTextSingleLine | src/components/Finance/OutstandingPaymentsModal.tsx:109-115 | the percentage cell holds no line break |
| Text.TrimEmptyIffBlank | src/components/Students/AddStudentModal.tsx:77-103 | a trimmed field is empty exactly when it is all white space |
| Text.LowerCharIdempotent | src/components/Finance/OutstandingPaymentsModal.tsx:36-37 | a lowered character lowers to itself |
| Text.LowerCharGaps | src/components/Finance/OutstandingPaymentsModal.tsx:36-37 | Ґ, Ϙ, Ș and Ạ, which `toLowerCase` lowers, are kept by the model's lowering |
| Text.LowerCharLigatures | src/components/Finance/OutstandingPaymentsModal.tsx:36-37 | Œ, Ÿ and É are lowered, and é is kept |
| Text.LigatureSearch | src/components/Finance/OutstandingPaymentsModal.tsx:36-37 | a search for "œ" finds "Œuvre" |
| Text.ToLowerIdempotent | src/components/Finance/OutstandingPaymentsModal.tsx:36-37 | lower-casing twice is lower-casing once |
| Text.ContainsEmpty | src/components/Finance/SupabaseFinanceManagement.tsx:168 | every text contains the empty search term |
| Text.ContainsInEmpty | src/components/Finance/SupabaseFinanceManagement.tsx:166-169 | the empty text contains only the empty term |
| Text.QuotedLineQuotes | src/components/Finance/SupabaseFinanceManagement.tsx:223 | a line of quote-free cells has two quotes per cell |
| Text.QuotedLineCommas | src/components/Finance/SupabaseFinanceManagement.tsx:223 | a line of comma-free cells has one comma fewer than cells |
| Text.LineFree | src/components/Finance/SupabaseFinanceManagement.tsx:223 | a data line of cells without a line break has none |
| Text.CsvLineCount | src/components/Finance/SupabaseFinanceManagement.tsx:221-224 | with no line break in the cells, the text has a header line and one line per row |
| Text.QuoteDoesNotEscape | src/components/Finance/SupabaseFinanceManagement.tsx:223 | a quote inside a cell is copied as it is, not doubled |
| Text.NatToStringValue | src/components/Students/AddStudentModal.tsx:198-209 | the decimal digits of a number spell that number |
| Text.IntToString | src/components/Students/AddStudentModal.tsx:198-209 | a non-empty text of digits, led by '-' exactly for a negative number |

## Left out

- Database, authentication-server and network calls (`supabase.*`, `signIn`, `signOut`, the last-login update), the async loading and `Promise.all`, `alert` and `confirm`: the rows they return are inputs, and a failed call is `None`.
- The query options (ordering, `limit`, `.in('id', userIds)`) of the dashboard: the fetched logs and profiles are inputs as returned.
- The debounced server-side search of the roster (`setTimeout`, `term.trim()`): it only chooses which rows are fetched.
- The derivation of `paid_amount`, `outstanding_amount` and `payment_status`: they come precomputed from services that are not part of this model.
- CSV download mechanics (Blob, object URL, link element) and every `toLocaleString`/`toLocaleDateString` call: the formatting is a function parameter and cells are opaque strings.
- `new Date()` and date parsing: today's date and parsed birth dates are `Date` triples given as parameters; time zones are not modelled.
- `Math.random` in the academic overview: the percentage of each entry is a parameter and is left unconstrained.
- JavaScript floating point: shares and averages are exact rationals, so binary rounding errors in the displayed percentages are not modelled.
- Lookups of a key in a plain JavaScript object, where a key such as `constructor` would reach the object's prototype: the colour maps, the preset amounts and the schedules by teacher are modelled as their listed entries only.
- Outstanding.OutstandingByLevel: the groups are listed in the order they are created. `Object.entries` lists integer-like keys ("1", "2", …) first, in ascending order, and that reordering is not modelled. A level named like an inherited `Object.prototype` member, such as `constructor`, makes the `!acc[level]` test false in the source, so no group is listed for it. The model groups such a level like any other.
- Grades.SubjectAverages: the results follow the order in which the accumulators are created. `Object.keys` and `Object.values` list integer-like subject names first, in ascending order, and that reordering is not modelled. For a subject named like an inherited `Object.prototype` member, such as `constructor`, `acc[subjectName].grades.push` throws a TypeError in the source. The model computes an ordinary average for it.
- TeacherTimetable.SubjectHours: the subjects follow the order in which they are first met. `Object.entries` lists integer-like subject names first, and that reordering is not modelled. A subject named like an inherited `Object.prototype` member starts from that member's value instead of 0. The model counts it like any other subject.
- The rounded fill-rate text `Math.round(fillRate)%` of the class table (`src/components/Classes/SupabaseClassManagement.tsx:425`): only the rate and its colour tier are modelled.
- The `scolariteAnnuelle` table of the payment dialog: it is never read.
- The demonstration data of the static screens (the hard-coded students, lessons and teachers): only the lessons and teachers the lookups are stated on are listed as constants.
- React rendering: each transition is one atomic method. A profile lookup is the pending flag `loadPending`, set when the effect on `shouldLoadProfile` would start one; a lookup that finishes after a later sign-out, or two lookups under way at once, are not modelled.
- Outstanding.FilteredDebtors: the name search lowers both sides with `Text.ToLower`. That lowers only A–Z, U+00C0–00DE without ×, the capitals of Latin Extended-A (U+0100–017F) other than İ, the Greek capitals U+0386–03AB and the Cyrillic capitals U+0400–042F. JavaScript's `toLowerCase` also lowers the rest of the Greek block (Ͱ, Ͳ, Ͷ, Ϳ, Ϗ, Ϙ–Ϯ such as Ϙ U+03D8, ϴ, Ϸ, Ϲ, Ϻ, Ͻ–Ͽ), the Cyrillic capitals U+0460–04FF (such as Ѡ, Ґ U+0490, Ҷ, Ӂ, Ӑ), Latin Extended-B (such as Ș U+0218), Latin Extended Additional (such as Ạ U+1EA0) and the capitals of every other script; it also lengthens İ (U+0130) and writes a word-final Σ as ς. None of that is modelled.
- Finance.FilteredPayments: the search's lowering has the same coverage as `Text.ToLower`, and the same gaps relative to `toLowerCase`.
- PaymentEntry.FilteredStudents: the case-insensitive match has the same coverage as `Text.ToLower`, and the same gaps relative to `toLowerCase`.
- StudentList.FilteredStudents: the name and parent search has the same coverage as `Text.ToLower`, and the same gaps relative to `toLowerCase`.
- TeacherTimetable.HourShare: for a zero total the source would compute NaN; the model uses 0 there, since a share is drawn only for a subject met, so the total is then positive.
- StudentRoster.Remaining: the contract only states the case where the stored amount is shown; the fallback is stated by RemainingFallback.
- Classes.LevelColor: the contract states only that a colour other than blue belongs to a listed level; the listed colours are stated by LevelColorListed and LevelColorIsColor.

## Findings

| source | as written | input that shows it | evidently intended | confidence | as-written member | corrected member |
|---|---|---|---|---|---|---|
| src/components/Students/SupabaseStudentManagement.tsx:209-213, 643-647 | the age is the difference of the years, whether or not the birthday has come | born 2015-12-31, on 2024-06-01 the list shows 9 | the number of whole years lived (8), as the enrolment form computes it | not executed | StudentRoster.ShownAgeTooOld | StudentRoster.ShownAge |
| src/components/Students/SupabaseStudentManagement.tsx:531-535 | `{x && x > 0 && <p>…</p>}` evaluates to the number 0 for an amount of 0, which React prints | a student with `outstanding_amount` 0 gets a stray "0" in the payment column | nothing rendered unless something is owed | not executed | StudentRoster.ResteStrayZero | StudentRoster.Reste |
| src/components/Finance/OutstandingPaymentsModal.tsx:272-278, 321-327 | the header checkbox is ticked when the number of selected ids equals the number of shown rows | the id "a" selected, then a search that shows only the row "b": the box is ticked though that row is not selected, and a click clears the selection | ticked exactly when every shown row is selected | not executed | Outstanding.HeaderClickDiffers | Outstanding.Selection.HeaderClick |
| src/components/Finance/PaymentModal.tsx:155-189, 558-600, 627-631 | a valid save hands the payment over and closes the dialog at once, which resets the step to the student list | any valid payment: the confirmation panel is never shown | after a valid save the dialog shows the confirmation step with the payment | not executed | PaymentEntry.ConfirmationNeverShown | PaymentEntry.ConfirmationShown |
| src/hooks/useSupabaseAuth.ts:46-54, 71-84 | `onAuthStateChange` clears the profile and sets `shouldLoadProfile` to the user's id, but the effect that loads the profile runs only when that id changes | signed in with a profile listing 'all', a token refresh for the same user: the profile stays null and every permission is lost | every event with a user looks the profile up again | not executed | Auth.SameUserEventLosesPermissions | Auth.IntendedSignInWithAllPermissions |
