/** The payment entry dialog: a three-step form (choose a student, enter the payment, confirm)
    whose state is held in a `PaymentForm` object; the student search, the payment-type preset
    amounts and the validation that runs before a payment is handed to the caller. */
module PaymentEntry {
  import opened Seqs
  import opened Text

  datatype Step = StudentStep | PaymentStep | ConfirmationStep

  datatype PayMethod = Cash | MobileMoney | BankTransfer

  /** A student offered for payment, as fetched. */
  datatype Student = Student(id: string, firstName: string, lastName: string, className: Option<string>)

  function FullName(s: Student): string {
    s.firstName + " " + s.lastName
  }

  /** `student.classes?.name || 'Non assigné'`. */
  function ClassLabel(s: Student): (r: string)
    ensures r != ""
    ensures s.className.Some? && s.className.value != "" ==> r == s.className.value
  {
    if s.className.Some? && s.className.value != "" then s.className.value else "Non assigné"
  }

  predicate MatchesStudent(s: Student, term: string) {
    Contains(ToLower(FullName(s)), ToLower(term)) ||
    Contains(ToLower(if s.className.Some? then s.className.value else ""), ToLower(term))
  }

  /** `filteredStudents`: the students whose full name or class name holds the search term,
      ignoring case, in their original order. */
  function FilteredStudents(students: seq<Student>, term: string): (r: seq<Student>)
    ensures forall i :: 0 <= i < |r| ==> MatchesStudent(r[i], term)
    ensures forall i :: 0 <= i < |students| && MatchesStudent(students[i], term) ==> students[i] in r
  {
    Filter(students, s => MatchesStudent(s, term))
  }

  /** The list keeps its order, and an empty search shows every student. */
  lemma FilteredStudentsOrder(students: seq<Student>, term: string)
    ensures IsSubsequence(FilteredStudents(students, term), students)
    ensures term == "" ==> FilteredStudents(students, term) == students
  {
    FilterIsSubsequence(students, s => MatchesStudent(s, term));
    if term == "" {
      forall i | 0 <= i < |students|
        ensures MatchesStudent(students[i], term)
      {
        ContainsEmpty(ToLower(FullName(students[i])));
      }
      FilterAll(students, s => MatchesStudent(s, term));
    }
  }

  /** The payment types offered, with their preset amounts. */
  const PaymentTypes: seq<(string, nat)> := [
    ("Inscription", 50000), ("Scolarité", 0), ("Cantine", 25000),
    ("Transport", 15000), ("Fournitures", 20000), ("Autre", 0)]

  /** The listed amount of the first entry of `table` with that type, if there is one
      (`paymentTypes.find(pt => pt.value === type)?.amount`). */
  function ListedAmount(table: seq<(string, nat)>, paymentType: string): (r: Option<nat>)
    ensures r.Some? ==> exists i :: 0 <= i < |table| && table[i] == (paymentType, r.value)
    ensures r.None? <==> forall i :: 0 <= i < |table| ==> table[i].0 != paymentType
  {
    if |table| == 0 then None
    else if table[0].0 == paymentType then Some(table[0].1)
    else
      var r := ListedAmount(table[1..], paymentType);
      assert forall i :: 1 <= i < |table| ==> table[i] == table[1..][i - 1];
      if r.Some? then
        ghost var i :| 0 <= i < |table[1..]| && table[1..][i] == (paymentType, r.value);
        assert table[i + 1] == (paymentType, r.value);
        r
      else r
  }

  /** The amount filled in when a payment type is chosen: 0 for a tuition instalment
      (`Scolarité`), otherwise the listed amount of that type, or 0 for a type not listed. */
  function PresetAmount(paymentType: string): (a: nat)
    ensures a > 0 ==> paymentType != "Scolarité" && exists i :: 0 <= i < |PaymentTypes| && PaymentTypes[i] == (paymentType, a)
    ensures (forall i :: 0 <= i < |PaymentTypes| ==> PaymentTypes[i].0 != paymentType) ==> a == 0
  {
    if paymentType == "Scolarité" then 0
    else
      var listed := ListedAmount(PaymentTypes, paymentType);
      if listed.Some? then listed.value else 0
  }

  /** The fees of the first listed types. */
  lemma PresetAmountsFirst()
    ensures PresetAmount("Inscription") == 50000 && PresetAmount("Scolarité") == 0
    ensures PresetAmount("Cantine") == 25000
  {
    var t := PaymentTypes;
    assert t[1..][1..] == t[2..];
    assert ListedAmount(t[2..], "Cantine") == Some(25000);
  }

  lemma PresetAmountsMiddle()
    ensures PresetAmount("Transport") == 15000
  {
    var t := PaymentTypes;
    assert t[1..][1..] == t[2..] && t[2..][1..] == t[3..];
    assert ListedAmount(t[3..], "Transport") == Some(15000);
    assert ListedAmount(t[2..], "Transport") == Some(15000);
  }

  lemma PresetAmountsLast()
    ensures PresetAmount("Fournitures") == 20000
  {
    var t := PaymentTypes;
    assert t[1..][1..] == t[2..] && t[2..][1..] == t[3..] && t[3..][1..] == t[4..];
    assert ListedAmount(t[4..], "Fournitures") == Some(20000);
    assert ListedAmount(t[3..], "Fournitures") == Some(20000);
    assert ListedAmount(t[2..], "Fournitures") == Some(20000);
  }

  /** `Autre` presets 0, and so does the initial type `Mensualité`, which is not listed. */
  lemma PresetAmountsZero()
    ensures PresetAmount("Autre") == 0 && PresetAmount("Mensualité") == 0
  {
    var t := PaymentTypes;
    assert t[5] == ("Autre", 0);
    assert forall i :: 0 <= i < |t| ==> t[i].0 != "Mensualité";
  }

  /** The form's payment record while it is being filled in (a partial record: the student
      fields are absent until a student is chosen, the optional texts until they are typed). */
  datatype PaymentData = PaymentData(
    studentId: Option<string>,
    studentName: Option<string>,
    studentClass: Option<string>,
    amount: int,
    payMethod: PayMethod,
    paymentType: string,
    date: string,
    month: Option<string>,
    reference: Option<string>,
    mobileNumber: Option<string>,
    bankDetails: Option<string>,
    notes: Option<string>)

  /** The record handed to the caller. */
  datatype PaymentRecord = PaymentRecord(
    studentId: string,
    studentName: string,
    studentClass: string,
    amount: int,
    payMethod: PayMethod,
    paymentType: string,
    date: string,
    month: Option<string>,
    reference: Option<string>,
    mobileNumber: Option<string>,
    bankDetails: Option<string>,
    notes: Option<string>)

  /** The fresh form data: amount 0, cash, a monthly payment dated today. */
  function InitialData(today: string): PaymentData {
    PaymentData(None, None, None, 0, Cash, "Mensualité", today, None, None, None, None, None)
  }

  /** A text counts as missing when it is absent or empty. */
  predicate Missing(s: Option<string>) {
    s.None? || s.value == ""
  }

  const StudentError := "Veuillez sélectionner un élève"
  const AmountError := "Le montant doit être supérieur à 0"
  const MobileError := "Numéro de téléphone requis pour Mobile Money"
  const BankError := "Détails bancaires requis pour le virement"

  /** The error messages `validatePayment` collects, keyed by field. */
  function ValidationErrors(selected: Option<Student>, d: PaymentData): (e: map<string, string>)
    ensures "student" in e <==> selected.None?
    ensures "amount" in e <==> d.amount <= 0
    ensures "mobileNumber" in e <==> d.payMethod == MobileMoney && Missing(d.mobileNumber)
    ensures "bankDetails" in e <==> d.payMethod == BankTransfer && Missing(d.bankDetails)
    ensures forall k :: k in e ==> k in {"student", "amount", "mobileNumber", "bankDetails"}
  {
    var e1 := if selected.None? then map["student" := StudentError] else map[];
    var e2 := if d.amount <= 0 then e1["amount" := AmountError] else e1;
    var e3 := if d.payMethod == MobileMoney && Missing(d.mobileNumber) then e2["mobileNumber" := MobileError] else e2;
    if d.payMethod == BankTransfer && Missing(d.bankDetails) then e3["bankDetails" := BankError] else e3
  }

  /** A payment may be recorded when a student is chosen, the amount is positive and the
      chosen method's detail is given. */
  predicate Acceptable(selected: Option<Student>, d: PaymentData) {
    selected.Some? && d.amount > 0 &&
    (d.payMethod == MobileMoney ==> !Missing(d.mobileNumber)) &&
    (d.payMethod == BankTransfer ==> !Missing(d.bankDetails))
  }

  /** Validation succeeds (no error collected) exactly when the payment is acceptable. */
  lemma ValidIffAcceptable(selected: Option<Student>, d: PaymentData)
    ensures ValidationErrors(selected, d) == map[] <==> Acceptable(selected, d)
  {
    var e := ValidationErrors(selected, d);
    if !Acceptable(selected, d) {
      assert "student" in e || "amount" in e || "mobileNumber" in e || "bankDetails" in e;
    }
  }

  /** The record submitted for a chosen student: the student's id, full name and class label,
      and every entered field unchanged. */
  function Submitted(s: Student, d: PaymentData): (r: PaymentRecord)
    ensures r.studentId == s.id && r.studentName == FullName(s) && r.studentClass == ClassLabel(s)
    ensures r.amount == d.amount && r.payMethod == d.payMethod && r.paymentType == d.paymentType && r.date == d.date
    ensures r.month == d.month && r.reference == d.reference && r.notes == d.notes
    ensures r.mobileNumber == d.mobileNumber && r.bankDetails == d.bankDetails
  {
    PaymentRecord(s.id, FullName(s), ClassLabel(s), d.amount, d.payMethod, d.paymentType, d.date,
      d.month, d.reference, d.mobileNumber, d.bankDetails, d.notes)
  }

  /** The dialog's state. */
  class PaymentForm {
    var step: Step
    var searchTerm: string
    var selected: Option<Student>
    var data: PaymentData
    var errors: map<string, string>

    /** The state a fresh or closed dialog is in. */
    predicate IsInitial(today: string)
      reads this
    {
      step == StudentStep && selected.None? && data == InitialData(today) && searchTerm == "" && errors == map[]
    }

    constructor(today: string)
      ensures IsInitial(today)
    {
      step := StudentStep;
      searchTerm := "";
      selected := None;
      data := InitialData(today);
      errors := map[];
    }

    method SetSearchTerm(term: string)
      modifies this
      ensures searchTerm == term
      ensures step == old(step) && selected == old(selected) && data == old(data) && errors == old(errors)
    {
      searchTerm := term;
    }

    /** `handleStudentSelect`: record the student and move on to the payment details. */
    method SelectStudent(s: Student)
      modifies this
      ensures selected == Some(s) && step == PaymentStep
      ensures data == old(data).(studentId := Some(s.id), studentName := Some(FullName(s)), studentClass := Some(ClassLabel(s)))
      ensures searchTerm == old(searchTerm) && errors == old(errors)
    {
      selected := Some(s);
      data := data.(studentId := Some(s.id), studentName := Some(FullName(s)), studentClass := Some(ClassLabel(s)));
      step := PaymentStep;
    }

    /** `handlePaymentTypeChange`: only the type and the amount change. */
    method ChangePaymentType(t: string)
      modifies this
      ensures data == old(data).(paymentType := t, amount := PresetAmount(t))
      ensures step == old(step) && selected == old(selected) && searchTerm == old(searchTerm) && errors == old(errors)
    {
      if t == "Scolarité" {
        data := data.(paymentType := t, amount := 0);
      } else {
        var entry := ListedAmount(PaymentTypes, t);
        var preset := if entry.Some? then entry.value else 0;
        data := data.(paymentType := t, amount := preset);
      }
    }

    /** The amount field: `parseInt(value) || 0`, with the parse (None when it gives NaN) done
        by the caller. */
    method EnterAmount(parsed: Option<int>)
      modifies this
      ensures data == old(data).(amount := if parsed.Some? then parsed.value else 0)
      ensures step == old(step) && selected == old(selected) && searchTerm == old(searchTerm) && errors == old(errors)
    {
      data := data.(amount := if parsed.Some? then parsed.value else 0);
    }

    method ChooseMethod(m: PayMethod)
      modifies this
      ensures data == old(data).(payMethod := m)
      ensures step == old(step) && selected == old(selected) && searchTerm == old(searchTerm) && errors == old(errors)
    {
      data := data.(payMethod := m);
    }

    method EnterMobileNumber(n: string)
      modifies this
      ensures data == old(data).(mobileNumber := Some(n))
      ensures step == old(step) && selected == old(selected) && searchTerm == old(searchTerm) && errors == old(errors)
    {
      data := data.(mobileNumber := Some(n));
    }

    method EnterBankDetails(b: string)
      modifies this
      ensures data == old(data).(bankDetails := Some(b))
      ensures step == old(step) && selected == old(selected) && searchTerm == old(searchTerm) && errors == old(errors)
    {
      data := data.(bankDetails := Some(b));
    }

    /** The month field of a tuition payment. */
    method EnterMonth(m: string)
      modifies this
      ensures data == old(data).(month := Some(m))
      ensures step == old(step) && selected == old(selected) && searchTerm == old(searchTerm) && errors == old(errors)
    {
      data := data.(month := Some(m));
    }

    /** The date picker. */
    method EnterDate(d: string)
      modifies this
      ensures data == old(data).(date := d)
      ensures step == old(step) && selected == old(selected) && searchTerm == old(searchTerm) && errors == old(errors)
    {
      data := data.(date := d);
    }

    method EnterReference(r: string)
      modifies this
      ensures data == old(data).(reference := Some(r))
      ensures step == old(step) && selected == old(selected) && searchTerm == old(searchTerm) && errors == old(errors)
    {
      data := data.(reference := Some(r));
    }

    method EnterNotes(n: string)
      modifies this
      ensures data == old(data).(notes := Some(n))
      ensures step == old(step) && selected == old(selected) && searchTerm == old(searchTerm) && errors == old(errors)
    {
      data := data.(notes := Some(n));
    }

    /** The "Retour" and "Changer" buttons of the payment step. */
    method BackToStudents()
      modifies this
      ensures step == StudentStep
      ensures selected == old(selected) && data == old(data) && searchTerm == old(searchTerm) && errors == old(errors)
    {
      step := StudentStep;
    }

    /** `validatePayment`: collect the errors condition by condition, store them, and report
        whether there were none. */
    method Validate() returns (ok: bool)
      modifies this
      ensures errors == ValidationErrors(selected, data)
      ensures ok <==> Acceptable(selected, data)
      ensures step == old(step) && selected == old(selected) && data == old(data) && searchTerm == old(searchTerm)
    {
      var newErrors: map<string, string> := map[];
      if selected.None? {
        newErrors := newErrors["student" := StudentError];
      }
      if data.amount <= 0 {
        newErrors := newErrors["amount" := AmountError];
      }
      if data.payMethod == MobileMoney && Missing(data.mobileNumber) {
        newErrors := newErrors["mobileNumber" := MobileError];
      }
      if data.payMethod == BankTransfer && Missing(data.bankDetails) {
        newErrors := newErrors["bankDetails" := BankError];
      }
      errors := newErrors;
      ValidIffAcceptable(selected, data);
      ok := |errors| == 0;
      assert ok <==> errors == map[];
    }

    /** `handleClose`: back to the initial state. (Telling the caller that the dialog closed is
        not part of this model.) */
    method Close(today: string)
      modifies this
      ensures IsInitial(today)
    {
      step := StudentStep;
      selected := None;
      data := InitialData(today);
      searchTerm := "";
      errors := map[];
    }

    /** `handleSubmit`: an acceptable payment is handed over as a complete record and the
        dialog is reset; otherwise only the errors are updated. */
    method Submit(today: string) returns (record: Option<PaymentRecord>)
      modifies this
      ensures Acceptable(old(selected), old(data)) ==>
        record == Some(Submitted(old(selected).value, old(data))) && IsInitial(today)
      ensures !Acceptable(old(selected), old(data)) ==>
        record.None? && errors == ValidationErrors(old(selected), old(data)) &&
        step == old(step) && selected == old(selected) && data == old(data) && searchTerm == old(searchTerm)
    {
      var ok := Validate();
      if ok && selected.Some? {
        record := Some(Submitted(selected.value, data));
        Close(today);
      } else {
        record := None;
      }
    }

    /** The "Enregistrer Paiement" button as written: on a valid form it sets the step to
        confirmation and then submits, and submitting closes the dialog, so the step ends
        back at the student list with no student: the confirmation panel (shown for the
        confirmation step with a chosen student) never appears. */
    method SaveAsWritten(today: string) returns (record: Option<PaymentRecord>)
      modifies this
      ensures Acceptable(old(selected), old(data)) ==>
        record == Some(Submitted(old(selected).value, old(data))) && IsInitial(today)
      ensures Acceptable(old(selected), old(data)) ==> !(step == ConfirmationStep && selected.Some?)
      ensures !Acceptable(old(selected), old(data)) ==>
        record.None? && errors == ValidationErrors(old(selected), old(data)) &&
        step == old(step) && selected == old(selected) && data == old(data) && searchTerm == old(searchTerm)
    {
      var ok := Validate();
      if ok {
        step := ConfirmationStep;
        record := Submit(today);
      } else {
        record := None;
      }
    }

    /** The button as evidently intended: hand the payment over and show the confirmation
        panel with the summary of what was recorded; closing the dialog resets it. */
    method SaveAndConfirm() returns (record: Option<PaymentRecord>)
      modifies this
      ensures Acceptable(old(selected), old(data)) ==>
        record == Some(Submitted(old(selected).value, old(data))) &&
        step == ConfirmationStep && selected == old(selected) && data == old(data) && errors == map[]
      ensures !Acceptable(old(selected), old(data)) ==>
        record.None? && errors == ValidationErrors(old(selected), old(data)) &&
        step == old(step) && selected == old(selected) && data == old(data)
      ensures searchTerm == old(searchTerm)
    {
      var ok := Validate();
      if ok {
        record := Some(Submitted(selected.value, data));
        step := ConfirmationStep;
      } else {
        record := None;
      }
    }
  }

  /** A complete valid session with the button as written: a student is chosen, a tuition
      instalment of 1000 in cash is entered and saved; the payment is handed over but the
      dialog ends at the student list, never on the confirmation panel. */
  method ConfirmationNeverShown() returns (handedOver: bool, confirmationShown: bool)
    ensures handedOver && !confirmationShown
  {
    var form := new PaymentForm("2024-10-01");
    form.SelectStudent(Student("s1", "Awa", "Traoré", Some("CM1")));
    form.ChangePaymentType("Scolarité");
    form.EnterAmount(Some(1000));
    var record := form.SaveAsWritten("2024-10-01");
    handedOver := record.Some?;
    confirmationShown := form.step == ConfirmationStep && form.selected.Some?;
  }

  /** The same session with the intended button ends on the confirmation panel, showing the
      student and the amount that were recorded. */
  method ConfirmationShown() returns (handedOver: bool, confirmationShown: bool, shownAmount: int)
    ensures handedOver && confirmationShown && shownAmount == 1000
  {
    var form := new PaymentForm("2024-10-01");
    form.SelectStudent(Student("s1", "Awa", "Traoré", Some("CM1")));
    form.ChangePaymentType("Scolarité");
    form.EnterAmount(Some(1000));
    var record := form.SaveAndConfirm();
    handedOver := record.Some?;
    confirmationShown := form.step == ConfirmationStep && form.selected.Some?;
    shownAmount := form.data.amount;
  }
}
