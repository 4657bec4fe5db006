/** The enrolment dialog: a four-step wizard (student, parent, fees, confirmation) held in an
    `EnrolmentForm` object, with the checks each step runs before moving on, the class table
    that fixes level and yearly fees, and the age shown next to the birth date. */
module Enrolment {
  import opened Seqs
  import opened Text
  import opened Calendar
  import PaymentEntry

  datatype Step = StudentInfo | ParentInfo | Financial | Confirmation

  /** The position of a step in the wizard. */
  function Rank(s: Step): nat {
    match s
    case StudentInfo => 0
    case ParentInfo => 1
    case Financial => 2
    case Confirmation => 3
  }

  /** "Suivant": the step after a step; the last step has none and stays. */
  function Following(s: Step): (r: Step)
    ensures s != Confirmation ==> Rank(r) == Rank(s) + 1
    ensures s == Confirmation ==> r == s
  {
    match s
    case StudentInfo => ParentInfo
    case ParentInfo => Financial
    case Financial => Confirmation
    case Confirmation => Confirmation
  }

  /** "Retour": the step before a step; the first step stays. */
  function Preceding(s: Step): (r: Step)
    ensures s != StudentInfo ==> Rank(r) + 1 == Rank(s)
    ensures s == StudentInfo ==> r == s
  {
    match s
    case StudentInfo => StudentInfo
    case ParentInfo => StudentInfo
    case Financial => ParentInfo
    case Confirmation => Financial
  }

  /** Going back from a step that has a successor returns to it, and moving on from a step
      that has a predecessor does too. */
  lemma BackUndoesNext(s: Step)
    ensures s != Confirmation ==> Preceding(Following(s)) == s
    ensures s != StudentInfo ==> Following(Preceding(s)) == s
  {
  }

  /** The enrolment being entered. */
  datatype NewStudent = NewStudent(
    firstName: string,
    lastName: string,
    dateOfBirth: string,
    className: string,
    level: string,
    parentName: string,
    parentPhone: string,
    parentEmail: string,
    address: string,
    enrollmentDate: string,
    totalFees: int,
    initialPayment: int,
    paymentMethod: PaymentEntry.PayMethod,
    mobileNumber: Option<string>,
    bankDetails: Option<string>,
    notes: string)

  /** A blank enrolment dated today, paid in cash. */
  function InitialStudent(today: string): NewStudent {
    NewStudent("", "", "", "", "", "", "", "", "", today, 0, 0, PaymentEntry.Cash, None, None, "")
  }

  /** A part of an e-mail address in `^[^\s@]+@[^\s@]+\.[^\s@]+$`: at least one character,
      none of them white space or `@`. */
  predicate PlainPart(x: string) {
    |x| > 0 && forall k :: 0 <= k < |x| ==> x[k] != '@' && !IsWhite(x[k])
  }

  /** The e-mail pattern, read off the regular expression: a plain part, `@`, a plain part,
      a dot, a plain part. */
  predicate EmailPattern(s: string) {
    exists i, j :: 0 < i < j < |s| && s[i] == '@' && s[j] == '.' &&
      PlainPart(s[..i]) && PlainPart(s[i + 1..j]) && PlainPart(s[j + 1..])
  }

  /** The same shape in words: no white space, exactly one `@` and not at the start, and after
      it a dot that is neither the first nor the last character of the domain. */
  predicate EmailShape(s: string) {
    (forall k :: 0 <= k < |s| ==> !IsWhite(s[k])) &&
    exists i :: 0 < i < |s| && s[i] == '@' && (forall k :: 0 <= k < |s| && s[k] == '@' ==> k == i) &&
      exists j :: i + 1 < j < |s| - 1 && s[j] == '.'
  }

  lemma EmailPatternIffShape(s: string)
    ensures EmailPattern(s) <==> EmailShape(s)
  {
    if EmailPattern(s) {
      EmailPatternHasShape(s);
    }
    if EmailShape(s) {
      EmailShapeFitsPattern(s);
    }
  }

  lemma EmailPatternHasShape(s: string)
    requires EmailPattern(s)
    ensures EmailShape(s)
  {
    var i, j :| 0 < i < j < |s| && s[i] == '@' && s[j] == '.' &&
      PlainPart(s[..i]) && PlainPart(s[i + 1..j]) && PlainPart(s[j + 1..]);
    forall k | 0 <= k < |s|
      ensures !IsWhite(s[k]) && (s[k] == '@' ==> k == i)
    {
      if k < i {
        assert s[k] == s[..i][k];
      } else if i < k < j {
        assert s[k] == s[i + 1..j][k - i - 1];
      } else if j < k {
        assert s[k] == s[j + 1..][k - j - 1];
      }
    }
    assert i + 1 < j < |s| - 1;
  }

  lemma EmailShapeFitsPattern(s: string)
    requires EmailShape(s)
    ensures EmailPattern(s)
  {
    var i :| 0 < i < |s| && s[i] == '@' && (forall k :: 0 <= k < |s| && s[k] == '@' ==> k == i) &&
      exists j :: i + 1 < j < |s| - 1 && s[j] == '.';
    var j :| i + 1 < j < |s| - 1 && s[j] == '.';
    PlainSlice(s, 0, i, i);
    PlainSlice(s, i + 1, j, i);
    PlainSlice(s, j + 1, |s|, i);
  }

  /** A non-empty slice of a string without white space and with its only `@` elsewhere is a
      plain part. */
  lemma PlainSlice(s: string, lo: int, hi: int, at: int)
    requires 0 <= lo < hi <= |s| && !(lo <= at < hi)
    requires forall k :: 0 <= k < |s| ==> !IsWhite(s[k])
    requires forall k :: 0 <= k < |s| && s[k] == '@' ==> k == at
    ensures PlainPart(s[lo..hi])
  {
    forall k | 0 <= k < hi - lo
      ensures s[lo..hi][k] != '@' && !IsWhite(s[lo..hi][k])
    {
      assert s[lo..hi][k] == s[lo + k];
    }
  }

  /** What each step demands of the enrolment. */
  predicate StepValid(step: Step, d: NewStudent) {
    match step
    case StudentInfo =>
      !IsBlank(d.firstName) && !IsBlank(d.lastName) && d.dateOfBirth != "" && d.className != ""
    case ParentInfo =>
      !IsBlank(d.parentName) && !IsBlank(d.parentPhone) && !IsBlank(d.parentEmail) &&
      EmailPattern(d.parentEmail) && !IsBlank(d.address)
    case Financial =>
      0 <= d.initialPayment <= d.totalFees &&
      (d.paymentMethod == PaymentEntry.MobileMoney ==> !PaymentEntry.Missing(d.mobileNumber)) &&
      (d.paymentMethod == PaymentEntry.BankTransfer ==> !PaymentEntry.Missing(d.bankDetails))
    case Confirmation => true
  }

  const FirstNameError := "Le prénom est requis"
  const LastNameError := "Le nom est requis"
  const BirthError := "La date de naissance est requise"
  const ClassError := "La classe est requise"
  const ParentNameError := "Le nom du parent/tuteur est requis"
  const PhoneError := "Le téléphone est requis"
  const EmailMissingError := "L'email est requis"
  const EmailFormatError := "Format d'email invalide"
  const AddressError := "L'adresse est requise"
  const NegativeError := "Le montant ne peut pas être négatif"
  const AboveFeesError := "Le paiement initial ne peut pas dépasser les frais totaux"
  const MobileError := "Numéro de téléphone requis pour Mobile Money"
  const BankError := "Détails bancaires requis pour le virement"

  /** The errors of the student step. */
  function StudentErrors(d: NewStudent): (e: map<string, string>)
    ensures "firstName" in e <==> IsBlank(d.firstName)
    ensures "lastName" in e <==> IsBlank(d.lastName)
    ensures "dateOfBirth" in e <==> d.dateOfBirth == ""
    ensures "class" in e <==> d.className == ""
    ensures forall k :: k in e ==> k in {"firstName", "lastName", "dateOfBirth", "class"}
  {
    var e1 := if IsBlank(d.firstName) then map["firstName" := FirstNameError] else map[];
    var e2 := if IsBlank(d.lastName) then e1["lastName" := LastNameError] else e1;
    var e3 := if d.dateOfBirth == "" then e2["dateOfBirth" := BirthError] else e2;
    if d.className == "" then e3["class" := ClassError] else e3
  }

  /** The errors of the parent step: a blank e-mail is reported as missing, a non-blank one
      that does not fit the pattern as malformed. */
  function ParentErrors(d: NewStudent): (e: map<string, string>)
    ensures "parentName" in e <==> IsBlank(d.parentName)
    ensures "parentPhone" in e <==> IsBlank(d.parentPhone)
    ensures "parentEmail" in e <==> IsBlank(d.parentEmail) || !EmailPattern(d.parentEmail)
    ensures "parentEmail" in e && !IsBlank(d.parentEmail) ==> e["parentEmail"] == EmailFormatError
    ensures "address" in e <==> IsBlank(d.address)
    ensures forall k :: k in e ==> k in {"parentName", "parentPhone", "parentEmail", "address"}
  {
    var e1 := if IsBlank(d.parentName) then map["parentName" := ParentNameError] else map[];
    var e2 := if IsBlank(d.parentPhone) then e1["parentPhone" := PhoneError] else e1;
    var e3 :=
      if IsBlank(d.parentEmail) then e2["parentEmail" := EmailMissingError]
      else if !EmailPattern(d.parentEmail) then e2["parentEmail" := EmailFormatError]
      else e2;
    if IsBlank(d.address) then e3["address" := AddressError] else e3
  }

  /** The errors of the fees step; a payment above the fees gets the later message. */
  function FinancialErrors(d: NewStudent): (e: map<string, string>)
    ensures "initialPayment" in e <==> d.initialPayment < 0 || d.initialPayment > d.totalFees
    ensures d.initialPayment > d.totalFees ==> "initialPayment" in e && e["initialPayment"] == AboveFeesError
    ensures "mobileNumber" in e <==> d.paymentMethod == PaymentEntry.MobileMoney && PaymentEntry.Missing(d.mobileNumber)
    ensures "bankDetails" in e <==> d.paymentMethod == PaymentEntry.BankTransfer && PaymentEntry.Missing(d.bankDetails)
    ensures forall k :: k in e ==> k in {"initialPayment", "mobileNumber", "bankDetails"}
  {
    var e1 := if d.initialPayment < 0 then map["initialPayment" := NegativeError] else map[];
    var e2 := if d.initialPayment > d.totalFees then e1["initialPayment" := AboveFeesError] else e1;
    var e3 := if d.paymentMethod == PaymentEntry.MobileMoney && PaymentEntry.Missing(d.mobileNumber) then e2["mobileNumber" := MobileError] else e2;
    if d.paymentMethod == PaymentEntry.BankTransfer && PaymentEntry.Missing(d.bankDetails) then e3["bankDetails" := BankError] else e3
  }

  /** The error messages `validateStep` collects for a step, keyed by field; the confirmation
      step checks nothing. */
  function StepErrors(step: Step, d: NewStudent): map<string, string> {
    match step
    case StudentInfo => StudentErrors(d)
    case ParentInfo => ParentErrors(d)
    case Financial => FinancialErrors(d)
    case Confirmation => map[]
  }

  /** The student step's checks, condition by condition. */
  method CollectStudentErrors(data: NewStudent) returns (newErrors: map<string, string>)
    ensures newErrors == StudentErrors(data)
  {
    newErrors := map[];
    if IsBlank(data.firstName) {
      newErrors := newErrors["firstName" := FirstNameError];
    }
    if IsBlank(data.lastName) {
      newErrors := newErrors["lastName" := LastNameError];
    }
    if data.dateOfBirth == "" {
      newErrors := newErrors["dateOfBirth" := BirthError];
    }
    if data.className == "" {
      newErrors := newErrors["class" := ClassError];
    }
  }

  /** The parent step's checks, condition by condition. */
  method CollectParentErrors(data: NewStudent) returns (newErrors: map<string, string>)
    ensures newErrors == ParentErrors(data)
  {
    newErrors := map[];
    if IsBlank(data.parentName) {
      newErrors := newErrors["parentName" := ParentNameError];
    }
    if IsBlank(data.parentPhone) {
      newErrors := newErrors["parentPhone" := PhoneError];
    }
    if IsBlank(data.parentEmail) {
      newErrors := newErrors["parentEmail" := EmailMissingError];
    } else if !EmailPattern(data.parentEmail) {
      newErrors := newErrors["parentEmail" := EmailFormatError];
    }
    if IsBlank(data.address) {
      newErrors := newErrors["address" := AddressError];
    }
  }

  /** The fees step's checks, condition by condition. */
  method CollectFinancialErrors(data: NewStudent) returns (newErrors: map<string, string>)
    ensures newErrors == FinancialErrors(data)
  {
    newErrors := map[];
    if data.initialPayment < 0 {
      newErrors := newErrors["initialPayment" := NegativeError];
    }
    if data.initialPayment > data.totalFees {
      newErrors := newErrors["initialPayment" := AboveFeesError];
    }
    if data.paymentMethod == PaymentEntry.MobileMoney && PaymentEntry.Missing(data.mobileNumber) {
      newErrors := newErrors["mobileNumber" := MobileError];
    }
    if data.paymentMethod == PaymentEntry.BankTransfer && PaymentEntry.Missing(data.bankDetails) {
      newErrors := newErrors["bankDetails" := BankError];
    }
  }

  /** A step's check passes (no error collected) exactly when the step is valid. */
  lemma {:induction false} StepErrorsEmptyIffValid(step: Step, d: NewStudent)
    ensures StepErrors(step, d) == map[] <==> StepValid(step, d)
  {
    match step
    case StudentInfo =>
      var e := StudentErrors(d);
      if !StepValid(step, d) {
        assert "firstName" in e || "lastName" in e || "dateOfBirth" in e || "class" in e;
      }
    case ParentInfo =>
      var e := ParentErrors(d);
      if !StepValid(step, d) {
        assert "parentName" in e || "parentPhone" in e || "parentEmail" in e || "address" in e;
      }
    case Financial =>
      var e := FinancialErrors(d);
      if !StepValid(step, d) {
        assert "initialPayment" in e || "mobileNumber" in e || "bankDetails" in e;
      }
    case Confirmation =>
  }

  /** A class offered in the enrolment, with its level and yearly fees. */
  datatype ClassFee = ClassFee(name: string, level: string, fees: nat)

  const ClassesWithFees: seq<ClassFee> := [
    ClassFee("Maternelle 1A", "Maternelle", 300000), ClassFee("Maternelle 1B", "Maternelle", 300000),
    ClassFee("Maternelle 2A", "Maternelle", 300000), ClassFee("CI A", "CI", 350000),
    ClassFee("CI B", "CI", 350000), ClassFee("CP1", "CP", 350000), ClassFee("CP2", "CP", 350000),
    ClassFee("CE1A", "CE1", 400000), ClassFee("CE1B", "CE1", 400000), ClassFee("CE2A", "CE2", 400000),
    ClassFee("CE2B", "CE2", 400000), ClassFee("CM1A", "CM1", 450000), ClassFee("CM1B", "CM1", 450000),
    ClassFee("CM2A", "CM2", 450000), ClassFee("CM2B", "CM2", 450000)]

  /** The yearly fees of a level. */
  function LevelFees(level: string): nat {
    if level == "Maternelle" then 300000
    else if level == "CI" || level == "CP" then 350000
    else if level == "CE1" || level == "CE2" then 400000
    else if level == "CM1" || level == "CM2" then 450000
    else 0
  }

  /** The fees in the class table depend only on the level. */
  lemma ClassFeesFollowLevel()
    ensures forall i :: 0 <= i < |ClassesWithFees| ==> ClassesWithFees[i].fees == LevelFees(ClassesWithFees[i].level)
  {
  }

  /** `classesWithFees.find(c => c.name === className)`. */
  function ClassByName(table: seq<ClassFee>, name: string): (r: Option<ClassFee>)
    ensures r.Some? ==> r.value.name == name && r.value in table
    ensures r.None? <==> forall i :: 0 <= i < |table| ==> table[i].name != name
  {
    if |table| == 0 then None
    else if table[0].name == name then Some(table[0])
    else
      assert forall i :: 1 <= i < |table| ==> table[i] == table[1..][i - 1];
      ClassByName(table[1..], name)
  }

  /** The text fields of the form, each typed into on one step. */
  datatype Field =
    | FirstName | LastName | DateOfBirth | EnrollmentDate
    | ParentName | ParentPhone | ParentEmail | Address
    | MobileNumber | BankDetails | Notes

  /** The step whose panel shows the field. */
  function FieldStep(f: Field): Step {
    match f
    case FirstName => StudentInfo
    case LastName => StudentInfo
    case DateOfBirth => StudentInfo
    case EnrollmentDate => StudentInfo
    case ParentName => ParentInfo
    case ParentPhone => ParentInfo
    case ParentEmail => ParentInfo
    case Address => ParentInfo
    case MobileNumber => Financial
    case BankDetails => Financial
    case Notes => Financial
  }

  /** The enrolment with one text field replaced. */
  function WithText(d: NewStudent, f: Field, v: string): NewStudent {
    match f
    case FirstName => d.(firstName := v)
    case LastName => d.(lastName := v)
    case DateOfBirth => d.(dateOfBirth := v)
    case EnrollmentDate => d.(enrollmentDate := v)
    case ParentName => d.(parentName := v)
    case ParentPhone => d.(parentPhone := v)
    case ParentEmail => d.(parentEmail := v)
    case Address => d.(address := v)
    case MobileNumber => d.(mobileNumber := Some(v))
    case BankDetails => d.(bankDetails := Some(v))
    case Notes => d.(notes := v)
  }

  /** Typing into a field changes only what its own step checks. */
  lemma WithTextKeepsOtherSteps(d: NewStudent, f: Field, v: string, s: Step)
    requires s != FieldStep(f)
    ensures StepValid(s, WithText(d, f, v)) == StepValid(s, d)
  {
  }

  /** The dialog's state. */
  class EnrolmentForm {
    var step: Step
    var data: NewStudent
    var errors: map<string, string>

    /** Every step before the current one is valid: the wizard only moves on after a step's
        check passes, and each field is edited on its own step. */
    predicate Reached()
      reads this
    {
      forall s: Step :: Rank(s) < Rank(step) ==> StepValid(s, data)
    }

    predicate IsInitial(today: string)
      reads this
    {
      step == StudentInfo && data == InitialStudent(today) && errors == map[]
    }

    constructor(today: string)
      ensures IsInitial(today) && Reached()
    {
      step := StudentInfo;
      data := InitialStudent(today);
      errors := map[];
    }

    /** Typing into a text field. The wizard shows a field only on its own step. */
    method EditText(f: Field, v: string)
      modifies this
      ensures data == WithText(old(data), f, v)
      ensures step == old(step) && errors == old(errors)
      ensures old(Reached()) && FieldStep(f) == step ==> Reached()
    {
      data := WithText(data, f, v);
      if FieldStep(f) == step {
        forall s: Step | Rank(s) < Rank(step)
          ensures StepValid(s, data) == StepValid(s, old(data))
        {
          WithTextKeepsOtherSteps(old(data), f, v, s);
        }
      }
    }

    /** The initial payment field: `parseInt(value) || 0`, the parse (None for NaN) done by the
        caller. Shown on the fees step. */
    method EnterInitialPayment(parsed: Option<int>)
      modifies this
      ensures data == old(data).(initialPayment := if parsed.Some? then parsed.value else 0)
      ensures step == old(step) && errors == old(errors)
      ensures old(Reached()) && step == Financial ==> Reached()
    {
      data := data.(initialPayment := if parsed.Some? then parsed.value else 0);
    }

    /** The payment method buttons of the fees step. */
    method ChooseMethod(m: PaymentEntry.PayMethod)
      modifies this
      ensures data == old(data).(paymentMethod := m)
      ensures step == old(step) && errors == old(errors)
      ensures old(Reached()) && step == Financial ==> Reached()
    {
      data := data.(paymentMethod := m);
    }

    /** `handleClassChange`: a class of the table sets the class, its level and its fees; any
        other name (the empty placeholder included) leaves the form unchanged. Shown on the
        student step. */
    method ChangeClass(name: string)
      modifies this
      ensures ClassByName(ClassesWithFees, name).Some? ==>
        var c := ClassByName(ClassesWithFees, name).value;
        data == old(data).(className := name, level := c.level, totalFees := c.fees) &&
        data.totalFees == LevelFees(data.level)
      ensures ClassByName(ClassesWithFees, name).None? ==> data == old(data)
      ensures step == old(step) && errors == old(errors)
      ensures old(Reached()) && step == StudentInfo ==> Reached()
    {
      var selected := ClassByName(ClassesWithFees, name);
      if selected.Some? {
        ClassFeesFollowLevel();
        data := data.(className := name, level := selected.value.level, totalFees := selected.value.fees);
      }
    }

    /** `validateStep`: collect the errors of one step condition by condition, store them, and
        report whether there were none. */
    method Validate(s: Step) returns (ok: bool)
      modifies this
      ensures errors == StepErrors(s, data)
      ensures ok <==> StepValid(s, data)
      ensures step == old(step) && data == old(data)
    {
      var newErrors: map<string, string> := map[];
      if s == StudentInfo {
        newErrors := CollectStudentErrors(data);
      } else if s == ParentInfo {
        newErrors := CollectParentErrors(data);
      } else if s == Financial {
        newErrors := CollectFinancialErrors(data);
      }
      errors := newErrors;
      StepErrorsEmptyIffValid(s, data);
      ok := |errors| == 0;
      assert ok <==> errors == map[];
    }

    /** `handleNext`: move on one step when the current step is valid, otherwise stay and show
        its errors. */
    method Next()
      modifies this
      ensures StepValid(old(step), old(data)) ==> step == Following(old(step))
      ensures !StepValid(old(step), old(data)) ==> step == old(step)
      ensures data == old(data) && errors == StepErrors(old(step), old(data))
      ensures old(Reached()) ==> Reached()
    {
      var ok := Validate(step);
      if ok {
        step := Following(step);
      }
      if old(Reached()) {
        forall s: Step | Rank(s) < Rank(step)
          ensures StepValid(s, data)
        {
          if Rank(s) == Rank(old(step)) {
            assert s == old(step);
          }
        }
      }
    }

    /** `handleBack`. */
    method Back()
      modifies this
      ensures step == Preceding(old(step))
      ensures data == old(data) && errors == old(errors)
      ensures old(Reached()) ==> Reached()
    {
      step := Preceding(step);
    }

    /** `handleClose`: a blank form at the first step. (Telling the caller that the dialog
        closed is not part of this model.) */
    method Close(today: string)
      modifies this
      ensures IsInitial(today) && Reached()
    {
      step := StudentInfo;
      data := InitialStudent(today);
      errors := map[];
    }

    /** `handleSubmit`: only the fees step is checked again; when it passes, the enrolment is
        handed over and the form is reset. Reached from the confirmation step, the handed-over
        enrolment passed every step's check. */
    method Submit(today: string) returns (submitted: Option<NewStudent>)
      modifies this
      ensures StepValid(Financial, old(data)) ==> submitted == Some(old(data)) && IsInitial(today)
      ensures !StepValid(Financial, old(data)) ==>
        submitted.None? && step == old(step) && data == old(data) && errors == StepErrors(Financial, old(data))
      ensures old(Reached()) && old(step) == Confirmation ==>
        submitted.Some? && StepValid(StudentInfo, submitted.value) && StepValid(ParentInfo, submitted.value)
      ensures old(Reached()) ==> Reached()
    {
      assert Rank(StudentInfo) < Rank(Confirmation) && Rank(ParentInfo) < Rank(Confirmation) && Rank(Financial) < Rank(Confirmation);
      var ok := Validate(Financial);
      if ok {
        submitted := Some(data);
        Close(today);
      } else {
        submitted := None;
      }
    }
  }

  /** `calculateAge`: an empty birth date shows nothing; otherwise the age in whole years on
      `today`. Reading the text as a date is done by the caller (`birth`). */
  function AgeText(birthInput: string, birth: Date, today: Date): (r: string)
    ensures birthInput == "" <==> r == ""
    ensures birthInput != "" ==> r == IntToString(Age(birth, today))
  {
    if birthInput == "" then "" else IntToString(Age(birth, today))
  }
}
