/** The patient form of src/components/PatientForm.tsx: its field-by-field
    validator, the per-field error map, and the change and submit handlers. */
module PatientFormComponent {
  import opened Types
  import opened JsText

  /** The five inputs, named as the `PatientRequest` keys they edit. */
  datatype Field = Name | Email | Address | DateOfBirth | RegisteredDate

  const NameRequired: string := "Name is required"
  const EmailRequired: string := "Email is required"
  const EmailInvalid: string := "Email is invalid"
  const AddressRequired: string := "Address is required"
  const DateOfBirthRequired: string := "Date of birth is required"
  const RegisteredDateRequired: string := "Registered date is required"

  function Get(f: PatientRequest, field: Field): string {
    match field
    case Name => f.name
    case Email => f.email
    case Address => f.address
    case DateOfBirth => f.dateOfBirth
    case RegisteredDate => f.registeredDate
  }

  /** `{...prev, [name]: value}`. */
  function Set(f: PatientRequest, field: Field, value: string): (g: PatientRequest)
    ensures Get(g, field) == value
    ensures forall other: Field | other != field :: Get(g, other) == Get(f, other)
  {
    match field
    case Name => f.(name := value)
    case Email => f.(email := value)
    case Address => f.(address := value)
    case DateOfBirth => f.(dateOfBirth := value)
    case RegisteredDate => f.(registeredDate := value)
  }

  /** The error each field gets on its own, read off the form's rules: text
      fields must hold a non-white-space character, the email must also
      contain a match of `\S+@\S+\.\S+`, the dates must be non-empty. */
  function FieldError(f: PatientRequest, field: Field): (r: Option<string>)
    ensures field == Email ==> (r.None? <==> MatchesEmailPattern(f.email))
    ensures r.Some? ==> (r.value == EmailInvalid <==> field == Email && !Blank(f.email))
  {
    match field
    case Name => if Blank(f.name) then Some(NameRequired) else None
    case Email =>
      EmailMatchNotBlank(f.email);
      if Blank(f.email) then Some(EmailRequired)
      else if !MatchesEmailPattern(f.email) then Some(EmailInvalid)
      else None
    case Address => if Blank(f.address) then Some(AddressRequired) else None
    case DateOfBirth => if f.dateOfBirth == "" then Some(DateOfBirthRequired) else None
    case RegisteredDate => if f.registeredDate == "" then Some(RegisteredDateRequired) else None
  }

  /** The check `validateForm` makes on one field, as written: the text
      fields through `trim()`, the email through the regular expression only
      once it is non-blank, the dates by plain emptiness. */
  function SourceCheck(f: PatientRequest, field: Field): (r: Option<string>)
    ensures r == FieldError(f, field)
  {
    match field
    case Name =>
      TrimEmptyIffBlank(f.name);
      if Trim(f.name) == "" then Some(NameRequired) else None
    case Email =>
      TrimEmptyIffBlank(f.email);
      if Trim(f.email) == "" then Some(EmailRequired)
      else if !MatchesEmailPattern(f.email) then Some(EmailInvalid)
      else None
    case Address =>
      TrimEmptyIffBlank(f.address);
      if Trim(f.address) == "" then Some(AddressRequired) else None
    case DateOfBirth => if f.dateOfBirth == "" then Some(DateOfBirthRequired) else None
    case RegisteredDate => if f.registeredDate == "" then Some(RegisteredDateRequired) else None
  }

  /** Records one check's outcome: a failure writes that field's message. */
  function Put(e: map<Field, string>, field: Field, check: Option<string>): map<Field, string> {
    if check.Some? then e[field := check.value] else e
  }

  /** `validateForm`'s fill of a fresh error object, one check after the
      other in the source's order, given each field's check outcome. */
  function Fill(checks: Field -> Option<string>): map<Field, string> {
    var e: map<Field, string> := map[];
    Put(Put(Put(Put(Put(e, Name, checks(Name)), Email, checks(Email)), Address, checks(Address)),
      DateOfBirth, checks(DateOfBirth)), RegisteredDate, checks(RegisteredDate))
  }

  /** Each field's outcome lands under its own key, whatever the others are. */
  lemma FillIsPerField(checks: Field -> Option<string>, field: Field)
    ensures field in Fill(checks) <==> checks(field).Some?
    ensures field in Fill(checks) ==> Fill(checks)[field] == checks(field).value
  {
  }

  /** The fill is empty exactly when every check passes. */
  lemma FillEmptyIffAllPass(checks: Field -> Option<string>)
    ensures Fill(checks) == map[] <==> forall field: Field :: checks(field).None?
  {
    if forall field: Field :: checks(field).None? {
      assert checks(Name).None? && checks(Email).None? && checks(Address).None?;
      assert checks(DateOfBirth).None? && checks(RegisteredDate).None?;
    } else {
      var field: Field :| checks(field).Some?;
      FillIsPerField(checks, field);
    }
  }

  /** `validateForm`: the error object, whose keys are the failed checks. */
  function Validate(f: PatientRequest): (r: map<Field, string>)
    ensures Name in r ==> r[Name] == NameRequired
    ensures Email in r ==> r[Email] == EmailRequired || r[Email] == EmailInvalid
    ensures Address in r ==> r[Address] == AddressRequired
    ensures DateOfBirth in r <==> f.dateOfBirth == ""
    ensures RegisteredDate in r <==> f.registeredDate == ""
  {
    var checks := field => SourceCheck(f, field);
    FillIsPerField(checks, Name);
    FillIsPerField(checks, Email);
    FillIsPerField(checks, Address);
    FillIsPerField(checks, DateOfBirth);
    FillIsPerField(checks, RegisteredDate);
    Fill(checks)
  }

  /** The checks are independent: the map holds exactly the failing fields,
      each with its own message. */
  lemma ValidateIsPerField(f: PatientRequest)
    ensures forall field: Field :: field in Validate(f) <==> FieldError(f, field).Some?
    ensures forall field: Field | field in Validate(f) :: Validate(f)[field] == FieldError(f, field).value
  {
    forall field: Field
      ensures field in Validate(f) <==> FieldError(f, field).Some?
      ensures field in Validate(f) ==> Validate(f)[field] == FieldError(f, field).value
    {
      FillIsPerField(field => SourceCheck(f, field), field);
    }
  }

  /** A string matching the email pattern is never blank. */
  lemma EmailMatchNotBlank(s: string)
    ensures MatchesEmailPattern(s) ==> !Blank(s)
  {
    if MatchesEmailPattern(s) {
      var i: nat, p: nat, d: nat, e: nat :| i < p < d < e <= |s| && EmailMatchAt(s, i, p, d, e);
      assert !IsSpace(s[i]);
    }
  }

  /** No error map entry means no field has an error. */
  lemma NoErrorsIffNoFieldError(f: PatientRequest)
    ensures Validate(f) == map[] <==> forall field: Field :: FieldError(f, field).None?
  {
    ValidateIsPerField(f);
    if forall field: Field :: FieldError(f, field).None? {
      assert Validate(f).Keys == {};
    }
  }

  /** The form passes validation exactly when every rule holds. The email
      rule alone covers "required": a match is never blank. */
  lemma ValidIffAllRulesHold(f: PatientRequest)
    ensures Validate(f) == map[] <==>
      !Blank(f.name) && MatchesEmailPattern(f.email) && !Blank(f.address) &&
      f.dateOfBirth != "" && f.registeredDate != ""
  {
    NoErrorsIffNoFieldError(f);
    if MatchesEmailPattern(f.email) {
      EmailMatchNotBlank(f.email);
    }
    var rules := !Blank(f.name) && MatchesEmailPattern(f.email) && !Blank(f.address) &&
      f.dateOfBirth != "" && f.registeredDate != "";
    if rules {
      forall field: Field ensures FieldError(f, field).None? {
      }
    } else {
      assert FieldError(f, Name).Some? || FieldError(f, Email).Some? || FieldError(f, Address).Some? ||
        FieldError(f, DateOfBirth).Some? || FieldError(f, RegisteredDate).Some?;
    }
  }

  /** A non-blank email without `@` (such as `not-an-email`) is reported as
      invalid, not as missing. */
  lemma EmailWithoutAtIsInvalid(f: PatientRequest)
    requires !Blank(f.email) && '@' !in f.email
    ensures Email in Validate(f) && Validate(f)[Email] == EmailInvalid
  {
    EmailPatternNeedsAtAndDot(f.email);
    ValidateIsPerField(f);
  }

  /** Only the empty string fails a date: white space is not trimmed. */
  lemma DatesAreNotTrimmed(f: PatientRequest)
    requires f.dateOfBirth != "" && Blank(f.dateOfBirth)
    ensures DateOfBirth !in Validate(f)
  {
  }

  class PatientForm {
    var formData: PatientRequest
    var errors: map<Field, string>

    /** Mount: an empty form dated today, then, when a patient is supplied,
        its five editable fields copied in. */
    constructor (patient: Option<Patient>, today: string)
      ensures patient.None? ==> formData == PatientRequest("", "", "", "", today)
      ensures patient.Some? ==> formData == PatientRequest(patient.value.name, patient.value.email,
        patient.value.address, patient.value.dateOfBirth, patient.value.registeredDate)
      ensures errors == map[]
    {
      formData := PatientRequest("", "", "", "", today);
      errors := map[];
      if patient.Some? {
        var p := patient.value;
        formData := PatientRequest(p.name, p.email, p.address, p.dateOfBirth, p.registeredDate);
      }
    }

    /** `handleChange`: writes one field and clears that field's error. */
    method HandleChange(field: Field, value: string)
      modifies this
      ensures formData == Set(old(formData), field, value)
      ensures errors == old(errors) - {field}
    {
      formData := Set(formData, field, value);
      if field in errors {
        errors := errors - {field};
      }
    }

    /** `handleSubmit`: replaces the error map and hands the form data on
        exactly when nothing failed. */
    method HandleSubmit() returns (submitted: Option<PatientRequest>)
      modifies this
      ensures formData == old(formData)
      ensures errors == Validate(formData)
      ensures submitted.Some? <==> errors == map[]
      ensures submitted.Some? ==> submitted.value == formData
    {
      errors := Validate(formData);
      if errors == map[] {
        submitted := Some(formData);
      } else {
        submitted := None;
      }
    }
  }
}
