/** The public lead-capture form (src/components/LeadForm.tsx): its field
    state, per-field validation and submission. */
module LeadForm {
  import opened Interfaces
  import opened Text
  import opened Validation

  /** The `name` attributes of the form's inputs. */
  datatype Field = FullName | Email | Phone | CompanyName | Notes

  /** A key of `formErrors`: one per field, plus the form-wide `general`. */
  datatype ErrorKey = FieldError(field: Field) | General

  datatype FormData = FormData(fullName: string, email: string, phone: string, companyName: string, notes: string)
  {
    function Get(f: Field): string
    {
      match f
      case FullName => fullName
      case Email => email
      case Phone => phone
      case CompanyName => companyName
      case Notes => notes
    }

    /** `{ ...formData, [name]: value }` */
    function With(name: Field, value: string): (d: FormData)
      ensures d.Get(name) == value
      ensures forall f :: f != name ==> d.Get(f) == Get(f)
    {
      match name
      case FullName => this.(fullName := value)
      case Email => this.(email := value)
      case Phone => this.(phone := value)
      case CompanyName => this.(companyName := value)
      case Notes => this.(notes := value)
    }
  }

  const EmptyForm := FormData("", "", "", "", "")

  const FullNameRequired := "Full Name is required"
  const EmailRequired := "Email is required"
  const EmailInvalid := "Email format is invalid"
  const SubmitFailed := "Failed to submit lead. Please try again."

  /** How the post of a valid form ends: the server returns the stored lead,
      or the request throws. */
  datatype PostOutcome = Created(lead: Lead) | Failed

  /** The errors `validateForm` reports for the given field values. */
  function FormErrors(d: FormData): map<ErrorKey, string>
  {
    var nameErrors := if Trim(d.fullName) == "" then map[FieldError(FullName) := FullNameRequired] else map[];
    if Trim(d.email) == "" then nameErrors[FieldError(Email) := EmailRequired]
    else if !EmailPatternTest(d.email) then nameErrors[FieldError(Email) := EmailInvalid]
    else nameErrors
  }

  /** The validation rules in terms of characters: the name is required (only
      whitespace counts as missing); the email is required and must contain a
      `\S+@\S+\.\S+` match; no other field and never `general` is reported. */
  lemma ValidationRules(d: FormData)
    ensures FieldError(FullName) in FormErrors(d) <==> AllWhitespace(d.fullName)
    ensures FieldError(FullName) in FormErrors(d) ==> FormErrors(d)[FieldError(FullName)] == "Full Name is required"
    ensures AllWhitespace(d.email) ==>
              FieldError(Email) in FormErrors(d) && FormErrors(d)[FieldError(Email)] == "Email is required"
    ensures !AllWhitespace(d.email) && !RegexFinds(d.email) ==>
              FieldError(Email) in FormErrors(d) && FormErrors(d)[FieldError(Email)] == "Email format is invalid"
    ensures !AllWhitespace(d.email) && RegexFinds(d.email) ==> FieldError(Email) !in FormErrors(d)
    ensures forall k :: k in FormErrors(d) ==> k == FieldError(FullName) || k == FieldError(Email)
  {
    TrimEmptyIff(d.fullName);
    TrimEmptyIff(d.email);
    EmailPatternTestIff(d.email);
  }

  /** Phone, company name and notes never produce an error and do not affect
      the others. */
  lemma OptionalFieldsIgnored(d: FormData, phone: string, companyName: string, notes: string)
    ensures FormErrors(d.(phone := phone, companyName := companyName, notes := notes)) == FormErrors(d)
    ensures FieldError(Phone) !in FormErrors(d)
    ensures FieldError(CompanyName) !in FormErrors(d)
    ensures FieldError(Notes) !in FormErrors(d)
  {
  }

  /** The form's React state. */
  class LeadFormState {
    var formData: FormData
    var formErrors: map<ErrorKey, string>

    constructor ()
      ensures formData == EmptyForm && formErrors == map[]
    {
      formData := EmptyForm;
      formErrors := map[];
    }

    /** Typing into field name: that field takes the value, its error and the
        general error are cleared to "", everything else stays. */
    method HandleChange(name: Field, value: string)
      modifies this
      ensures formData == old(formData).With(name, value)
      ensures formErrors == old(formErrors)[FieldError(name) := ""][General := ""]
    {
      formData := formData.With(name, value);
      formErrors := formErrors[FieldError(name) := ""][General := ""];
    }

    /** `validateForm`, filling the error map one check at a time. */
    method ValidateForm() returns (errors: map<ErrorKey, string>)
      ensures errors == FormErrors(formData)
    {
      errors := map[];
      if Trim(formData.fullName) == "" {
        errors := errors[FieldError(FullName) := FullNameRequired];
      }
      if Trim(formData.email) == "" {
        errors := errors[FieldError(Email) := EmailRequired];
      } else if !EmailPatternTest(formData.email) {
        errors := errors[FieldError(Email) := EmailInvalid];
      }
    }

    /** `handleSubmit` with the post's ending given as outcome. request is the
        field data posted, if a post is made; submitted is the lead handed to
        `onLeadSubmit`, if it is called. */
    method HandleSubmit(outcome: PostOutcome) returns (request: Option<FormData>, submitted: Option<Lead>)
      modifies this
      ensures |FormErrors(old(formData))| > 0 ==>
                && request == None && submitted == None
                && formData == old(formData)
                && formErrors == old(formErrors) + FormErrors(old(formData))
      ensures |FormErrors(old(formData))| == 0 ==> request == Some(old(formData))
      ensures |FormErrors(old(formData))| == 0 && outcome.Created? ==>
                submitted == Some(outcome.lead) && formData == EmptyForm && formErrors == map[]
      ensures |FormErrors(old(formData))| == 0 && outcome.Failed? ==>
                && submitted == None
                && formData == old(formData)
                && formErrors == old(formErrors)[General := "Failed to submit lead. Please try again."]
    {
      var errors := ValidateForm();
      if |errors| > 0 {
        formErrors := formErrors + errors;
        return None, None;
      }
      request := Some(formData);
      match outcome
      case Created(lead) =>
        submitted := Some(lead);
        formData := EmptyForm;
        formErrors := map[];
      case Failed =>
        submitted := None;
        formErrors := formErrors[General := SubmitFailed];
    }
  }

  /** A blank name with a well-formed email fails on the name alone. */
  lemma BlankNameErrors()
    ensures FormErrors(FormData("", "a@b.com", "", "", "")) == map[FieldError(FullName) := "Full Name is required"]
  {
    assert !IsWhitespace("a@b.com"[0]);
    assert AtThenDot("a@b.com", 1, 3);
  }

  /** Submitting that form posts nothing and adds only the name error to what
      typing the email left behind. */
  method BlankNameScenario() returns (request: Option<FormData>, formErrors: map<ErrorKey, string>)
    ensures request == None
    ensures formErrors == map[FieldError(Email) := "", General := "", FieldError(FullName) := "Full Name is required"]
  {
    var form := new LeadFormState();
    form.HandleChange(Email, "a@b.com");
    assert form.formData == FormData("", "a@b.com", "", "", "");
    BlankNameErrors();
    var submitted;
    request, submitted := form.HandleSubmit(Failed);
    formErrors := form.formErrors;
  }
}
