/** The admin login form (src/components/LoginForm.tsx): its field state,
    validation and hand-off to the caller's submit handler. */
module LoginForm {
  import opened Text
  import opened Validation
  import LeadForm

  /** The `name` attributes of the form's inputs; also the keys of `formErrors`. */
  datatype Field = Email | Password

  datatype FormData = FormData(email: string, password: string)
  {
    function Get(f: Field): string
    {
      match f
      case Email => email
      case Password => password
    }

    /** `{ ...formData, [name]: value }` */
    function With(name: Field, value: string): (d: FormData)
      ensures d.Get(name) == value
      ensures forall f :: f != name ==> d.Get(f) == Get(f)
    {
      match name
      case Email => this.(email := value)
      case Password => this.(password := value)
    }
  }

  const EmptyForm := FormData("", "")

  const EmailRequired := "Email is required"
  const EmailInvalid := "Email format is invalid"
  const PasswordRequired := "Password is required"

  /** The errors `validateForm` reports for the given field values. */
  function FormErrors(d: FormData): map<Field, string>
  {
    var emailErrors :=
      if Trim(d.email) == "" then map[Email := EmailRequired]
      else if !EmailPatternTest(d.email) then map[Email := EmailInvalid]
      else map[];
    if d.password == "" then emailErrors[Password := PasswordRequired] else emailErrors
  }

  /** The email rules match the lead form's; the password is required but is
      not trimmed, so a password of spaces is accepted. */
  lemma ValidationRules(d: FormData)
    ensures AllWhitespace(d.email) ==>
              Email in FormErrors(d) && FormErrors(d)[Email] == "Email is required"
    ensures !AllWhitespace(d.email) && !RegexFinds(d.email) ==>
              Email in FormErrors(d) && FormErrors(d)[Email] == "Email format is invalid"
    ensures !AllWhitespace(d.email) && RegexFinds(d.email) ==> Email !in FormErrors(d)
    ensures Password in FormErrors(d) <==> d.password == ""
    ensures Password in FormErrors(d) ==> FormErrors(d)[Password] == "Password is required"
  {
    TrimEmptyIff(d.email);
    EmailPatternTestIff(d.email);
  }

  /** The same email string gets the same verdict and message on both forms. */
  lemma EmailRuleSharedWithLeadForm(d: FormData, lead: LeadForm.FormData)
    requires d.email == lead.email
    ensures Email in FormErrors(d) <==> LeadForm.FieldError(LeadForm.Email) in LeadForm.FormErrors(lead)
    ensures Email in FormErrors(d) ==>
              FormErrors(d)[Email] == LeadForm.FormErrors(lead)[LeadForm.FieldError(LeadForm.Email)]
  {
  }

  /** A password of blanks passes; an empty one does not. */
  lemma PasswordNotTrimmed(email: string)
    ensures Password !in FormErrors(FormData(email, "   "))
    ensures Password in FormErrors(FormData(email, ""))
  {
  }

  /** The form's React state. */
  class LoginFormState {
    var formData: FormData
    var formErrors: map<Field, string>

    constructor ()
      ensures formData == EmptyForm && formErrors == map[]
    {
      formData := EmptyForm;
      formErrors := map[];
    }

    /** Typing into field name: that field takes the value and its error is
        cleared to ""; the other field and its error stay. */
    method HandleChange(name: Field, value: string)
      modifies this
      ensures formData == old(formData).With(name, value)
      ensures formErrors == old(formErrors)[name := ""]
    {
      formData := formData.With(name, value);
      formErrors := formErrors[name := ""];
    }

    /** `validateForm`, filling the error map one check at a time. */
    method ValidateForm() returns (errors: map<Field, string>)
      ensures errors == FormErrors(formData)
    {
      errors := map[];
      if Trim(formData.email) == "" {
        errors := errors[Email := EmailRequired];
      } else if !EmailPatternTest(formData.email) {
        errors := errors[Email := EmailInvalid];
      }
      if formData.password == "" {
        errors := errors[Password := PasswordRequired];
      }
    }

    /** `handleSubmit`: on errors the error map is replaced by exactly the new
        errors; otherwise the caller's handler runs when one was given.
        onSubmitCalled says whether it ran. */
    method HandleSubmit(hasOnSubmit: bool) returns (onSubmitCalled: bool)
      modifies this
      ensures formData == old(formData)
      ensures |FormErrors(old(formData))| > 0 ==> formErrors == FormErrors(old(formData)) && !onSubmitCalled
      ensures |FormErrors(old(formData))| == 0 ==> formErrors == old(formErrors) && onSubmitCalled == hasOnSubmit
    {
      var errors := ValidateForm();
      if |errors| > 0 {
        formErrors := errors;
        return false;
      }
      onSubmitCalled := hasOnSubmit;
    }
  }
}
