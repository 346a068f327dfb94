/**
 * The sign-in form of the web front end: `validateForm`
 * (frontend/src/components/auth/Login.js).
 */
module Login {
  import opened Wrappers
  import opened JsStrings
  import opened FormChecks
  import Register

  datatype Form = Form(email: string, password: string)

  /** The keys `validateForm` may put into its error object. */
  datatype Field = Email | Password

  const EmailRequired := "Email is required"
  const EmailInvalid := "Please enter a valid email"
  const PasswordRequired := "Password is required"
  const PasswordTooShort := "Password must be at least 6 characters"

  /** The rules of each field, in the order the `if … else if` chains try them. */
  function Checks(form: Form, f: Field): seq<Check> {
    match f
    case Email => [Check(form.email != "", EmailRequired), Check(IsEmailAddress(form.email), EmailInvalid)]
    case Password => [Check(form.password != "", PasswordRequired), Check(|form.password| >= 6, PasswordTooShort)]
  }

  /** The message recorded for a field, if any. */
  function FieldError(form: Form, f: Field): Option<string> {
    FirstFailure(Checks(form, f))
  }

  lemma EmailErrorUnfolded(form: Form)
    ensures FieldError(form, Email) ==
      if form.email == "" then Some(EmailRequired) else if !IsEmailAddress(form.email) then Some(EmailInvalid) else None
  {
    var cs := Checks(form, Email);
    assert cs[1..] == [cs[1]];
  }

  lemma PasswordErrorUnfolded(form: Form)
    ensures FieldError(form, Password) ==
      if form.password == "" then Some(PasswordRequired) else if |form.password| < 6 then Some(PasswordTooShort) else None
  {
    var cs := Checks(form, Password);
    assert cs[1..] == [cs[1]];
  }

  /** `validateForm`: checks the e-mail, then, independently, the password, and reports whether the
      error object stayed empty. */
  method ValidateForm(form: Form) returns (valid: bool, errors: map<Field, string>)
    ensures forall f: Field :: f in errors <==> FieldError(form, f).Some?
    ensures forall f | f in errors :: FieldError(form, f) == Some(errors[f])
    ensures valid <==> errors == map[]
  {
    EmailErrorUnfolded(form);
    PasswordErrorUnfolded(form);
    var newErrors: map<Field, string> := map[];

    if form.email == "" {
      newErrors := newErrors[Email := EmailRequired];
    } else if !IsEmailAddress(form.email) {
      newErrors := newErrors[Email := EmailInvalid];
    }

    if form.password == "" {
      newErrors := newErrors[Password := PasswordRequired];
    } else if |form.password| < 6 {
      newErrors := newErrors[Password := PasswordTooShort];
    }

    errors := newErrors;
    valid := |errors| == 0;
    forall f: Field ensures (f in errors <==> FieldError(form, f).Some?) && (f in errors ==> FieldError(form, f) == Some(errors[f])) {
      match f
      case Email =>
      case Password =>
    }
  }

  /** The form passes exactly when the e-mail matches the pattern and the password has at least six
      characters; nothing is asked of the password's composition. */
  lemma ValidIff(form: Form)
    ensures (forall f: Field :: FieldError(form, f).None?) <==>
      MatchesEmailPattern(form.email) && |form.password| >= 6
  {
    EmailErrorUnfolded(form);
    PasswordErrorUnfolded(form);
    EmailPatternIff(form.email);
    if MatchesEmailPattern(form.email) && |form.password| >= 6 {
      forall f: Field ensures FieldError(form, f).None? {
        match f
        case Email =>
        case Password =>
      }
    }
    if (forall f: Field :: FieldError(form, f).None?) {
      assert FieldError(form, Email).None? && FieldError(form, Password).None?;
    }
  }

  /** The two fields are checked independently: an empty form gets both "required" messages at once. */
  lemma EmptyFormGetsBothMessages()
    ensures FieldError(Form("", ""), Email) == Some(EmailRequired)
    ensures FieldError(Form("", ""), Password) == Some(PasswordRequired)
  {
    EmailErrorUnfolded(Form("", ""));
    PasswordErrorUnfolded(Form("", ""));
  }

  /** The sign-in form asks the same of the e-mail as the sign-up form, and whatever password the
      sign-up form accepts the sign-in form accepts too. */
  lemma AcceptsWhatSignUpAccepts(r: Register.Form)
    ensures FieldError(Form(r.email, r.password), Email) == Register.FieldError(r, Register.Email)
    ensures Register.FieldError(r, Register.Password).None? ==> FieldError(Form(r.email, r.password), Password).None?
  {
    EmailErrorUnfolded(Form(r.email, r.password));
    PasswordErrorUnfolded(Form(r.email, r.password));
    Register.EmailErrorUnfolded(r);
    Register.PasswordErrorUnfolded(r);
  }

  /** "aaaaaa" passes the sign-in password rule and fails the sign-up one: sign-in has no
      composition rule. */
  lemma NoCompositionRule()
    ensures FieldError(Form("a@b.co", "aaaaaa"), Password).None?
    ensures Register.FieldError(Register.Form("Ann", "a@b.co", "0123456789", "aaaaaa", "aaaaaa"), Register.Password)
         == Some(Register.PasswordTooWeak)
  {
    PasswordErrorUnfolded(Form("a@b.co", "aaaaaa"));
    var r := Register.Form("Ann", "a@b.co", "0123456789", "aaaaaa", "aaaaaa");
    Register.PasswordErrorUnfolded(r);
    assert !LookaheadFinds("aaaaaa", Upper);
  }
}
