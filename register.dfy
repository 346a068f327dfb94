/**
 * The sign-up form of the web front end: `validateForm`, the password-strength
 * meter and the payload `handleSubmit` sends (frontend/src/components/auth/Register.js).
 */
module Register {
  import opened Wrappers
  import opened JsStrings
  import opened FormChecks

  datatype Form = Form(name: string, email: string, phone: string, password: string, confirmPassword: string)

  /** The keys `validateForm` may put into its error object. */
  datatype Field = Name | Email | Phone | Password | ConfirmPassword

  const NameRequired := "Full name is required"
  const NameTooShort := "Name must be at least 3 characters"
  const EmailRequired := "Email is required"
  const EmailInvalid := "Please enter a valid email"
  const PhoneRequired := "Phone number is required"
  const PhoneNotTenDigits := "Phone number must be 10 digits"
  const PasswordRequired := "Password is required"
  const PasswordTooShort := "Password must be at least 6 characters"
  const PasswordTooWeak := "Password must contain uppercase, lowercase, and number"
  const ConfirmRequired := "Please confirm password"
  const ConfirmMismatch := "Passwords do not match"

  /** `/^[0-9]{10}$/.test(x)` */
  predicate IsTenDigits(x: string) {
    |x| == 10 && forall i | 0 <= i < |x| :: InClass(x[i], Digit)
  }

  /** `/^(?=.*[a-z])(?=.*[A-Z])(?=.*\d)/.test(p)` */
  predicate HasComposition(p: string) {
    LookaheadFinds(p, Lower) && LookaheadFinds(p, Upper) && LookaheadFinds(p, Digit)
  }

  /** The rules of each field, in the order the `if … else if` chains try them. */
  function Checks(form: Form, f: Field): seq<Check> {
    match f
    case Name => [Check(Trim(form.name) != "", NameRequired), Check(|form.name| >= 3, NameTooShort)]
    case Email => [Check(form.email != "", EmailRequired), Check(IsEmailAddress(form.email), EmailInvalid)]
    case Phone =>
      [Check(form.phone != "", PhoneRequired), Check(IsTenDigits(StripNonDigits(form.phone)), PhoneNotTenDigits)]
    case Password =>
      [ Check(form.password != "", PasswordRequired)
      , Check(|form.password| >= 6, PasswordTooShort)
      , Check(HasComposition(form.password), PasswordTooWeak) ]
    case ConfirmPassword =>
      [Check(form.confirmPassword != "", ConfirmRequired), Check(form.password == form.confirmPassword, ConfirmMismatch)]
  }

  /** The message recorded for a field, if any. */
  function FieldError(form: Form, f: Field): Option<string> {
    FirstFailure(Checks(form, f))
  }

  /** The message recorded for each field, rule by rule. */
  lemma NameErrorUnfolded(form: Form)
    ensures FieldError(form, Name) ==
      if Trim(form.name) == "" then Some(NameRequired) else if |form.name| < 3 then Some(NameTooShort) else None
  {
    var cs := Checks(form, Name);
    assert cs[1..] == [cs[1]];
  }

  lemma EmailErrorUnfolded(form: Form)
    ensures FieldError(form, Email) ==
      if form.email == "" then Some(EmailRequired) else if !IsEmailAddress(form.email) then Some(EmailInvalid) else None
  {
    var cs := Checks(form, Email);
    assert cs[1..] == [cs[1]];
  }

  lemma PhoneErrorUnfolded(form: Form)
    ensures FieldError(form, Phone) ==
      if form.phone == "" then Some(PhoneRequired)
      else if !IsTenDigits(StripNonDigits(form.phone)) then Some(PhoneNotTenDigits) else None
  {
    var cs := Checks(form, Phone);
    assert cs[1..] == [cs[1]];
  }

  lemma PasswordErrorUnfolded(form: Form)
    ensures FieldError(form, Password) ==
      if form.password == "" then Some(PasswordRequired)
      else if |form.password| < 6 then Some(PasswordTooShort)
      else if !HasComposition(form.password) then Some(PasswordTooWeak) else None
  {
    var cs := Checks(form, Password);
    assert cs[1..] == [cs[1], cs[2]];
    assert cs[1..][1..] == [cs[2]];
  }

  lemma ConfirmErrorUnfolded(form: Form)
    ensures FieldError(form, ConfirmPassword) ==
      if form.confirmPassword == "" then Some(ConfirmRequired)
      else if form.password != form.confirmPassword then Some(ConfirmMismatch) else None
  {
    var cs := Checks(form, ConfirmPassword);
    assert cs[1..] == [cs[1]];
  }

  /** Records the message e for field f, if there is one. */
  function Put(m: map<Field, string>, f: Field, e: Option<string>): map<Field, string> {
    if e.Some? then m[f := e.value] else m
  }

  /** Recording each field's message in turn leaves exactly the fields that have one, with their messages. */
  lemma PutAll(e: Field -> Option<string>)
    ensures var m := Put(Put(Put(Put(Put(map[], Name, e(Name)), Email, e(Email)), Phone, e(Phone)),
                             Password, e(Password)), ConfirmPassword, e(ConfirmPassword));
      && (forall f: Field :: f in m <==> e(f).Some?)
      && (forall f | f in m :: e(f) == Some(m[f]))
  {
    var m1 := Put(map[], Name, e(Name));
    var m2 := Put(m1, Email, e(Email));
    var m3 := Put(m2, Phone, e(Phone));
    var m4 := Put(m3, Password, e(Password));
    var m := Put(m4, ConfirmPassword, e(ConfirmPassword));
    forall f: Field ensures (f in m <==> e(f).Some?) && (f in m ==> e(f) == Some(m[f])) {
      match f
      case Name =>
      case Email =>
      case Phone =>
      case Password =>
      case ConfirmPassword =>
    }
  }

  /** The name chain of `validateForm`. */
  method RecordNameError(form: Form, errors: map<Field, string>) returns (newErrors: map<Field, string>)
    ensures newErrors == Put(errors, Name, FieldError(form, Name))
  {
    NameErrorUnfolded(form);
    newErrors := errors;
    if Trim(form.name) == "" {
      newErrors := newErrors[Name := NameRequired];
    } else if |form.name| < 3 {
      newErrors := newErrors[Name := NameTooShort];
    }
  }

  /** The e-mail chain of `validateForm`. */
  method RecordEmailError(form: Form, errors: map<Field, string>) returns (newErrors: map<Field, string>)
    ensures newErrors == Put(errors, Email, FieldError(form, Email))
  {
    EmailErrorUnfolded(form);
    newErrors := errors;
    if form.email == "" {
      newErrors := newErrors[Email := EmailRequired];
    } else if !IsEmailAddress(form.email) {
      newErrors := newErrors[Email := EmailInvalid];
    }
  }

  /** The phone chain of `validateForm`. */
  method RecordPhoneError(form: Form, errors: map<Field, string>) returns (newErrors: map<Field, string>)
    ensures newErrors == Put(errors, Phone, FieldError(form, Phone))
  {
    PhoneErrorUnfolded(form);
    newErrors := errors;
    if form.phone == "" {
      newErrors := newErrors[Phone := PhoneRequired];
    } else if !IsTenDigits(StripNonDigits(form.phone)) {
      newErrors := newErrors[Phone := PhoneNotTenDigits];
    }
  }

  /** The password chain of `validateForm`. */
  method RecordPasswordError(form: Form, errors: map<Field, string>) returns (newErrors: map<Field, string>)
    ensures newErrors == Put(errors, Password, FieldError(form, Password))
  {
    PasswordErrorUnfolded(form);
    newErrors := errors;
    if form.password == "" {
      newErrors := newErrors[Password := PasswordRequired];
    } else if |form.password| < 6 {
      newErrors := newErrors[Password := PasswordTooShort];
    } else if !HasComposition(form.password) {
      newErrors := newErrors[Password := PasswordTooWeak];
    }
  }

  /** The confirmation chain of `validateForm`. */
  method RecordConfirmError(form: Form, errors: map<Field, string>) returns (newErrors: map<Field, string>)
    ensures newErrors == Put(errors, ConfirmPassword, FieldError(form, ConfirmPassword))
  {
    ConfirmErrorUnfolded(form);
    newErrors := errors;
    if form.confirmPassword == "" {
      newErrors := newErrors[ConfirmPassword := ConfirmRequired];
    } else if form.password != form.confirmPassword {
      newErrors := newErrors[ConfirmPassword := ConfirmMismatch];
    }
  }

  /** `validateForm`: fills the error object field by field, in the order name, e-mail, phone,
      password, confirmation, and reports whether it stayed empty. */
  method ValidateForm(form: Form) returns (valid: bool, errors: map<Field, string>)
    ensures forall f: Field :: f in errors <==> FieldError(form, f).Some?
    ensures forall f | f in errors :: FieldError(form, f) == Some(errors[f])
    ensures valid <==> errors == map[]
  {
    var newErrors: map<Field, string> := map[];
    newErrors := RecordNameError(form, newErrors);
    newErrors := RecordEmailError(form, newErrors);
    newErrors := RecordPhoneError(form, newErrors);
    newErrors := RecordPasswordError(form, newErrors);
    newErrors := RecordConfirmError(form, newErrors);
    errors := newErrors;
    valid := |errors| == 0;
    PutAll(f => FieldError(form, f));
  }

  /** The conditions under which the form passes every rule. */
  ghost predicate Acceptable(form: Form) {
    && Trim(form.name) != "" && |form.name| >= 3
    && MatchesEmailPattern(form.email)
    && IsTenDigits(StripNonDigits(form.phone))
    && |form.password| >= 6 && HasComposition(form.password)
    && form.confirmPassword == form.password
  }

  lemma EmailPasses(form: Form)
    ensures FieldError(form, Email).None? <==> MatchesEmailPattern(form.email)
  {
    EmailErrorUnfolded(form);
    EmailPatternIff(form.email);
  }

  lemma PhonePasses(form: Form)
    ensures FieldError(form, Phone).None? <==> IsTenDigits(StripNonDigits(form.phone))
  {
    PhoneErrorUnfolded(form);
    assert StripNonDigits("") == "";
  }

  /** The form passes every rule exactly when: the trimmed name is non-empty and the untrimmed name
      has at least three characters, the e-mail matches the pattern, the phone has ten digits once the
      non-digits are removed, the password has at least six characters with a lower-case letter, an
      upper-case letter and a digit before any line break, and the confirmation equals the password. */
  lemma ValidIff(form: Form)
    ensures (forall f: Field :: FieldError(form, f).None?) <==> Acceptable(form)
  {
    NameErrorUnfolded(form);
    EmailPasses(form);
    PhonePasses(form);
    PasswordErrorUnfolded(form);
    ConfirmErrorUnfolded(form);
    if Acceptable(form) {
      forall f: Field ensures FieldError(form, f).None? {
        match f
        case Name =>
        case Email =>
        case Phone =>
        case Password =>
        case ConfirmPassword =>
      }
    }
    if (forall f: Field :: FieldError(form, f).None?) {
      assert FieldError(form, Name).None? && FieldError(form, Email).None? && FieldError(form, Phone).None?;
    assert FieldError(form, Password).None?;
      assert FieldError(form, Password).None? && FieldError(form, ConfirmPassword).None?;
    }
  }

  // ---------------------------------------------------------------- the submitted payload

  datatype Payload = Payload(name: string, email: string, phone: string, password: string)

  /** What `handleSubmit` passes to `register`: name and e-mail trimmed, the phone reduced to its
      digits, the password as typed. */
  function SubmittedPayload(form: Form): (p: Payload)
    ensures Trim(p.name) == p.name && Trim(p.email) == p.email
    ensures StripNonDigits(p.phone) == p.phone
    ensures p.password == form.password
  {
    TrimIdempotent(form.name);
    TrimIdempotent(form.email);
    StripNonDigitsOfDigits(StripNonDigits(form.phone));
    Payload(Trim(form.name), Trim(form.email), StripNonDigits(form.phone), form.password)
  }

  /** For a form that passed validation, the payload has a non-empty trimmed name, the e-mail exactly
      as typed (a valid address has no white space to trim), ten digits as the phone and the typed
      password. */
  lemma PayloadOfValidForm(form: Form)
    requires forall f: Field :: FieldError(form, f).None?
    ensures var p := SubmittedPayload(form);
      && p.name != "" && Trim(p.name) == p.name
      && p.email == form.email
      && IsTenDigits(p.phone) && StripNonDigits(p.phone) == p.phone
      && p.password == form.password
  {
    assert FieldError(form, Name).None? && FieldError(form, Email).None? && FieldError(form, Phone).None?;
    NameErrorUnfolded(form);
    EmailErrorUnfolded(form);
    PhoneErrorUnfolded(form);
    TrimNoSpace(form.email);
    TrimIdempotent(form.name);
    StripNonDigitsKeepsDigits(StripNonDigits(form.phone));
  }

  /** The payload's e-mail, phone and password, put back into the form, pass its rules again. */
  lemma PayloadPassesAgain(form: Form)
    requires forall f: Field :: FieldError(form, f).None?
    ensures var p := SubmittedPayload(form);
      var again := form.(email := p.email, phone := p.phone, password := p.password);
      FieldError(again, Email).None? && FieldError(again, Phone).None? && FieldError(again, Password).None?
  {
    PayloadOfValidForm(form);
    var p := SubmittedPayload(form);
    assert form.(email := p.email, phone := p.phone, password := p.password) == form.(phone := p.phone);
    PhoneOnlyAffectsPhone(form, p.phone);
    PhoneErrorUnfolded(form.(phone := p.phone));
  }

  lemma PhoneOnlyAffectsPhone(form: Form, phone: string)
    ensures FieldError(form.(phone := phone), Email) == FieldError(form, Email)
    ensures FieldError(form.(phone := phone), Password) == FieldError(form, Password)
  {
    assert Checks(form.(phone := phone), Email) == Checks(form, Email);
    assert Checks(form.(phone := phone), Password) == Checks(form, Password);
  }

  /** The length rule counts the untrimmed name: " a " passes validation, yet the name sent to the
      server is the single character "a". */
  lemma PaddedShortNamePasses()
    ensures var form := Form(" a ", "a@b.co", "0123456789", "Abcdef1", "Abcdef1");
      FieldError(form, Name).None? && SubmittedPayload(form).name == "a"
  {
    var form := Form(" a ", "a@b.co", "0123456789", "Abcdef1", "Abcdef1");
    NameErrorUnfolded(form);
    assert TrimStart(" a ") == TrimStart("a ") == "a ";
    assert TrimEnd("a ") == TrimEnd("a") == "a";
  }

  // ---------------------------------------------------------------- password strength

  datatype Label = Weak | Fair | Good | Strong
  datatype Color = Red | Yellow | Blue | Green
  datatype Strength = Strength(score: nat, level: Label, color: Color)

  /** The five things the meter rewards: at least eight characters, a lower-case letter, an
      upper-case letter, a digit, and a character that is none of these. */
  function Criteria(p: string): seq<bool> {
    [|p| >= 8, Contains(p, Lower), Contains(p, Upper), Contains(p, Digit), Contains(p, NonAlphanumeric)]
  }

  /** The number of true entries. */
  function CountTrue(bs: seq<bool>): nat {
    if bs == [] then 0 else (if bs[0] then 1 else 0) + CountTrue(bs[1..])
  }

  /** Counting five flags one by one. */
  lemma CountFive(a: bool, b: bool, c: bool, d: bool, e: bool)
    ensures CountTrue([a, b, c, d, e]) ==
      (if a then 1 else 0) + (if b then 1 else 0) + (if c then 1 else 0) + (if d then 1 else 0) + (if e then 1 else 0)
  {
    assert [a, b, c, d, e][1..] == [b, c, d, e];
    assert [b, c, d, e][1..] == [c, d, e];
    assert [c, d, e][1..] == [d, e];
    assert [d, e][1..] == [e];
    assert [e][1..] == [];
    assert CountTrue([e]) == (if e then 1 else 0) + CountTrue([]);
    assert CountTrue([d, e]) == (if d then 1 else 0) + CountTrue([e]);
    assert CountTrue([c, d, e]) == (if c then 1 else 0) + CountTrue([d, e]);
    assert CountTrue([b, c, d, e]) == (if b then 1 else 0) + CountTrue([c, d, e]);
  }

  /** The meter's label and colour go together as Weak/red, Fair/yellow, Good/blue, Strong/green,
      with Weak for a score up to 2, Fair for 3, Good for 4 and Strong for 5. */
  predicate Labelled(st: Strength) {
    && (st.level == Weak <==> st.score <= 2)
    && (st.level == Fair <==> st.score == 3)
    && (st.level == Good <==> st.score == 4)
    && (st.level == Strong <==> st.score == 5)
    && (st.level == Weak <==> st.color == Red)
    && (st.level == Fair <==> st.color == Yellow)
    && (st.level == Good <==> st.color == Blue)
    && (st.level == Strong <==> st.color == Green)
  }

  /** The `passwordStrength` block: the score is the number of criteria the password meets (so an
      empty password, for which the block is skipped, scores 0 as well), at most 5, and the label
      and colour follow the score. */
  method PasswordStrength(password: string) returns (strength: Strength)
    ensures strength.score == CountTrue(Criteria(password))
    ensures strength.score <= 5
    ensures Labelled(strength)
  {
    ghost var cs := Criteria(password);
    CountFive(cs[0], cs[1], cs[2], cs[3], cs[4]);
    assert cs == [cs[0], cs[1], cs[2], cs[3], cs[4]];
    strength := Strength(0, Weak, Red);
    if password != "" {
      var score := 0;
      if |password| >= 8 { score := score + 1; }
      if Contains(password, Lower) { score := score + 1; }
      if Contains(password, Upper) { score := score + 1; }
      if Contains(password, Digit) { score := score + 1; }
      if Contains(password, NonAlphanumeric) { score := score + 1; }

      if score <= 2 {
        strength := strength.(score := score, level := Weak, color := Red);
      } else if score <= 3 {
        strength := strength.(score := score, level := Fair, color := Yellow);
      } else if score <= 4 {
        strength := strength.(score := score, level := Good, color := Blue);
      } else {
        strength := strength.(score := score, level := Strong, color := Green);
      }
    }
  }

  /** A password that passes the form's rules meets at least three criteria, so the meter shows
      Fair or better. */
  lemma ValidPasswordAtLeastFair(form: Form)
    requires FieldError(form, Password).None?
    ensures CountTrue(Criteria(form.password)) >= 3
  {
    PasswordErrorUnfolded(form);
    var p := form.password;
    LookaheadVersusContains(p, Lower);
    LookaheadVersusContains(p, Upper);
    LookaheadVersusContains(p, Digit);
    var cs := Criteria(p);
    CountFive(cs[0], cs[1], cs[2], cs[3], cs[4]);
  }

  /** The score is 5 exactly when all five criteria hold. */
  lemma StrongIffAllCriteria(p: string)
    ensures CountTrue(Criteria(p)) == 5 <==>
      |p| >= 8 && Contains(p, Lower) && Contains(p, Upper) && Contains(p, Digit) && Contains(p, NonAlphanumeric)
  {
    var cs := Criteria(p);
    CountFive(cs[0], cs[1], cs[2], cs[3], cs[4]);
  }
}
