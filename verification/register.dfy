/** The registration page: the password rules, the e-mail shape, the error
    map built on submit, the live error updates while typing, the call to
    `register` and how its outcome is reported. The e-mail regular
    expression is written out as a predicate; `\s` and `trim` use ASCII
    whitespace. */
module Register {
  import opened Wrappers
  import opened Strings
  import Api
  import Notifications

  datatype Field = Email | Password | ConfirmPassword | FirstName | LastName | Phone | Address

  datatype RegisterForm = RegisterForm(
    email: string,
    password: string,
    confirmPassword: string,
    firstName: string,
    lastName: string,
    phone: string,
    address: string)

  const EmptyForm := RegisterForm("", "", "", "", "", "", "")

  function Get(form: RegisterForm, field: Field): string {
    match field
    case Email => form.email
    case Password => form.password
    case ConfirmPassword => form.confirmPassword
    case FirstName => form.firstName
    case LastName => form.lastName
    case Phone => form.phone
    case Address => form.address
  }

  /** `{...formData, [name]: value}`. */
  function Set(form: RegisterForm, field: Field, value: string): (r: RegisterForm)
    ensures Get(r, field) == value
    ensures forall g | g != field :: Get(r, g) == Get(form, g)
  {
    match field
    case Email => form.(email := value)
    case Password => form.(password := value)
    case ConfirmPassword => form.(confirmPassword := value)
    case FirstName => form.(firstName := value)
    case LastName => form.(lastName := value)
    case Phone => form.(phone := value)
    case Address => form.(address := value)
  }

  /** Field name to the message shown under it. */
  type Errors = map<Field, string>

  // ---- Password rules ----

  datatype Rule = TooShort | NoLowercase | NoUppercase | NoDigit | NoSpecial

  /** The order the rules are checked and reported in. */
  function Rank(rule: Rule): nat {
    match rule
    case TooShort => 0
    case NoLowercase => 1
    case NoUppercase => 2
    case NoDigit => 3
    case NoSpecial => 4
  }

  function RuleMessage(rule: Rule): string {
    match rule
    case TooShort => "Password must be at least 8 characters long"
    case NoLowercase => "Password must contain at least one lowercase letter"
    case NoUppercase => "Password must contain at least one uppercase letter"
    case NoDigit => "Password must contain at least one number"
    case NoSpecial => "Password must contain at least one special character"
  }

  /** The class `[!@#$%^&*(),.?":{}|<>]`. */
  predicate IsSpecial(c: char) {
    c in "!@#$%^&*(),.?\":{}|<>"
  }

  predicate HasLower(p: string) {
    exists i | 0 <= i < |p| :: IsLower(p[i])
  }

  predicate HasUpper(p: string) {
    exists i | 0 <= i < |p| :: IsUpper(p[i])
  }

  predicate HasDigit(p: string) {
    exists i | 0 <= i < |p| :: IsDigit(p[i])
  }

  predicate HasSpecial(p: string) {
    exists i | 0 <= i < |p| :: IsSpecial(p[i])
  }

  /** Whether the password breaks the rule. */
  predicate Breaks(p: string, rule: Rule) {
    match rule
    case TooShort => CodeUnits(p) < 8
    case NoLowercase => !HasLower(p)
    case NoUppercase => !HasUpper(p)
    case NoDigit => !HasDigit(p)
    case NoSpecial => !HasSpecial(p)
  }

  /** The rules in the order `validatePassword` checks them. */
  const AllRules: seq<Rule> := [TooShort, NoLowercase, NoUppercase, NoDigit, NoSpecial]

  /** Every rule is checked. */
  lemma EveryRuleListed()
    ensures forall rule: Rule :: rule in AllRules
  {
    forall rule: Rule ensures rule in AllRules {
      match rule
      case TooShort => assert AllRules[0] == rule;
      case NoLowercase => assert AllRules[1] == rule;
      case NoUppercase => assert AllRules[2] == rule;
      case NoDigit => assert AllRules[3] == rule;
      case NoSpecial => assert AllRules[4] == rule;
    }
  }

  /** Rules listed in strictly increasing rank. */
  predicate Ranked(rules: seq<Rule>) {
    forall i, j | 0 <= i < j < |rules| :: Rank(rules[i]) < Rank(rules[j])
  }

  /** The rules of `rules` the password breaks, in the order given. */
  function Broken(p: string, rules: seq<Rule>): (r: seq<Rule>)
    ensures forall rule :: rule in r <==> rule in rules && Breaks(p, rule)
    ensures Ranked(rules) ==> Ranked(r)
  {
    if rules == [] then []
    else
      var rest := Broken(p, rules[1..]);
      RankedTail(rules);
      if !Breaks(p, rules[0]) then rest
      else if Ranked(rules) then
        RankedCons(rules[0], rest);
        [rules[0]] + rest
      else [rules[0]] + rest
  }

  /** The tail of a ranked list is ranked and ranked above its head. */
  lemma RankedTail(rules: seq<Rule>)
    requires rules != []
    ensures Ranked(rules) ==> Ranked(rules[1..]) && forall x | x in rules[1..] :: Rank(rules[0]) < Rank(x)
  {
    if Ranked(rules) {
      forall x | x in rules[1..] ensures Rank(rules[0]) < Rank(x) {
        var k :| 0 <= k < |rules[1..]| && rules[1..][k] == x;
        assert rules[k + 1] == x;
      }
    }
  }

  /** A rule ranked below everything of a ranked list may go in front. */
  lemma RankedCons(h: Rule, rest: seq<Rule>)
    requires Ranked(rest) && forall x | x in rest :: Rank(h) < Rank(x)
    ensures Ranked([h] + rest)
  {
    var r := [h] + rest;
    forall i, j | 0 <= i < j < |r| ensures Rank(r[i]) < Rank(r[j]) {
      assert r[j] == rest[j - 1];
      if i > 0 {
        assert r[i] == rest[i - 1];
      }
    }
  }

  /** `validatePassword`: every broken rule, each once, in rule order. */
  function PasswordFailures(p: string): (r: seq<Rule>)
    ensures forall rule :: rule in r <==> Breaks(p, rule)
    ensures Ranked(r)
  {
    EveryRuleListed();
    assert Ranked(AllRules);
    Broken(p, AllRules)
  }

  /** A password passes every rule. */
  predicate Strong(p: string) {
    CodeUnits(p) >= 8 && HasLower(p) && HasUpper(p) && HasDigit(p) && HasSpecial(p)
  }

  /** No failures is the same as a strong password. */
  lemma NoFailuresIffStrong(p: string)
    ensures PasswordFailures(p) == [] <==> Strong(p)
  {
    if PasswordFailures(p) == [] {
      assert !Breaks(p, TooShort) && !Breaks(p, NoLowercase) && !Breaks(p, NoUppercase);
      assert !Breaks(p, NoDigit) && !Breaks(p, NoSpecial);
    } else {
      assert Breaks(p, PasswordFailures(p)[0]);
    }
  }

  /** The length rule counts UTF-16 code units: two characters outside
      the Basic Multilingual Plane make a six-character password long
      enough, and it passes every rule. */
  lemma AstralPasswordAccepted()
    ensures |"Aa1!\U{1F600}\U{1F600}"| == 6
    ensures PasswordFailures("Aa1!\U{1F600}\U{1F600}") == []
  {
    var p := "Aa1!\U{1F600}\U{1F600}";
    assert IsUpper(p[0]) && IsLower(p[1]) && IsDigit(p[2]) && IsSpecial(p[3]);
    assert p[5..][1..] == [];
    assert CodeUnits(p[5..]) == 2;
    assert CodeUnits(p[4..]) == 4 by { assert p[4..][1..] == p[5..]; }
    assert CodeUnits(p[3..]) == 5 by { assert p[3..][1..] == p[4..]; }
    assert CodeUnits(p[2..]) == 6 by { assert p[2..][1..] == p[3..]; }
    assert CodeUnits(p[1..]) == 7 by { assert p[1..][1..] == p[2..]; }
    NoFailuresIffStrong(p);
  }

  /** The first failure reported is the earliest rule broken. */
  lemma FirstFailureIsEarliest(p: string, rule: Rule)
    requires Breaks(p, rule)
    ensures PasswordFailures(p) != []
    ensures Rank(PasswordFailures(p)[0]) <= Rank(rule)
  {
  }

  // ---- E-mail shape ----

  predicate EmailChar(c: char) {
    !IsWhitespace(c) && c != '@'
  }

  predicate AllEmailChars(s: string) {
    forall k | 0 <= k < |s| :: EmailChar(s[k])
  }

  /** `/^[^\s@]+@[^\s@]+\.[^\s@]+$/`: a non-empty local part, one '@', and a
      domain with a '.' that has something on both sides; no whitespace and
      no other '@' anywhere. */
  predicate ValidEmail(s: string) {
    exists i, j | 0 < i && i + 2 <= j <= |s| - 2 :: SplitsAt(s, i, j)
  }

  /** `s` is the local part before index `i`, the '@' at `i`, and a domain
      whose '.' at `j` has something on both sides. */
  predicate SplitsAt(s: string, i: int, j: int)
    requires 0 < i && i + 2 <= j <= |s| - 2
  {
    s[i] == '@' && s[j] == '.' && AllEmailChars(s[..i]) && AllEmailChars(s[i + 1..])
  }

  /** A valid address has no whitespace, so it never trims to nothing. */
  lemma ValidEmailNotBlank(s: string)
    ensures ValidEmail(s) ==> !AllWhitespace(s) && Trim(s) != ""
  {
  }

  // ---- Submit ----

  const FirstNameRequired := "First name is required"
  const LastNameRequired := "Last name is required"
  const EmailRequired := "Email is required"
  const EmailInvalid := "Please enter a valid email address"
  const PasswordsDiffer := "Passwords do not match"

  /** A required name field fails when it trims to nothing. */
  function NameError(value: string, message: string): (r: Option<string>)
    ensures r.Some? <==> AllWhitespace(value)
    ensures r.Some? ==> r.value == message
  {
    TrimEmptyIffBlank(value);
    if Trim(value) == "" then Some(message) else None
  }

  /** The e-mail check: required first, then the shape. */
  function EmailError(email: string): (r: Option<string>)
    ensures r.Some? <==> !ValidEmail(email)
    ensures r.Some? ==> r.value == if AllWhitespace(email) then EmailRequired else EmailInvalid
  {
    TrimEmptyIffBlank(email);
    ValidEmailNotBlank(email);
    if Trim(email) == "" then Some(EmailRequired)
    else if !ValidEmail(email) then Some(EmailInvalid)
    else None
  }

  /** The password check reports the first rule broken. */
  function PasswordError(p: string): (r: Option<string>)
    ensures r.Some? <==> !Strong(p)
    ensures r.Some? ==> PasswordFailures(p) != [] && r.value == RuleMessage(PasswordFailures(p)[0])
  {
    NoFailuresIffStrong(p);
    var failures := PasswordFailures(p);
    if |failures| > 0 then Some(RuleMessage(failures[0])) else None
  }

  /** The error `handleSubmit` raises for one field, if any. */
  function FieldError(form: RegisterForm, field: Field): Option<string> {
    match field
    case FirstName => NameError(form.firstName, FirstNameRequired)
    case LastName => NameError(form.lastName, LastNameRequired)
    case Email => EmailError(form.email)
    case Password => PasswordError(form.password)
    case ConfirmPassword => if form.password != form.confirmPassword then Some(PasswordsDiffer) else None
    case Phone => None
    case Address => None
  }

  const AllFields: set<Field> := {Email, Password, ConfirmPassword, FirstName, LastName, Phone, Address}

  /** The error map `handleSubmit` builds, one entry per failing field. */
  function SubmitErrors(form: RegisterForm): (r: Errors)
    ensures forall g :: g in r <==> FieldError(form, g).Some?
    ensures forall g | g in r :: r[g] == FieldError(form, g).value
  {
    EveryFieldListed();
    map g | g in AllFields && FieldError(form, g).Some? :: FieldError(form, g).value
  }

  /** Every field of the form is checked. */
  lemma EveryFieldListed()
    ensures forall g: Field :: g in AllFields
  {
    forall g: Field ensures g in AllFields {
      match g
      case Email =>
      case Password =>
      case ConfirmPassword =>
      case FirstName =>
      case LastName =>
      case Phone =>
      case Address =>
    }
  }

  /** What the submit check says about each field. */
  lemma SubmitErrorsByField(form: RegisterForm)
    ensures var r := SubmitErrors(form);
      && (FirstName in r <==> AllWhitespace(form.firstName))
      && (LastName in r <==> AllWhitespace(form.lastName))
      && (Email in r <==> !ValidEmail(form.email))
      && (Email in r ==> r[Email] == if AllWhitespace(form.email) then EmailRequired else EmailInvalid)
      && (Password in r <==> !Strong(form.password))
      && (Password in r ==> r[Password] == RuleMessage(PasswordFailures(form.password)[0]))
      && (ConfirmPassword in r <==> form.password != form.confirmPassword)
      && (Phone !in r && Address !in r)
      && (FirstName in r ==> r[FirstName] == FirstNameRequired)
      && (LastName in r ==> r[LastName] == LastNameRequired)
      && (ConfirmPassword in r ==> r[ConfirmPassword] == PasswordsDiffer)
  {
  }

  /** The form the page accepts: named, a valid address, a strong password, confirmed. */
  predicate Acceptable(form: RegisterForm) {
    && !AllWhitespace(form.firstName)
    && !AllWhitespace(form.lastName)
    && ValidEmail(form.email)
    && Strong(form.password)
    && form.password == form.confirmPassword
  }

  /** The submit check raises no error exactly for an acceptable form. */
  lemma SubmitErrorsEmptyIff(form: RegisterForm)
    ensures SubmitErrors(form) == map[] <==> Acceptable(form)
  {
    var r := SubmitErrors(form);
    SubmitErrorsByField(form);
    if Acceptable(form) {
      forall g ensures g !in r {
        match g
        case FirstName =>
        case LastName =>
        case Email =>
        case Password =>
        case ConfirmPassword =>
        case Phone =>
        case Address =>
      }
      assert r.Keys == {};
    } else {
      assert FirstName in r || LastName in r || Email in r || Password in r || ConfirmPassword in r;
    }
  }

  /** The arguments passed to `register`. */
  datatype RegisterArgs = RegisterArgs(
    email: string,
    password: string,
    firstName: string,
    lastName: string,
    phone: Option<string>,
    address: Option<string>)

  /** What submitting leaves on screen: the field errors and the page error
      while the outcome is pending, and whether `register` was called. */
  datatype Submission =
    | ShowErrors(errors: Errors, pageError: string)
    | CallRegister(args: RegisterArgs, errors: Errors, pageError: string)

  /** `handleSubmit` with `shown` the field errors on screen: the page error
      is cleared first; then either the new error map replaces `shown` and
      nothing is sent, or `register` is called with the form, empty phone and
      address omitted, and `shown` stays as it was. */
  function Submit(form: RegisterForm, shown: Errors): (r: Submission)
    ensures r.pageError == ""
    ensures r.CallRegister? <==> Acceptable(form)
    ensures r.ShowErrors? ==> r.errors == SubmitErrors(form) && r.errors != map[]
    ensures r.CallRegister? ==> r.errors == shown
    ensures r.CallRegister? ==>
      && r.args.email == form.email && r.args.password == form.password
      && r.args.firstName == form.firstName && r.args.lastName == form.lastName
      && (r.args.phone.None? <==> form.phone == "") && (r.args.phone.Some? ==> r.args.phone.value == form.phone)
      && (r.args.address.None? <==> form.address == "") && (r.args.address.Some? ==> r.args.address.value == form.address)
  {
    SubmitErrorsEmptyIff(form);
    var errors := SubmitErrors(form);
    if |errors| > 0 then ShowErrors(errors, "")
    else
      assert errors == map[];
      CallRegister(RegisterArgs(form.email, form.password, form.firstName, form.lastName, NonEmpty(form.phone), NonEmpty(form.address)), shown, "")
  }

  /** What `register` may reject with, as the page's catch block sorts it. */
  datatype Rejection = ErrorRejection(message: string) | ResponseRejection(bodyMessage: Option<string>) | OtherRejection

  const RegistrationFailed := "Registration failed. Please try again."
  const RegistrationCheckInfo := "Registration failed. Please check your information and try again."
  const UnexpectedError := "An unexpected error occurred. Please try again."
  const AccountCreated := "Account created successfully! Please login to continue."

  /** The page-level message for a rejected registration. */
  function RejectionMessage(e: Rejection): (r: string)
    ensures r != ""
    ensures e.ErrorRejection? && e.message != "" ==> r == e.message
    ensures e.ErrorRejection? && e.message == "" ==> r == RegistrationFailed
    ensures e.ResponseRejection? ==> r == OrElse(e.bodyMessage, RegistrationCheckInfo)
    ensures e.OtherRejection? ==> r == UnexpectedError
  {
    match e
    case ErrorRejection(m) => if m != "" then m else RegistrationFailed
    case ResponseRejection(m) => OrElse(m, RegistrationCheckInfo)
    case OtherRejection => UnexpectedError
  }

  /** A failure from the HTTP service reaches the page as an `Error`, so
      its message is the service's precedence message and the page's own
      fallbacks never show. */
  lemma ServiceMessageReachesPage(store: Api.Storage, failure: Api.HttpFailure)
    ensures RejectionMessage(ErrorRejection(Api.OnResponseError(store, failure).error.message)) == Api.ErrorMessage(failure)
  {
  }

  /** After `register` settles: success notifies and moves to the login
      page with the page error cleared; a rejection sets the page error. */
  datatype Settled = Settled(pageError: string, notices: seq<(string, Notifications.Kind)>, navigateLater: Option<string>)

  function SettleRegistration(outcome: Option<Rejection>): (r: Settled)
    ensures outcome.None? ==> r == Settled("", [(AccountCreated, Notifications.SuccessKind)], Some("/login"))
    ensures outcome.Some? ==> r.pageError != "" && r.notices == [] && r.navigateLater.None?
  {
    match outcome
    case None => Settled("", [(AccountCreated, Notifications.SuccessKind)], Some("/login"))
    case Some(e) => Settled(RejectionMessage(e), [], None)
  }

  /** A server error from an earlier attempt disappears as soon as the form
      is submitted again, whether or not the new attempt reaches `register`. */
  lemma ResubmitClearsServerError(e: Rejection, form: RegisterForm, shown: Errors)
    ensures SettleRegistration(Some(e)).pageError != ""
    ensures Submit(form, shown).pageError == ""
  {
  }

  // ---- Live validation while typing ----

  /** An error map never holds an empty message. */
  predicate WellFormed(errors: Errors) {
    forall g | g in errors :: errors[g] != ""
  }

  function Drop(errors: Errors, field: Field): (r: Errors)
    ensures field !in r
    ensures forall g | g != field :: (g in r <==> g in errors) && (g in r ==> r[g] == errors[g])
  {
    errors - {field}
  }

  /** The verdict `handleChange` reaches for a non-empty value typed into
      a re-validated field: a message to show, or `None` to clear. The
      confirmation is compared with the password as it stood before the
      keystroke. */
  function LiveVerdict(form: RegisterForm, field: Field, value: string): (r: Option<string>)
    ensures r.Some? ==> r.value != ""
    ensures field == Password ==> (r.Some? <==> !Strong(value))
    ensures field == Password && r.Some? ==> PasswordFailures(value) != [] && r.value == RuleMessage(PasswordFailures(value)[0])
    ensures field == ConfirmPassword ==> (r.Some? <==> value != form.password) && (r.Some? ==> r.value == PasswordsDiffer)
    ensures field == Email ==> (r.Some? <==> !ValidEmail(value)) && (r.Some? ==> r.value == EmailInvalid)
    ensures field == FirstName ==> (r.Some? <==> AllWhitespace(value)) && (r.Some? ==> r.value == FirstNameRequired)
    ensures field == LastName ==> (r.Some? <==> AllWhitespace(value)) && (r.Some? ==> r.value == LastNameRequired)
    ensures field == Phone || field == Address ==> r.None?
  {
    match field
    case Password => PasswordError(value)
    case ConfirmPassword => if value != form.password then Some(PasswordsDiffer) else None
    case Email => if !ValidEmail(value) then Some(EmailInvalid) else None
    case FirstName => NameError(value, FirstNameRequired)
    case LastName => NameError(value, LastNameRequired)
    case Phone => None
    case Address => None
  }

  /** The field-specific update `handleChange` applies after clearing the
      field's old error: an empty value, the phone and the address leave
      the map alone; otherwise the verdict is written or the entry dropped. */
  function LiveCheck(form: RegisterForm, errors: Errors, field: Field, value: string): (r: Errors)
    ensures forall g | g != field :: (g in r <==> g in errors) && (g in r ==> r[g] == errors[g])
    ensures WellFormed(errors) ==> WellFormed(r)
    ensures value == "" || field == Phone || field == Address ==> r == errors
    ensures value != "" && field != Phone && field != Address ==>
      (field in r <==> LiveVerdict(form, field, value).Some?) &&
      (field in r ==> r[field] == LiveVerdict(form, field, value).value)
  {
    if value == "" || field == Phone || field == Address then errors
    else
      var verdict := LiveVerdict(form, field, value);
      if verdict.Some? then errors[field := verdict.value] else Drop(errors, field)
  }

  /** `handleChange`: store the value, clear the field's own error, then
      re-validate the password, confirmation, e-mail and name fields. No
      other field's error is touched. */
  function HandleChange(form: RegisterForm, errors: Errors, field: Field, value: string): (r: (RegisterForm, Errors))
    ensures r.0 == Set(form, field, value)
    ensures forall g | g != field :: (g in r.1 <==> g in errors) && (g in r.1 ==> r.1[g] == errors[g])
    ensures WellFormed(errors) ==> WellFormed(r.1)
    ensures WellFormed(errors) && value == "" ==> field !in r.1
  {
    var cleared := if field in errors && errors[field] != "" then Drop(errors, field) else errors;
    (Set(form, field, value), LiveCheck(form, cleared, field, value))
  }

  /** What typing a non-empty value leaves under the edited field. */
  lemma HandleChangeRevalidates(form: RegisterForm, errors: Errors, field: Field, value: string)
    requires value != ""
    ensures var e := HandleChange(form, errors, field, value).1;
      && (field == Password ==>
            (Password in e <==> !Strong(value)) && (Password in e ==> e[Password] == RuleMessage(PasswordFailures(value)[0])))
      && (field == ConfirmPassword ==> (ConfirmPassword in e <==> value != form.password))
      && (field == Email ==> (Email in e <==> !ValidEmail(value)))
      && (field == FirstName || field == LastName ==> (field in e <==> AllWhitespace(value)))
  {
  }

  /** For a field that is not blank, typing leaves under it exactly the
      error the submit check would raise for the resulting form. */
  lemma LiveMatchesSubmit(form: RegisterForm, errors: Errors, field: Field, value: string)
    requires field != Phone && field != Address
    requires !AllWhitespace(value)
    ensures var (form', errors') := HandleChange(form, errors, field, value);
      var submitted := SubmitErrors(form');
      && (field in errors' <==> field in submitted)
      && (field in errors' ==> errors'[field] == submitted[field])
  {
  }
}
