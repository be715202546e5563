/** The registration page (src/pages/Register.tsx): its form record, `validateForm`,
    `handleChange`, and the guard in front of the register call. */
module RegisterPage {
  import opened Optional
  import opened Text
  import opened Patterns
  import opened Messages
  import opened FormErrors
  import opened FieldRules

  datatype Field = UserId | Password | Name | Gender | Phone | Email

  /** The page's `formData`. The e-mail starts as '' and is always a string here. */
  datatype RegisterForm = RegisterForm(
    userId: string, password: string, name: string,
    gender: string, phone: string, email: string)

  /** The form together with its `validationErrors`. */
  datatype PageState = PageState(form: RegisterForm, errors: map<Field, string>)

  /** User id: required, then 4 to 50 characters, then only `[a-zA-Z0-9_]`. The length
      test reads the untrimmed text. */
  function UserIdRule(userId: string): (r: Option<string>)
    ensures r.None? <==> 4 <= |userId| <= 50 && IsWord(userId)
    ensures r == Some(UserIdRequired) <==> AllSpace(userId)
    ensures r == Some(UserIdLength) <==> !AllSpace(userId) && (|userId| < 4 || |userId| > 50)
    ensures r == Some(UserIdCharset) <==> !AllSpace(userId) && 4 <= |userId| <= 50 && !IsWord(userId)
  {
    WordNotBlank(userId);
    if AllSpace(userId) then Some(UserIdRequired)
    else if |userId| < 4 || |userId| > 50 then Some(UserIdLength)
    else if !IsWord(userId) then Some(UserIdCharset)
    else None
  }

  /** Password: required, then 6 to 100 characters. */
  function PasswordRule(password: string): (r: Option<string>)
    ensures r.None? <==> !AllSpace(password) && 6 <= |password| <= 100
    ensures r == Some(PasswordRequired) <==> AllSpace(password)
    ensures r == Some(PasswordLength) <==> !AllSpace(password) && (|password| < 6 || |password| > 100)
  {
    if AllSpace(password) then Some(PasswordRequired)
    else if |password| < 6 || |password| > 100 then Some(PasswordLength)
    else None
  }

  /** E-mail: optional; a non-blank address is checked for shape first, then for at most
      100 characters. */
  function EmailRule(email: string): (r: Option<string>)
    ensures r.None? <==> AllSpace(email) || (EmailShape(email) && |email| <= 100)
    ensures r == Some(EmailFormat) <==> !AllSpace(email) && !EmailShape(email)
    ensures r == Some(EmailTooLong) <==> EmailShape(email) && |email| > 100
  {
    EmailMatchIffShape(email);
    EmailNotBlank(email);
    if !AllSpace(email) then
      if !MatchesEmail(email) then Some(EmailFormat)
      else if |email| > 100 then Some(EmailTooLong)
      else None
    else None
  }

  /** The check `validateForm` runs for one field. */
  function Check(f: RegisterForm, k: Field): Option<string> {
    match k
    case UserId => UserIdRule(f.userId)
    case Name => NameRule(f.name)
    case Password => PasswordRule(f.password)
    case Gender => GenderRule(f.gender)
    case Phone => PhoneRule(f.phone)
    case Email => EmailRule(f.email)
  }

  /** The order in which `validateForm` checks the fields. */
  const Order: seq<Field> := [UserId, Name, Password, Gender, Phone, Email]

  lemma EveryFieldChecked()
    ensures forall k :: k in Order
  {
    forall k ensures k in Order {
      match k
      case UserId => assert Order[0] == k;
      case Name => assert Order[1] == k;
      case Password => assert Order[2] == k;
      case Gender => assert Order[3] == k;
      case Phone => assert Order[4] == k;
      case Email => assert Order[5] == k;
    }
  }

  /** The error record `validateForm` builds: exactly the fields whose check failed, each
      with that check's one message. */
  function Validate(f: RegisterForm): (errors: map<Field, string>)
    ensures forall k :: k in errors <==> Check(f, k).Some?
    ensures forall k :: k in errors ==> Check(f, k) == Some(errors[k])
  {
    EveryFieldChecked();
    Collect(Order, k => Check(f, k))
  }

  /** Everything the registration form accepts, stated field by field. */
  ghost predicate Acceptable(f: RegisterForm) {
    && 4 <= |f.userId| <= 50 && IsWord(f.userId)
    && !AllSpace(f.name) && |f.name| <= 50
    && !AllSpace(f.password) && 6 <= |f.password| <= 100
    && f.gender != ""
    && PhoneShape(f.phone)
    && (AllSpace(f.email) || (EmailShape(f.email) && |f.email| <= 100))
  }

  lemma ChecksPassIffAcceptable(f: RegisterForm)
    ensures (forall k :: Check(f, k).None?) <==> Acceptable(f)
  {
    var each := Check(f, UserId).None? && Check(f, Name).None? && Check(f, Password).None?
      && Check(f, Gender).None? && Check(f, Phone).None? && Check(f, Email).None?;
    if each {
      forall k ensures Check(f, k).None? {
        if k.UserId? {} else if k.Name? {} else if k.Password? {}
        else if k.Gender? {} else if k.Phone? {} else {}
      }
    }
    assert Check(f, UserId).None? <==> 4 <= |f.userId| <= 50 && IsWord(f.userId);
    assert Check(f, Name).None? <==> !AllSpace(f.name) && |f.name| <= 50;
    assert Check(f, Password).None? <==> !AllSpace(f.password) && 6 <= |f.password| <= 100;
    assert Check(f, Gender).None? <==> f.gender != "";
    assert Check(f, Phone).None? <==> PhoneShape(f.phone);
    assert Check(f, Email).None? <==> AllSpace(f.email) || (EmailShape(f.email) && |f.email| <= 100);
  }

  /** `validateForm()`'s result: the error record has no keys. */
  function IsValid(f: RegisterForm): (ok: bool)
    ensures ok <==> Acceptable(f)
  {
    var errors := Validate(f);
    NoErrorsIffNoKey(errors);
    ChecksPassIffAcceptable(f);
    NoErrors(errors)
  }

  function Get(f: RegisterForm, k: Field): string {
    match k
    case UserId => f.userId
    case Password => f.password
    case Name => f.name
    case Gender => f.gender
    case Phone => f.phone
    case Email => f.email
  }

  /** `{...formData, [name]: value}` */
  function Set(f: RegisterForm, k: Field, v: string): (r: RegisterForm)
    ensures Get(r, k) == v
    ensures forall j :: j != k ==> Get(r, j) == Get(f, j)
  {
    match k
    case UserId => f.(userId := v)
    case Password => f.(password := v)
    case Name => f.(name := v)
    case Gender => f.(gender := v)
    case Phone => f.(phone := v)
    case Email => f.(email := v)
  }

  /** `handleChange`: the edited field takes the new value and loses its shown error;
      every other field and every other error is left as it was. */
  function HandleChange(s: PageState, k: Field, v: string): (r: PageState)
    ensures Get(r.form, k) == v
    ensures forall j :: j != k ==> Get(r.form, j) == Get(s.form, j)
    ensures !Shown(r.errors, k)
    ensures forall j :: j != k ==> (j in r.errors <==> j in s.errors)
    ensures forall j :: j != k && j in r.errors ==> r.errors[j] == s.errors[j]
  {
    PageState(Set(s.form, k, v), ClearOnEdit(s.errors, k))
  }

  /** The error record `validateForm` installs, and the form passed to
      `authService.register`, if any. */
  datatype Submission = Submission(errors: map<Field, string>, request: Option<RegisterForm>)

  /** `handleSubmit` up to the call: `validateForm` installs its error record, and the
      form goes to `authService.register` only when it is valid, and then unchanged. */
  function Submit(f: RegisterForm): (r: Submission)
    ensures r.errors == Validate(f)
    ensures r.request.Some? <==> Acceptable(f)
    ensures r.request.Some? ==> r.request.value == f && r.errors == map[]
  {
    var errors := Validate(f);
    if !IsValid(f) then Submission(errors, None)
    else
      NoErrorsIffNoKey(errors);
      assert errors == map[];
      Submission(map[], Some(f))
  }
}
