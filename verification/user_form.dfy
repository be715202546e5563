/** The admin create/edit user page (src/pages/UserForm.tsx): the mode taken from the
    route, its form record, the mode-dependent `validateForm`, `handleChange`, and the
    request `handleSubmit` sends. */
module UserFormPage {
  import opened Optional
  import opened Text
  import opened Patterns
  import opened Messages
  import opened FormErrors

  datatype Field = Email | Password | Name

  /** The page's `formData` (a `UserRequestDto`). */
  datatype UserRequest = UserRequest(email: string, password: string, name: string)

  /** The form together with its `validationErrors`. */
  datatype PageState = PageState(form: UserRequest, errors: map<Field, string>)

  /** `Boolean(id)` for the route parameter: a present, non-empty id means edit mode. */
  predicate EditMode(id: Option<string>) {
    id.Some? && id.value != ""
  }

  /** E-mail: required, then the e-mail shape. */
  function EmailRule(email: string): (r: Option<string>)
    ensures r.None? <==> EmailShape(email)
    ensures r == Some(EmailRequired) <==> AllSpace(email)
    ensures r == Some(EmailFormat) <==> !AllSpace(email) && !EmailShape(email)
  {
    EmailMatchIffShape(email);
    EmailNotBlank(email);
    if AllSpace(email) then Some(EmailRequired)
    else if !MatchesEmail(email) then Some(EmailFormat)
    else None
  }

  /** Password: checked only when creating; then required and at least 6 characters,
      with no upper bound. */
  function PasswordRule(password: string, edit: bool): (r: Option<string>)
    ensures edit ==> r.None?
    ensures !edit ==> (r.None? <==> !AllSpace(password) && |password| >= 6)
    ensures r == Some(PasswordRequired) <==> !edit && AllSpace(password)
    ensures r == Some(PasswordTooShort) <==> !edit && !AllSpace(password) && |password| < 6
  {
    if edit then None
    else if AllSpace(password) then Some(PasswordRequired)
    else if |password| < 6 then Some(PasswordTooShort)
    else None
  }

  /** Name: required, with no length bound on this page. */
  function NameRule(name: string): (r: Option<string>)
    ensures r.None? <==> !AllSpace(name)
    ensures r.Some? ==> r == Some(NameRequired)
  {
    if AllSpace(name) then Some(NameRequired) else None
  }

  function Check(f: UserRequest, edit: bool, k: Field): Option<string> {
    match k
    case Email => EmailRule(f.email)
    case Password => PasswordRule(f.password, edit)
    case Name => NameRule(f.name)
  }

  /** The order in which `validateForm` checks the fields. */
  const Order: seq<Field> := [Email, Password, Name]

  lemma EveryFieldChecked()
    ensures forall k :: k in Order
  {
    forall k ensures k in Order {
      match k
      case Email => assert Order[0] == k;
      case Password => assert Order[1] == k;
      case Name => assert Order[2] == k;
    }
  }

  /** The error record `validateForm` builds in the given mode: exactly the fields whose
      check failed, each with that check's one message. */
  function Validate(f: UserRequest, edit: bool): (errors: map<Field, string>)
    ensures forall k :: k in errors <==> Check(f, edit, k).Some?
    ensures forall k :: k in errors ==> Check(f, edit, k) == Some(errors[k])
    ensures edit ==> Password !in errors
  {
    EveryFieldChecked();
    Collect(Order, k => Check(f, edit, k))
  }

  /** Everything the user form accepts in the given mode, stated field by field. */
  ghost predicate Acceptable(f: UserRequest, edit: bool) {
    && EmailShape(f.email)
    && (edit || (!AllSpace(f.password) && |f.password| >= 6))
    && !AllSpace(f.name)
  }

  lemma ChecksPassIffAcceptable(f: UserRequest, edit: bool)
    ensures (forall k :: Check(f, edit, k).None?) <==> Acceptable(f, edit)
  {
    var each := Check(f, edit, Email).None? && Check(f, edit, Password).None?
      && Check(f, edit, Name).None?;
    if each {
      forall k ensures Check(f, edit, k).None? {
        if k.Email? {} else if k.Password? {} else {}
      }
    }
    assert each <==> Acceptable(f, edit);
  }

  /** `validateForm()`'s result: the error record has no keys. */
  function IsValid(f: UserRequest, edit: bool): (ok: bool)
    ensures ok <==> Acceptable(f, edit)
  {
    var errors := Validate(f, edit);
    NoErrorsIffNoKey(errors);
    ChecksPassIffAcceptable(f, edit);
    NoErrors(errors)
  }

  /** In edit mode the password field is not looked at: changing it changes nothing
      about the errors. */
  lemma EditModeIgnoresPassword(f: UserRequest, password: string)
    ensures Validate(f.(password := password), true) == Validate(f, true)
  {
    var g := f.(password := password);
    forall k ensures Check(g, true, k) == Check(f, true, k) {
      if k.Email? {} else if k.Password? {} else {}
    }
    assert Validate(g, true).Keys == Validate(f, true).Keys;
  }

  function Get(f: UserRequest, k: Field): string {
    match k
    case Email => f.email
    case Password => f.password
    case Name => f.name
  }

  /** `{...formData, [name]: value}` */
  function Set(f: UserRequest, k: Field, v: string): (r: UserRequest)
    ensures Get(r, k) == v
    ensures forall j :: j != k ==> Get(r, j) == Get(f, j)
  {
    match k
    case Email => f.(email := v)
    case Password => f.(password := v)
    case Name => f.(name := v)
  }

  /** `handleChange`: the edited field takes the new value and loses its shown error;
      every other field and every other error is left as it was. */
  function HandleChange(s: PageState, k: Field, v: string): (r: PageState)
    ensures Get(r.form, k) == v
    ensures forall j :: j != k ==> Get(r.form, j) == Get(s.form, j)
    ensures !Shown(r.errors, k)
    ensures forall j :: j != k ==> (j in r.errors <==> j in s.errors)
    ensures forall j :: j != k && j in r.errors ==> r.errors[j] == s.errors[j]
  {
    PageState(Set(s.form, k, v), ClearOnEdit(s.errors, k))
  }

  /** The two calls the page can make: `createUser(formData)` with the whole record, or
      `updateUser(Number(id), { name })` with the name alone. */
  datatype UserCall = CreateUser(body: UserRequest) | UpdateUser(id: string, name: string)

  /** The error record left by `validateForm`, and the call made, if any. */
  datatype Submission = Submission(errors: map<Field, string>, call: Option<UserCall>)

  /** `handleSubmit` up to the call. */
  function Submit(id: Option<string>, f: UserRequest): (r: Submission)
    ensures r.errors == Validate(f, EditMode(id))
    ensures r.call.Some? <==> Acceptable(f, EditMode(id))
    ensures r.call.Some? && EditMode(id) ==> r.call.value == UpdateUser(id.value, f.name)
    ensures r.call.Some? && !EditMode(id) ==> r.call.value == CreateUser(f)
  {
    var edit := EditMode(id);
    var errors := Validate(f, edit);
    if !IsValid(f, edit) then Submission(errors, None)
    else if edit then Submission(errors, Some(UpdateUser(id.value, f.name)))
    else Submission(errors, Some(CreateUser(f)))
  }
}
