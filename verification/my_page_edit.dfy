/** The profile-edit page (src/pages/MyPageEdit.tsx): its form record, `validateForm`,
    `handleChange`, the guard in front of the update call, and how a failed update is
    reported. */
module MyPageEditPage {
  import opened Optional
  import opened Text
  import opened Patterns
  import opened Messages
  import opened FormErrors
  import opened FieldRules
  import opened ApiError

  datatype Field = Name | Gender | Phone | Email

  /** The page's `formData`. */
  datatype EditForm = EditForm(name: string, gender: string, phone: string, email: string)

  /** The form together with its `validationErrors`. */
  datatype PageState = PageState(form: EditForm, errors: map<Field, string>)

  /** E-mail: optional; a non-blank address is checked for shape only, with no length
      bound. */
  function EmailRule(email: string): (r: Option<string>)
    ensures r.None? <==> AllSpace(email) || EmailShape(email)
    ensures r.Some? ==> r == Some(EmailFormat)
  {
    EmailMatchIffShape(email);
    if !AllSpace(email) && !MatchesEmail(email) then Some(EmailFormat)
    else None
  }

  function Check(f: EditForm, k: Field): Option<string> {
    match k
    case Name => NameRule(f.name)
    case Gender => GenderRule(f.gender)
    case Phone => PhoneRule(f.phone)
    case Email => EmailRule(f.email)
  }

  /** The order in which `validateForm` checks the fields. */
  const Order: seq<Field> := [Name, Gender, Phone, Email]

  lemma EveryFieldChecked()
    ensures forall k :: k in Order
  {
    forall k ensures k in Order {
      match k
      case Name => assert Order[0] == k;
      case Gender => assert Order[1] == k;
      case Phone => assert Order[2] == k;
      case Email => assert Order[3] == k;
    }
  }

  /** The error record `validateForm` builds: exactly the fields whose check failed, each
      with that check's one message. */
  function Validate(f: EditForm): (errors: map<Field, string>)
    ensures forall k :: k in errors <==> Check(f, k).Some?
    ensures forall k :: k in errors ==> Check(f, k) == Some(errors[k])
  {
    EveryFieldChecked();
    Collect(Order, k => Check(f, k))
  }

  /** Everything the profile-edit form accepts, stated field by field. */
  ghost predicate Acceptable(f: EditForm) {
    && !AllSpace(f.name) && |f.name| <= 50
    && f.gender != ""
    && PhoneShape(f.phone)
    && (AllSpace(f.email) || EmailShape(f.email))
  }

  lemma ChecksPassIffAcceptable(f: EditForm)
    ensures (forall k :: Check(f, k).None?) <==> Acceptable(f)
  {
    var each := Check(f, Name).None? && Check(f, Gender).None?
      && Check(f, Phone).None? && Check(f, Email).None?;
    if each {
      forall k ensures Check(f, k).None? {
        if k.Name? {} else if k.Gender? {} else if k.Phone? {} else {}
      }
    }
    assert each <==> Acceptable(f);
  }

  /** `validateForm()`'s result: the error record has no keys. */
  function IsValid(f: EditForm): (ok: bool)
    ensures ok <==> Acceptable(f)
  {
    var errors := Validate(f);
    NoErrorsIffNoKey(errors);
    ChecksPassIffAcceptable(f);
    NoErrors(errors)
  }

  function Get(f: EditForm, k: Field): string {
    match k
    case Name => f.name
    case Gender => f.gender
    case Phone => f.phone
    case Email => f.email
  }

  /** `{...formData, [name]: value}` */
  function Set(f: EditForm, k: Field, v: string): (r: EditForm)
    ensures Get(r, k) == v
    ensures forall j :: j != k ==> Get(r, j) == Get(f, j)
  {
    match k
    case Name => f.(name := v)
    case Gender => f.(gender := v)
    case Phone => f.(phone := v)
    case Email => f.(email := v)
  }

  /** `handleChange`: the edited field takes the new value and loses its shown error;
      every other field and every other error is left as it was. */
  function HandleChange(s: PageState, k: Field, v: string): (r: PageState)
    ensures Get(r.form, k) == v
    ensures forall j :: j != k ==> Get(r.form, j) == Get(s.form, j)
    ensures !Shown(r.errors, k)
    ensures forall j :: j != k ==> (j in r.errors <==> j in s.errors)
    ensures forall j :: j != k && j in r.errors ==> r.errors[j] == s.errors[j]
  {
    PageState(Set(s.form, k, v), ClearOnEdit(s.errors, k))
  }

  /** `userService.updateUser(userIndex, formData)` */
  datatype UpdateRequest = UpdateRequest(index: int, body: EditForm)

  /** The error record left by the guard, and the call made, if any. */
  datatype Submission = Submission(errors: map<Field, string>, request: Option<UpdateRequest>)

  /** `handleSubmit` up to the call. `userIndex` is `null` until the profile has loaded;
      the guard is `!userIndex`, so an index of 0 blocks the call as well. */
  function Submit(f: EditForm, userIndex: Option<int>): (r: Submission)
    ensures r.request.Some? <==> Acceptable(f) && userIndex.Some? && userIndex.value != 0
    ensures r.request.Some? ==> r.request.value == UpdateRequest(userIndex.value, f)
    ensures r.errors == Validate(f)
    ensures r.request.Some? ==> r.errors == map[]
  {
    var errors := Validate(f);
    if !IsValid(f) || userIndex.None? || userIndex.value == 0 then Submission(errors, None)
    else
      NoErrorsIffNoKey(errors);
      assert errors == map[];
      Submission(map[], Some(UpdateRequest(userIndex.value, f)))
  }

  /** What the failed update's error object carries: the HTTP status (absent when there
      was no response), `validationErrors` and `friendlyMessage` on the error object, and
      the server's `message` in the response body. */
  datatype UpdateFailure = UpdateFailure(
    status: Option<int>,
    fieldErrors: Option<map<Field, string>>,
    friendlyMessage: Option<string>,
    serverMessage: Option<string>)

  /** What the page shows afterwards: the page error, the field errors (cleared before
      the call), and whether it returns to /mypage after a delay. */
  datatype FailureView = FailureView(message: string, errors: map<Field, string>, backToMyPage: bool)

  /** The statuses the page answers with a message of its own. */
  predicate HasOwnMessage(status: Option<int>) {
    HasStatus(status, 400) || HasStatus(status, 403) || HasStatus(status, 404) || HasStatus(status, 500)
  }

  /** The status classification in `handleSubmit`'s catch block. */
  function OnUpdateFailure(e: UpdateFailure): (r: FailureView)
    ensures r.message != ""
    ensures r.backToMyPage <==> HasStatus(e.status, 403)
    ensures r.errors != map[] ==> HasStatus(e.status, 400) && e.fieldErrors == Some(r.errors)
    ensures HasStatus(e.status, 400) && e.fieldErrors.Some? ==>
              r.message == CheckInput && r.errors == e.fieldErrors.value
    ensures HasStatus(e.status, 400) && e.fieldErrors.None? ==>
              r.message == OrElse(e.friendlyMessage, UpdateFailed)
    ensures HasStatus(e.status, 403) ==> r.message == NoPermission
    ensures HasStatus(e.status, 404) ==> r.message == UserNotFound
    ensures HasStatus(e.status, 500) ==> r.message == ServerError
    ensures !HasOwnMessage(e.status) ==> r.message == OrElse(e.serverMessage, UpdateFailed)
  {
    if HasStatus(e.status, 400) then
      match e.fieldErrors
      case Some(errors) => FailureView(CheckInput, errors, false)
      case None => FailureView(OrElse(e.friendlyMessage, UpdateFailed), map[], false)
    else if HasStatus(e.status, 403) then FailureView(NoPermission, map[], true)
    else if HasStatus(e.status, 404) then FailureView(UserNotFound, map[], false)
    else if HasStatus(e.status, 500) then FailureView(ServerError, map[], false)
    else FailureView(OrElse(e.serverMessage, UpdateFailed), map[], false)
  }

  /** A message the page wrote itself tells which status the server answered, as long as
      the server's own texts are not copies of it. */
  lemma MessageIdentifiesStatus(e: UpdateFailure)
    requires forall t :: t in [NoPermission, UserNotFound, ServerError] ==>
               e.friendlyMessage != Some(t) && e.serverMessage != Some(t)
    ensures OnUpdateFailure(e).message == NoPermission <==> HasStatus(e.status, 403)
    ensures OnUpdateFailure(e).message == UserNotFound <==> HasStatus(e.status, 404)
    ensures OnUpdateFailure(e).message == ServerError <==> HasStatus(e.status, 500)
  {
    assert NoPermission in [NoPermission, UserNotFound, ServerError];
    assert UserNotFound in [NoPermission, UserNotFound, ServerError];
    assert ServerError in [NoPermission, UserNotFound, ServerError];
  }
}
