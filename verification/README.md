# User-account admin front end: forms, token store and failure messages

This project models the non-view logic of a React front end for a user-account CRUD
service, and proves properties of that model in Dafny:

- **Form validation.** The registration page, the self-service profile edit page
  (`MyPageEdit`) and the admin create/edit user page (`UserForm`) each check their form
  before submitting. Each check is an if/else chain per field that yields at most one
  message per field. The model gives each field rule a declarative partner (what the
  field accepts) and proves that the page is valid exactly when every field is
  acceptable. The phone and e-mail regular expressions appear twice: once as the
  concatenation of their pieces, and once as a positional check. A lemma proves the two
  agree.
- **Field edits.** `handleChange` sets one field and clears that field's shown error. It
  changes nothing else.
- **Submit guards and payloads.** The profile edit page blocks the update when the form is
  invalid, or when `userIndex` is null or 0. The user form sends the whole record when
  creating, and only the name when editing.
- **Token store.** The store keeps `accessToken`, `refreshToken` and `user` in browser
  storage. It has save, clear, refresh, logout and current-user reads. Storage is a
  `map<string, string>`, and the network replies of refresh and logout are inputs. The
  model proves that, starting from empty storage or a whole session, no sequence of
  store operations leaves a partial session when each operation completes before the
  next starts. It also shows the exception: a session cleared while a refresh is awaiting
  its reply is left holding a lone access token once the grant arrives. Finally it proves
  that the cached identity reads back as it was saved.
- **Failure messages.** The login page and the profile edit page map a failed call's HTTP
  status and server texts to the message they show.

Modules follow the source files. `Text`, `Patterns`, `Optional`, `FormErrors`,
`FieldRules`, `Messages` and `ApiError` hold what the pages share. `RegisterPage`,
`MyPageEditPage`, `UserFormPage` and `LoginPage` model one page each. `AuthService` and
`UserCodec` model `src/services/authService.ts`.

Whitespace, for both `trim()` and the regular-expression class `\s`, is the full
ECMAScript WhiteSpace and LineTerminator set (sections 12.2 and 12.3 of ECMA-262). That
set is finite, so `Text.IsSpace` lists it completely.

Neither axios instance (`src/services/api.ts`, `src/services/authService.ts`) has
interceptors, and nothing calls `authService.refresh`. `AuthService.Refresh` is modelled
on its own.

Nothing in `src/services/api.ts` or `src/services/authService.ts` as they stand attaches
`friendlyMessage` or `validationErrors` to an error object. The pages read both fields,
so the model takes both as inputs.

## Model

| member | source | states |
|---|---|---|
| Text.Trim | src/pages/Register.tsx:42 | `trim()` gives a slice of the input with only whitespace before and after it; that slice is empty exactly when every character is whitespace, and otherwise neither starts nor ends with whitespace |
| Text.BlankIffTrimmedEmpty | src/pages/Register.tsx:42 | `!s.trim()` holds exactly when every character of `s` is whitespace, the test the validators are stated with |
| Patterns.PhoneMatchIffShape | src/pages/Register.tsx:68 | the positional check agrees, on every input, with `^01[0-9]-\d{3,4}-\d{4}$` read as "01", a digit, "-", 3 or 4 digits, "-", 4 digits |
| Patterns.EmailMatchIffShape | src/pages/Register.tsx:73 | the positional match (plain run before the first `@`, domain with an inner dot) agrees on every input with `^[^\s@]+@[^\s@]+\.[^\s@]+$` read as local "@" host "." tail, each a non-empty run without whitespace or `@` |
| Optional.OrElse | src/pages/MyPageEdit.tsx:122 | JavaScript `text \|\| fallback` on a possibly absent string: the text when present and non-empty, else the fallback; non-empty whenever the fallback is |
| Patterns.WordNotBlank | src/pages/Register.tsx:42-46 | a user id that passes `^[a-zA-Z0-9_]+$` is never blank, so the charset test cannot pass on an input the required test rejects |
| FormErrors.Collect | src/pages/Register.tsx:38-81 | a `validateForm` run over the fields in check order: the error record holds exactly the fields whose check failed, each with that check's message |
| FormErrors.ClearOnEdit | src/pages/Register.tsx:89-94 | the edited field no longer shows an error; a falsy message is left as it was; every other field's error is unchanged |
| FieldRules.NameRule | src/pages/Register.tsx:50-54 | name passes iff non-blank and at most 50 characters; blank gives the required message, over 50 the length message (MyPageEdit.tsx:60-64 is the same chain) |
| FieldRules.GenderRule | src/pages/Register.tsx:62-64 | gender fails exactly when it is the empty string (no trim), with the required message (MyPageEdit.tsx:66-68 is the same) |
| FieldRules.PhoneRule | src/pages/Register.tsx:66-70 | phone passes iff it has the phone shape; blank gives the required message, non-blank without the shape the format message (MyPageEdit.tsx:70-74 is the same) |
| RegisterPage.UserIdRule | src/pages/Register.tsx:42-48 | user id passes iff 4 to 50 characters, all `[a-zA-Z0-9_]`; blank gives only the required message; non-blank with untrimmed length outside 4..50 gives the length message before any charset test; in-range with another character gives the charset message |
| RegisterPage.PasswordRule | src/pages/Register.tsx:56-60 | password passes iff non-blank and 6 to 100 characters; blank gives the required message, otherwise out of range gives the length message |
| RegisterPage.EmailRule | src/pages/Register.tsx:72-78 | e-mail is optional: blank passes; otherwise the shape is checked first (format message) and the 100-character bound second (length message) |
| RegisterPage.Validate | src/pages/Register.tsx:38-80 | the error record holds exactly the fields whose rule failed, each with that rule's single message |
| RegisterPage.IsValid | src/pages/Register.tsx:81 | the form is valid (no error keys) iff every field satisfies its declarative acceptance condition |
| RegisterPage.HandleChange | src/pages/Register.tsx:84-95 | the named field takes the new value and shows no error; every other field and every other error is unchanged |
| RegisterPage.Submit | src/pages/Register.tsx:80-108 | submitting installs the validation error record; the form is sent to register iff it is acceptable, unchanged and with an empty error record |
| MyPageEditPage.EmailRule | src/pages/MyPageEdit.tsx:76-80 | e-mail is optional and only shape-checked, with no length bound: it passes iff blank or well-shaped, and the only message is the format one |
| MyPageEditPage.Validate | src/pages/MyPageEdit.tsx:57-82 | the error record holds exactly the fields (name, gender, phone, e-mail) whose rule failed, each with that rule's message |
| MyPageEditPage.IsValid | src/pages/MyPageEdit.tsx:83 | the form is valid iff name is non-blank and at most 50, gender non-empty, phone well-shaped, e-mail blank or well-shaped |
| MyPageEditPage.HandleChange | src/pages/MyPageEdit.tsx:86-97 | the named field takes the new value and shows no error; every other field and error is unchanged |
| MyPageEditPage.Submit | src/pages/MyPageEdit.tsx:102-111 | the update is sent iff the form is acceptable and `userIndex` is present and non-zero (0 blocks it as well), with that index and the form; the error record is the validation result, empty when sending |
| MyPageEditPage.OnUpdateFailure | src/pages/MyPageEdit.tsx:114-133 | 400 with field errors installs them with the check-input message; 400 without shows the friendly message or the default; 403 shows the permission message and is the only case that returns to /mypage; 404 not-found; 500 server error; any other or absent status the server message or the default; the message is never empty and field errors appear only from a 400 |
| MyPageEditPage.MessageIdentifiesStatus | src/pages/MyPageEdit.tsx:124-130 | unless the server's texts copy them, the permission, not-found and server-error messages appear exactly for 403, 404 and 500 |
| UserFormPage.EmailRule | src/pages/UserForm.tsx:61-65 | e-mail is required: passes iff well-shaped; blank gives the required message, otherwise the format message |
| UserFormPage.PasswordRule | src/pages/UserForm.tsx:67-74 | in edit mode the password never fails; in create mode it passes iff non-blank and at least 6 characters, with no upper bound |
| UserFormPage.NameRule | src/pages/UserForm.tsx:76-79 | name passes iff non-blank, with no length bound; the only message is the required one |
| UserFormPage.Validate | src/pages/UserForm.tsx:57-80 | the error record holds exactly the fields whose rule failed in the given mode; in edit mode it never holds the password |
| UserFormPage.IsValid | src/pages/UserForm.tsx:81-82 | the form is valid iff the e-mail is well-shaped, the name non-blank, and, when creating, the password non-blank with at least 6 characters |
| UserFormPage.EditModeIgnoresPassword | src/pages/UserForm.tsx:67-68 | in edit mode, changing the password changes nothing about the errors |
| UserFormPage.HandleChange | src/pages/UserForm.tsx:85-97 | the named field takes the new value and shows no error; every other field and error is unchanged |
| UserFormPage.Submit | src/pages/UserForm.tsx:99-114 | with edit mode being a present non-empty route id (line 19), a call is made iff the form is acceptable in that mode; edit mode sends the id and the name only, create mode the whole record |
| UserCodec.ParseStringify | src/services/authService.ts:57-60 | parsing the stored `user` text gives back the identity that was stringified |
| UserCodec.ParseSound | src/services/authService.ts:80-81 | a text parses only when it is exactly the stringified form of the parsed identity |
| UserCodec.StringifyInjective | src/services/authService.ts:57-60 | distinct identities are stored as distinct texts |
| AuthService.SaveTokens | src/services/authService.ts:54-61 | the two tokens and the stringified `{userId, name}` are written under their keys; every other key is kept |
| AuthService.ClearTokens | src/services/authService.ts:48-52 | exactly the three session keys are removed; every other key and value is kept |
| AuthService.GetCurrentUser | src/services/authService.ts:75-85 | nothing when `user` is absent, empty or does not parse; an identity exactly when the stored text is its stringified form |
| AuthService.IsAuthenticated | src/services/authService.ts:63-65 | `!!localStorage.getItem('accessToken')`: the access token is stored and non-empty |
| AuthService.Refresh | src/services/authService.ts:18-34 | without a non-empty refresh token: no call, resolves to null, storage unchanged; otherwise that token is posted, and a granted reply replaces only the access token and resolves to it, a rejected one clears the session and resolves to null, and an unanswered one writes nothing and leaves the promise unresolved |
| AuthService.RefreshSettle | src/services/authService.ts:27-32 | the reply lands on the store as it then is, without rereading it: a grant sets only the access token and keeps every other key, a rejection clears the session |
| AuthService.Logout | src/services/authService.ts:36-46 | the logout endpoint is called, with the user id in the path, iff the cached identity parses and has a non-empty id; the session is cleared at once when no call is made, once the call settles whatever its outcome, and not while it is pending |
| AuthService.RunKeepsSessionWhole | src/services/authService.ts:18-61 | from a state where the three session keys are all present or all absent, every sequence of save, clear, refresh and logout keeps them so, when each operation completes before the next starts |
| AuthService.ClearDuringRefresh | src/services/authService.ts:19-28 | a refresh started on a saved session, then a clear, then the grant: the store ends authenticated with a lone access token, no refresh token and no current user |
| AuthService.SavedSessionReadsBack | src/services/authService.ts:54-85 | after `saveTokens` the current user is the saved identity, and `isAuthenticated` holds iff the saved access token is non-empty |
| AuthService.ClearedSessionIsEmpty | src/services/authService.ts:48-65 | after `clearTokens` the store is not authenticated, has no current user, a refresh makes no call, and clearing again changes nothing |
| AuthService.RefreshKeepsIdentity | src/services/authService.ts:24-33 | a granted refresh keeps the current user; a rejected refresh that was attempted leaves none |
| AuthService.LogoutAfterSave | src/services/authService.ts:36-61 | logging out after a login posts the logged-in user's id, and makes no call when that id is empty; while that call is pending the user still reads back, otherwise the store is no longer authenticated |
| LoginPage.FailureMessage | src/pages/Login.tsx:43-55 | 401 invalid credentials; 404 unknown user; 400 the friendly message or the check-input default; 500 server error; any other or absent status the server message or the login-failed default; never empty |
| LoginPage.Submit | src/pages/Login.tsx:38-55 | a successful login stores the response with `saveTokens`, navigates to `/` and shows no error; a failed one leaves storage as it was and shows the classified message |
| LoginPage.MessageIdentifiesStatus | src/pages/Login.tsx:45-52 | unless the server's texts copy them, the invalid-credentials, unknown-user and server-error messages appear exactly for 401, 404 and 500 |
| LoginPage.LoginEstablishesSession | src/pages/Login.tsx:39-41 | after a successful login the session is whole, reads back as the user who logged in, and is authenticated iff the access token is non-empty |

## Left out

- AuthService.RunKeepsSessionWhole: applies refresh and logout as single steps; a reply that writes after other store operations have run is not covered. `AuthService.ClearDuringRefresh` shows the outcome it leaves out: a grant after a clear leaves a lone `accessToken`. A pending logout that settles after a new login likewise clears that new session.
- Request interceptors: `src/services/api.ts` has none and nothing calls `authService.refresh`; `AuthService.Refresh` is modelled on its own.
- `authService.login` and `authService.register`: plain POST calls without logic. Their replies are inputs to `LoginPage.Submit`, and `RegisterPage.Submit` ends at the call.
- `authService.getAccessToken` and `getRefreshToken`: plain storage reads.
- `authService.saveUserIndex` and `isOwnAccount`: other pages call them, but `src/services/authService.ts` does not define them.
- The catch messages of the register and user-form submits (`error.response?.data?.message || default`), and Login's `handleChange`: each is one `||` or one field update with no error record. `Optional.OrElse` and the other pages' `HandleChange` model the same shapes.
- `loadMyInfo` and `loadUser`: network loads that fill the form or set the page's load error. `loadMyInfo` also sets `userIndex`, which `MyPageEditPage.Submit` takes as an input (`None` until the profile has loaded), and calls `saveUserIndex`, which `src/services/authService.ts` does not define.
- React state hooks, loading flags, rendering, navigation calls, `alert`, `confirm` and `window.location.reload`. `MyPageEditPage.OnUpdateFailure` records the delayed return to /mypage as a flag, without the 2-second `setTimeout`.
- String lengths count Unicode code points, not the UTF-16 code units of JavaScript's `length`. The two differ only for characters outside the Basic Multilingual Plane.
- `UserCodec.Stringify` escapes only `"` and `\`. `JSON.stringify` also escapes control characters U+0000 to U+001F and lone surrogates; the model writes those unchanged.
- `UserCodec.Parse` accepts only the canonical text that `Stringify` writes. `JSON.parse` accepts any JSON, and `getCurrentUser` would return any parsed value, such as a number or an object without `userId`. The store only ever writes the canonical text.
- Setting an error field to `undefined` is modelled as removing the key. Every reader treats an `undefined` field and a missing one alike: `Boolean(...)`, `|| default` and `helperText` read `undefined` either way.
- The server-sent `validationErrors` that `MyPageEditPage.OnUpdateFailure` installs are restricted to the form's own fields. Other keys are never read.
- `Number(id)` on the user form's route id: the update call carries the id text.
- `localStorage` failures (quota, disabled storage) and concurrent writes from other tabs.
