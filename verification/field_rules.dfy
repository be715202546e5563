/** The field checks the registration and profile-edit forms share, each returning the
    field's message when the check fails. */
module FieldRules {
  import opened Optional
  import opened Text
  import opened Patterns
  import opened Messages

  /** Name: required, at most 50 characters (src/pages/Register.tsx and
      src/pages/MyPageEdit.tsx write the same chain). */
  function NameRule(name: string): (r: Option<string>)
    ensures r.None? <==> !AllSpace(name) && |name| <= 50
    ensures r == Some(NameRequired) <==> AllSpace(name)
    ensures r == Some(NameTooLong) <==> !AllSpace(name) && |name| > 50
  {
    if AllSpace(name) then Some(NameRequired)
    else if |name| > 50 then Some(NameTooLong)
    else None
  }

  /** Gender: `!formData.gender`, so only the empty string fails (no trim). */
  function GenderRule(gender: string): (r: Option<string>)
    ensures r.None? <==> gender != ""
    ensures r.Some? ==> r == Some(GenderRequired)
  {
    if gender == "" then Some(GenderRequired) else None
  }

  /** Phone: required, then the shape `01x-xxx(x)-xxxx`. */
  function PhoneRule(phone: string): (r: Option<string>)
    ensures r.None? <==> PhoneShape(phone)
    ensures r == Some(PhoneRequired) <==> AllSpace(phone)
    ensures r == Some(PhoneFormat) <==> !AllSpace(phone) && !PhoneShape(phone)
  {
    PhoneMatchIffShape(phone);
    PhoneNotBlank(phone);
    if AllSpace(phone) then Some(PhoneRequired)
    else if !MatchesPhone(phone) then Some(PhoneFormat)
    else None
  }
}
