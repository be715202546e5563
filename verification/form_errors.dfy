/** The per-field error record every form keeps (`validationErrors`), as a map from the
    form's fields to messages. A field the source sets to `undefined` is a missing key:
    every reader treats an `undefined` field and a missing one alike. */
module FormErrors {
  import opened Optional

  /** What the form shows for a field: `Boolean(validationErrors.field)`. */
  predicate Shown<F>(errors: map<F, string>, field: F) {
    field in errors && errors[field] != ""
  }

  /** One step of `validateForm`: `errors.field = message` when the field's check failed. */
  function Put<F(!new)>(errors: map<F, string>, field: F, outcome: Option<string>): (r: map<F, string>)
    ensures outcome.Some? ==> field in r && r[field] == outcome.value
    ensures outcome.None? ==> r == errors
    ensures forall g :: g != field ==> (g in r <==> g in errors)
    ensures forall g :: g != field && g in r ==> r[g] == errors[g]
  {
    match outcome
    case None => errors
    case Some(message) => errors[field := message]
  }

  /** A whole `validateForm` run: the checks of `order` applied one after another, each
      failing one writing its field. The result names exactly the fields of `order` whose
      check failed, each with its check's message. */
  function Collect<F(!new)>(order: seq<F>, check: F -> Option<string>): (r: map<F, string>)
    ensures forall k :: k in r <==> k in order && check(k).Some?
    ensures forall k :: k in r ==> check(k) == Some(r[k])
  {
    if order == [] then map[]
    else
      var last := order[|order| - 1];
      Put(Collect(order[..|order| - 1], check), last, check(last))
  }

  /** `Object.keys(errors).length === 0` */
  predicate NoErrors<F>(errors: map<F, string>)
  {
    |errors.Keys| == 0
  }

  lemma NoErrorsIffNoKey<F(!new)>(errors: map<F, string>)
    ensures NoErrors(errors) <==> forall k :: k !in errors
  {
    if !NoErrors(errors) {
      var k :| k in errors.Keys;
    }
  }

  /** The error half of `handleChange`: a truthy message on the edited field is replaced
      by `undefined`; a falsy one, and every other field, is left as it was. */
  function ClearOnEdit<F(!new)>(errors: map<F, string>, field: F): (r: map<F, string>)
    ensures !Shown(r, field)
    ensures field in errors && errors[field] == "" ==> field in r && r[field] == ""
    ensures forall g :: g != field ==> (g in r <==> g in errors)
    ensures forall g :: g != field && g in r ==> r[g] == errors[g]
    ensures forall g :: g != field ==> (Shown(r, g) <==> Shown(errors, g))
  {
    if Shown(errors, field) then errors - {field} else errors
  }
}
