/** Optional values, standing for JavaScript's `undefined`/`null` next to a present value. */
module Optional {

  datatype Option<+T> = None | Some(value: T)

  /** JavaScript's `text || fallback` for a possibly absent string: an absent or empty
      string is falsy, so the fallback is taken. */
  function OrElse(text: Option<string>, fallback: string): (r: string)
    ensures r == fallback || (text == Some(r) && r != "")
    ensures text.Some? && text.value != "" ==> r == text.value
    ensures fallback != "" ==> r != ""
  {
    if text.Some? && text.value != "" then text.value else fallback
  }
}
