/** The `bodyHasTextProperty` middleware of the Major-Error-Types-and-Handling
    checkpoint: a create request passes only when its `text` is truthy. */
module Validation {
  import opened Wrappers
  import opened Pastes

  const TextRequired := "A 'text' property is required."

  /** JavaScript truthiness of the `text` field: a string is truthy when it
      is not empty, and `undefined` is falsy. */
  predicate IsTruthy(text: Option<string>)
  {
    text.Some? && text.value != ""
  }

  /** `bodyHasTextProperty`: `next()` when the body's `data.text` is truthy,
      `next("A 'text' property is required.")` otherwise. */
  function BodyHasTextProperty(data: Option<PasteData>): (r: Outcome<string>)
    ensures r.Pass? <==> data.Some? && IsTruthy(data.value.text)
    ensures r.Fail? ==> r.error == "A 'text' property is required."
  {
    if IsTruthy(Fields(data).text) then Pass else Fail(TextRequired)
  }
}
