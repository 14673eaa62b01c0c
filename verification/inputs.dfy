/** The page's numeric inputs (app/page.js, lines 27-29). Each text field is
    read with `parseFloat(text) || 0`; the string scan itself is abstracted to
    its outcome: `None` when the text does not start with a number (`NaN`),
    `Some(v)` otherwise. */
module Inputs {
  import opened Wrappers

  /** The value a field contributes to the calculation. `NaN` and zero are
      both falsy, so both become 0; every other number passes through. */
  function ReadField(parsed: Option<real>): (r: real)
    ensures parsed.None? ==> r == 0.0
    ensures parsed.Some? ==> r == parsed.value
    ensures r == 0.0 <==> parsed.None? || parsed.value == 0.0
  {
    parsed.GetOr(0.0)
  }
}
