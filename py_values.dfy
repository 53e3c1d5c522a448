/**
 * The Python run-time values that the validation core inspects.
 *
 * Field annotations are not enforced by Python, so a field declared as
 * `datetime` or `str` may hold anything at run time; the checks of the core
 * (`isinstance(x, str)`, `isinstance(x, datetime)`, truthiness, `str(x)`)
 * are what this module makes explicit.
 */
module PyValues {

  datatype PyValue =
    | NoneValue
      /** An instance of `str` (or of a subclass of it). */
    | Str(s: string)
      /** An instance of `datetime` (or of a subclass), given by its `str()` text. */
    | DateTime(text: string)
      /** Any other object, given by its `str()` text and its truth value. */
    | Object(text: string, truthy: bool)

  /** Python's `bool(v)`: `None` and the empty string are falsy. */
  predicate Truthy(v: PyValue)
    ensures v.NoneValue? ==> !Truthy(v)
    ensures v.Str? ==> (Truthy(v) <==> |v.s| > 0)
    ensures v.DateTime? ==> Truthy(v)
  {
    match v
    case NoneValue => false
    case Str(s) => s != ""
    case DateTime(_) => true
    case Object(_, t) => t
  }

  /** Python's `str(v)`. */
  function PyStr(v: PyValue): (r: string)
    ensures v.Str? ==> r == v.s
  {
    match v
    case NoneValue => "None"
    case Str(s) => s
    case DateTime(text) => text
    case Object(text, _) => text
  }
}
