/**
 * The `ValueObject` base: a frozen record that validates itself once, in
 * `__post_init__`, and raises whatever its exception-builder hook returns.
 *
 * A value object is a Dafny datatype value, so its fields cannot change
 * after construction; that is how `frozen=True` is modelled. The subclass's
 * `_validate` and `_build_exception` are passed as functions of `self`.
 */
module ValueObjects {
  import opened PyValues
  import opened Validation
  import opened DomainErrors
  import opened Wrappers

  /** The default `_build_exception`: the base error over the result's errors. */
  function DefaultBuildException<T>(self: T, result: ValidationResult): (e: DomainValidationError)
    ensures e.Base? && e.errors == result.errors
  {
    Base(result.errors)
  }

  /** `_perform_validation`: the error it raises, or `None` when `self` is valid. */
  function PerformValidation<T>(
    self: T,
    validate: T -> ValidationResult,
    buildException: (T, ValidationResult) -> DomainValidationError
  ): (raised: Option<DomainValidationError>)
    ensures raised.None? <==> validate(self).isValid
    ensures raised.Some? ==> raised.value == buildException(self, validate(self))
  {
    var result := validate(self);
    if !result.isValid then Some(buildException(self, result)) else None
  }

  /**
   * Construction: the fields are populated from the arguments (`candidate`),
   * `__post_init__` runs the validation, and only a valid candidate is handed
   * back, unchanged.
   */
  function Construct<T>(
    candidate: T,
    validate: T -> ValidationResult,
    buildException: (T, ValidationResult) -> DomainValidationError
  ): (r: Outcome<T>)
    ensures r.Constructed? <==> validate(candidate).isValid
    ensures r.Constructed? ==> r.value == candidate
    ensures r.Raised? ==> r.error == buildException(candidate, validate(candidate))
  {
    match PerformValidation(candidate, validate, buildException)
    case None => Constructed(candidate)
    case Some(e) => Raised(e)
  }

  /** Without an override, a failed construction raises the base error with the result's errors in order. */
  lemma DefaultHookKeepsErrors<T>(candidate: T, validate: T -> ValidationResult)
    ensures var r := Construct(candidate, validate, DefaultBuildException);
            r.Raised? <==> !validate(candidate).isValid
    ensures var r := Construct(candidate, validate, DefaultBuildException);
            r.Raised? ==> r.error == Base(validate(candidate).errors)
  {
  }

  /** Rendering of `__str__`: the bare `str()` of the one field, or the JSON object `json.dumps` serialises. */
  datatype Rendering =
    | Bare(text: string)
    | JsonObject(entries: seq<(string, PyValue)>)
      /** `next(iter(...))` over no fields raises `StopIteration`. */
    | StopIteration

  /** Field names, in declaration order. */
  function Names(fields: seq<(string, PyValue)>): (r: seq<string>)
    ensures |r| == |fields| && forall i :: 0 <= i < |fields| ==> r[i] == fields[i].0
  {
    seq(|fields|, i requires 0 <= i < |fields| => fields[i].0)
  }

  /** Dataclass field names are distinct. */
  predicate DistinctNames(fields: seq<(string, PyValue)>)
  {
    forall i, j :: 0 <= i < j < |fields| ==> fields[i].0 != fields[j].0
  }

  /**
   * `__str__` over the dataclass fields `(name, value)` in declaration order:
   * one field prints as the bare value, several as a JSON object keyed by the
   * field names.
   */
  function Render(fields: seq<(string, PyValue)>): (r: Rendering)
    requires DistinctNames(fields)
    ensures |fields| == 1 ==> r == Bare(PyStr(fields[0].1))
    ensures |fields| > 1 ==> r.JsonObject? && Names(r.entries) == Names(fields)
    ensures |fields| > 1 ==> forall i :: 0 <= i < |fields| ==> r.entries[i].1 == fields[i].1
    ensures |fields| == 0 ==> r.StopIteration?
  {
    var fieldValues := fields;
    if |fieldValues| > 1 then JsonObject(fieldValues)
    else if |fieldValues| == 1 then Bare(PyStr(fieldValues[0].1))
    else StopIteration
  }
}
