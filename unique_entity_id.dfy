/**
 * `UniqueEntityId`: the persistence-facing identifier. Its rules live in a
 * validator that is not part of this model, so the validator is a
 * parameter. `__post_init__` validates the raw `id` first and only then
 * overwrites the frozen field with `str(id)`.
 */
module UniqueEntityIds {
  import opened PyValues
  import opened Validation
  import opened DomainErrors
  import ValueObjects

  /** The default message of `InvalidUniqueEntityIdError`. */
  const InvalidIdMessage := "ID inv\U{e1}lido"

  /** A constructed `UniqueEntityId`, whose `id` has been coerced to a string. */
  datatype UniqueEntityId = UniqueEntityId(id: string)

  /** The instance between `__init__` and the coercion: `id` still holds the raw argument. */
  datatype Uncoerced = Uncoerced(id: PyValue)

  /** `_build_exception`: the raw, uncoerced id and the result's errors. */
  function BuildException(self: Uncoerced, result: ValidationResult): (e: DomainValidationError)
    ensures e.InvalidUniqueEntityId? && e.entityId == self.id
    ensures e.message == InvalidIdMessage && e.errors == result.errors
  {
    InvalidUniqueEntityId(self.id, InvalidIdMessage, result.errors)
  }

  /**
   * `UniqueEntityId(id=raw)` with `validator` standing for
   * `UniqueEntityIdValidatorFactory.create().validate`: the validator sees
   * the raw id; the stored id is `str(raw)` and exists only after validation.
   */
  function Create(raw: PyValue, validator: PyValue -> ValidationResult): (r: Outcome<UniqueEntityId>)
    ensures r.Constructed? <==> validator(raw).isValid
    ensures r.Constructed? ==> r.value.id == PyStr(raw)
    ensures r.Raised? ==> r.error == InvalidUniqueEntityId(raw, InvalidIdMessage, validator(raw).errors)
  {
    var validate := (self: Uncoerced) => validator(self.id);
    match ValueObjects.Construct(Uncoerced(raw), validate, BuildException)
    case Constructed(self) => Constructed(UniqueEntityId(PyStr(self.id)))
    case Raised(e) => Raised(e)
  }

  /** `__str__` over the one field `id`. */
  function Fields(self: UniqueEntityId): seq<(string, PyValue)>
  {
    [("id", Str(self.id))]
  }

  /** `str(UniqueEntityId(id=x))` is `str(x)`. */
  lemma StrOfConstructed(raw: PyValue, validator: PyValue -> ValidationResult)
    requires validator(raw).isValid
    ensures ValueObjects.Render(Fields(Create(raw, validator).value)) == ValueObjects.Bare(PyStr(raw))
  {
  }

  /**
   * Rebuilding from the printed id of a constructed value gives the same
   * value back, provided the validator accepts the printed form.
   */
  lemma RebuildFromStr(u: UniqueEntityId, validator: PyValue -> ValidationResult)
    requires validator(Str(u.id)).isValid
    ensures Create(Str(u.id), validator) == Constructed(u)
  {
  }
}
