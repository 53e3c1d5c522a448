/**
 * `ExternalEntityId`: the public identifier of an entity, a frozen value
 * object whose `id` must be a string that `uuid.UUID()` accepts, and which
 * defaults to a freshly generated `str(uuid4())`.
 */
module ExternalEntityIds {
  import opened Wrappers
  import opened PyValues
  import opened Validation
  import opened DomainErrors
  import ValueObjects
  import UuidText

  /** The default message of `InvalidExternalIdError`. */
  const InvalidIdMessage := "ID inv\U{e1}lido"
  const NotAStringMessage := "ID must be a string."
  const NotAUuidMessage := "ID must be a valid UUID."

  /** The `id` field as given; at run time it may be any value. */
  datatype ExternalEntityId = ExternalEntityId(id: PyValue)

  /** The id the value object accepts: a string in one of the textual UUID forms. */
  predicate IsUuidString(id: PyValue)
  {
    id.Str? && UuidText.Parse(id.s).Some?
  }

  /** `_validate`: at most one error, at `("id",)`, naming which check failed. */
  function Validate(self: ExternalEntityId): (r: ValidationResult)
    ensures Consistent(r) && |r.errors| <= 1
    ensures r.isValid <==> IsUuidString(self.id)
    ensures !self.id.Str? ==> r.errors == [ErrorDetails([Field("id")], NotAStringMessage)]
    ensures self.id.Str? && !r.isValid ==> r.errors == [ErrorDetails([Field("id")], NotAUuidMessage)]
  {
    if !self.id.Str? then Invalid([Field("id")], NotAStringMessage)
    else match UuidText.Parse(self.id.s)
      case None => Invalid([Field("id")], NotAUuidMessage)
      case Some(_) => Valid()
  }

  /** `_build_exception`: the offending id and the result's errors. */
  function BuildException(self: ExternalEntityId, result: ValidationResult): (e: DomainValidationError)
    ensures e.InvalidExternalId? && e.externalEntityId == self.id
    ensures e.message == InvalidIdMessage && e.errors == result.errors
  {
    InvalidExternalId(self.id, InvalidIdMessage, result.errors)
  }

  /** `ExternalEntityId(id=...)`. */
  function Create(id: PyValue): (r: Outcome<ExternalEntityId>)
    ensures r.Constructed? <==> IsUuidString(id)
    ensures r.Constructed? ==> r.value.id == id
    ensures r.Raised? ==> r.error == InvalidExternalId(id, InvalidIdMessage, Validate(ExternalEntityId(id)).errors)
  {
    ValueObjects.Construct(ExternalEntityId(id), Validate, BuildException)
  }

  /** `ExternalEntityId()`: the default factory `str(uuid4())` over the given random bits, which always validates. */
  function CreateDefault(random: UuidText.Digits128): (x: ExternalEntityId)
    ensures x.id == Str(UuidText.Uuid4Text(random))
    ensures Validate(x).isValid
  {
    UuidText.Uuid4Parses(random);
    Create(Str(UuidText.Uuid4Text(random))).value
  }

  /** `ExternalEntityId(id)` when the argument is given, `ExternalEntityId()` otherwise. */
  function New(id: Option<PyValue>, random: UuidText.Digits128): (r: Outcome<ExternalEntityId>)
    ensures id.None? ==> r == Constructed(CreateDefault(random))
    ensures id.Some? ==> r == Create(id.value)
  {
    match id
    case None => Constructed(CreateDefault(random))
    case Some(v) => Create(v)
  }

  /** `__str__` over the one field `id`. */
  function Fields(self: ExternalEntityId): seq<(string, PyValue)>
  {
    [("id", self.id)]
  }

  /** A constructed id prints as its bare UUID text, which is what persistence stores. */
  lemma StrIsTheId(id: PyValue)
    requires Create(id).Constructed?
    ensures ValueObjects.Render(Fields(Create(id).value)) == ValueObjects.Bare(id.s)
  {
  }

  /** Every standard textual form of a UUID is accepted. */
  lemma StandardFormsAccepted(ds: UuidText.Digits128)
    ensures Create(Str(UuidText.Hyphenated(ds))).Constructed?
    ensures Create(Str("{" + UuidText.Hyphenated(ds) + "}")).Constructed?
    ensures Create(Str("urn:uuid:" + UuidText.Hyphenated(ds))).Constructed?
    ensures Create(Str(UuidText.HexText(ds))).Constructed?
  {
    UuidText.ParseHyphenated(ds);
    UuidText.ParseBraced(ds);
    UuidText.ParseUrn(ds);
    UuidText.ParseBare(ds);
  }

  /** `ExternalEntityId(id="not-a-uuid")` raises with the single UUID-format error. */
  lemma NotAUuidRejected()
    ensures Create(Str("not-a-uuid")) ==
      Raised(InvalidExternalId(Str("not-a-uuid"), InvalidIdMessage, [ErrorDetails([Field("id")], NotAUuidMessage)]))
  {
    UuidText.RejectsNotAUuid();
  }
}
