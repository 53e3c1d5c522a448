/**
 * `DomainValidationError` and the subclasses that the value objects raise.
 * Every variant carries the canonical `errors` payload; the subclasses add
 * the offending raw value and their own default message.
 */
module DomainErrors {
  import opened PyValues
  import opened Validation

  datatype DomainValidationError =
      /** The base error, as raised by `Entity`, `AggregateRoot` and the default hook. */
    | Base(errors: seq<ErrorDetails>)
      /** `InvalidExternalIdError(external_entity_id=..., errors=...)`. */
    | InvalidExternalId(externalEntityId: PyValue, message: string, errors: seq<ErrorDetails>)
      /** `InvalidUniqueEntityIdError(entity_id=..., errors=...)`. */
    | InvalidUniqueEntityId(entityId: PyValue, message: string, errors: seq<ErrorDetails>)
      /** `InvalidEmailAddressError(address=..., errors=...)`. */
    | InvalidEmailAddress(address: PyValue, message: string, errors: seq<ErrorDetails>)

  /** What constructing a domain object does: hand back the object, or raise. */
  datatype Outcome<+T> = Constructed(value: T) | Raised(error: DomainValidationError)
}
