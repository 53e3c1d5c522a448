/**
 * `EmailAddress`: a frozen value object with one field, checked as a whole
 * by a validator that is not part of this model (a parameter here).
 */
module EmailAddresses {
  import opened PyValues
  import opened Validation
  import opened DomainErrors
  import ValueObjects

  /** The default message of `InvalidEmailAddressError`. */
  const InvalidEmailMessage := "Endere\U{e7}o de e-mail inv\U{e1}lido."

  /** The `address` field as given. */
  datatype EmailAddress = EmailAddress(address: PyValue)

  /** `_build_exception`: the offending address and the result's errors. */
  function BuildException(self: EmailAddress, result: ValidationResult): (e: DomainValidationError)
    ensures e.InvalidEmailAddress? && e.address == self.address
    ensures e.message == InvalidEmailMessage && e.errors == result.errors
  {
    InvalidEmailAddress(self.address, InvalidEmailMessage, result.errors)
  }

  /**
   * `EmailAddress(address=...)` with `validator` standing for
   * `EmailAddressValidatorFactory.create().validate`, which receives the
   * whole object.
   */
  function Create(address: PyValue, validator: EmailAddress -> ValidationResult): (r: Outcome<EmailAddress>)
    ensures r.Constructed? <==> validator(EmailAddress(address)).isValid
    ensures r.Constructed? ==> r.value.address == address
    ensures r.Raised? ==> r.error == InvalidEmailAddress(address, InvalidEmailMessage, validator(EmailAddress(address)).errors)
  {
    ValueObjects.Construct(EmailAddress(address), validator, BuildException)
  }

  /** `__str__` over the one field `address`. */
  function Fields(self: EmailAddress): seq<(string, PyValue)>
  {
    [("address", self.address)]
  }

  /** A constructed address prints as the bare address. */
  lemma StrOfConstructed(address: PyValue, validator: EmailAddress -> ValidationResult)
    requires validator(EmailAddress(address)).isValid
    ensures ValueObjects.Render(Fields(Create(address, validator).value)) == ValueObjects.Bare(PyStr(address))
  {
  }
}
