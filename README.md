# Self-validating domain objects — a Dafny model

This project models the domain-modelling core of a small Python video-processing
service. The core is the construction-and-validation protocol shared by its value
objects, entities and aggregate roots. Every domain object validates itself once,
at construction. Construction then either hands back a valid object or raises a
`DomainValidationError` carrying an ordered list of `(loc, msg)` error details.

Modules, one per Dafny file, each with the Python source it models (paths under `src/domain/__shared/`):

- `PyValues` (`py_values.dfy`; the `isinstance`, truthiness and `str()` checks in `aggregate_root/aggregate_root.py` and `value_objects/unique_entity_id/unique_entity_id.py`): the Python run-time values the core inspects. These are `None`, `str`, `datetime` and any other object, given by its `str()` text and truth value.
- `Validation` (`validation.dfy`; the `ValidationResult` handling in `aggregate_root/aggregate_root.py`): `ValidationErrorDetails`, `ValidationResult`, and the merge that appends one result onto another.
- `DomainErrors` (`domain_errors.dfy`; the error classes raised in `value_objects/*.py`): the `DomainValidationError` hierarchy as one sum type. It also holds `Outcome<T>`, which is either the constructed object or the raised error.
- `ValueObjects` (`value_object.dfy`; `value_objects/value_object.py`): validate-then-raise with the overridable `_build_exception` hook, plus the one-field versus many-field `__str__` rule. A value object is a Dafny datatype value, so its fields cannot change after construction; this is how `frozen=True` is modelled.
- `UuidText` (`uuid_text.dfy`; the `UUID(self.id)` call and the `uuid4()` default in `value_objects/external_entity_id.py`): what `uuid.UUID(hex)` accepts, and the text of `str(uuid4())`.
- `ExternalEntityIds` (`external_entity_id.dfy`; `value_objects/external_entity_id.py`), `UniqueEntityIds` (`unique_entity_id.dfy`; `value_objects/unique_entity_id/unique_entity_id.py`), `EmailAddresses` (`email_address.dfy`; `value_objects/email_address/email_address.py`): the concrete value objects and their specialised errors.
- `Entities` (`entity.dfy`; `entity/entity.py`): a `class Entity<F>` with mutable fields. `F` stands for the subclass-declared fields. It has a creation method that hands out the object only when validation passes, and caller-side field stores that run no validation.
- `AggregateRoots` (`aggregate_root.dfy`; `aggregate_root/aggregate_root.py`): the merged validation. It is a `while` loop over the two structural checks, proved against a specification function. The contracts of `Combined` and the lemmas beside it state error order, the AND of validity, and that nothing short-circuits.
- `Wrappers` (`wrappers.dfy`): the `Option` type, which stands for Python's `Optional` and for "raised" results.

Validators whose rules are not visible are parameters of type `T -> ValidationResult`. These are the `UniqueEntityId` validator, the `EmailAddress` validator and every entity subclass's `_validate`. Randomness (`uuid4`) and the clock (`datetime.now`) are parameters too.

## Model

| member | source | states |
|---|---|---|
| `ValueObjects.PerformValidation` | src/domain/__shared/value_objects/value_object.py:40-48 | raises nothing exactly when `_validate` says valid; otherwise raises exactly what `_build_exception(self, result)` returns |
| `ValueObjects.Construct` | src/domain/__shared/value_objects/value_object.py:36-48 | construction succeeds if and only if the result is valid; a constructed object is the candidate with its fields unchanged; a failure raises the hook's error |
| `ValueObjects.DefaultBuildException` | src/domain/__shared/value_objects/value_object.py:59-68 | the default hook yields the base `DomainValidationError` whose errors are the result's errors, in order |
| `ValueObjects.DefaultHookKeepsErrors` | src/domain/__shared/value_objects/value_object.py:46-48 | with the default hook, construction raises exactly when invalid, and the raised base error carries the result's errors |
| `ValueObjects.Render` | src/domain/__shared/value_objects/value_object.py:70-79 | one field renders as the bare `str()` of its value; several render as a JSON object whose keys are the field names in declaration order, with the field values; no fields raise `StopIteration` |
| `Validation.Valid` | src/domain/__shared/aggregate_root/aggregate_root.py:54 | `ValidationResult(is_valid=True)` is valid with no errors |
| `Validation.Invalid` | src/domain/__shared/aggregate_root/aggregate_root.py:45-53 | a failed check is invalid with its single `(loc, msg)` error |
| `Validation.Merge` | src/domain/__shared/aggregate_root/aggregate_root.py:31-33 | one step of the loop: the merged errors are the first result's followed by the second's, none dropped or reordered, and the merge is valid exactly when both parts are |
| `Validation.MergeAllSpec` | src/domain/__shared/aggregate_root/aggregate_root.py:30-33 | merging results one after another keeps every error, in order and without deduplication; the result is valid only when every part is |
| `Validation.MergeAssociative` | src/domain/__shared/aggregate_root/aggregate_root.py:30-33 | merging is associative |
| `Validation.MergeIdentity` | src/domain/__shared/aggregate_root/aggregate_root.py:30-33 | the valid empty result is a left and right identity of merging |
| `Validation.MergeConsistent` | src/domain/__shared/aggregate_root/aggregate_root.py:30-33 | merging keeps "valid if and only if no errors" |
| `Validation.MergeWithValidEmpty` | src/domain/__shared/aggregate_root/aggregate_root.py:30-33 | a valid empty result merged with a two-error failure is invalid with exactly those two errors, in order |
| `PyValues.Truthy` | src/domain/__shared/aggregate_root/aggregate_root.py:63 | `bool(v)`: `None` and the empty string are falsy, a non-empty string and every `datetime` are truthy |
| `PyValues.PyStr` | src/domain/__shared/value_objects/unique_entity_id/unique_entity_id.py:28 | `str()` of a string is that string |
| `UuidText.ParseDigits` | src/domain/__shared/value_objects/external_entity_id.py:41-43 | on ASCII text without sign, `0x` prefix, underscores or whitespace, `int(s, 16)` succeeds exactly when `s` is non-empty and every character is a hexadecimal digit, and yields each digit's value |
| `UuidText.RemoveAllDropsChar` | src/domain/__shared/value_objects/external_entity_id.py:42 | `str.replace(c, '')` for a single character `c` leaves no `c` in the text |
| `UuidText.RemoveAllShorter` | src/domain/__shared/value_objects/external_entity_id.py:42 | `str.replace(pat, '')` never lengthens the text |
| `UuidText.RemoveAllAbsent` | src/domain/__shared/value_objects/external_entity_id.py:42 | `str.replace(pat, '')` leaves a text unchanged when one of `pat`'s characters does not occur in it |
| `UuidText.RemoveCharAppend` | src/domain/__shared/value_objects/external_entity_id.py:42 | removing a single character distributes over concatenation |
| `UuidText.Core` | src/domain/__shared/value_objects/external_entity_id.py:42 | the text `UUID()` hands to `int(hex, 16)`, after removing `urn:` and `uuid:`, stripping braces and removing hyphens, contains no hyphen |
| `UuidText.Parse` | src/domain/__shared/value_objects/external_entity_id.py:42 | for a core without sign, `0x` prefix, underscores or whitespace, `UUID(hex)` succeeds exactly when that core has 32 characters, all hexadecimal digits, and its value is the digits of the core in order |
| `UuidText.ParseHyphenated` | src/domain/__shared/value_objects/external_entity_id.py:41-43 | `UUID()` reads the hyphenated 8-4-4-4-12 form back as the value it prints |
| `UuidText.ParseLeadingHyphen` | src/domain/__shared/value_objects/external_entity_id.py:41-43 | a leading `-` is removed with the other hyphens before `int()` reads the digits, so it never acts as a minus sign: `UUID("-" + str(u))` reads back `u` |
| `UuidText.ParseBraced` | src/domain/__shared/value_objects/external_entity_id.py:41-43 | `UUID()` reads the braced form back as the same value |
| `UuidText.ParseUrn` | src/domain/__shared/value_objects/external_entity_id.py:41-43 | `UUID()` reads the `urn:uuid:` form back as the same value |
| `UuidText.ParseBare` | src/domain/__shared/value_objects/external_entity_id.py:41-43 | `UUID()` reads the bare 32 hexadecimal digits back as the same value |
| `UuidText.RejectsNotAUuid` | src/domain/__shared/value_objects/external_entity_id.py:41-43 | `UUID("not-a-uuid")` raises `ValueError` |
| `UuidText.Uuid4Digits` | src/domain/__shared/value_objects/external_entity_id.py:25 | `uuid4()` keeps 122 random bits, sets the version digit (index 12) to 4 and the top two bits of the variant digit (index 16) to `10`, keeping its low two bits, so that digit is one of 8 to 11 |
| `UuidText.Uuid4Text` | src/domain/__shared/value_objects/external_entity_id.py:25 | `str(uuid4())` is 36 characters with hyphens at 8, 13, 18 and 23, version character `4`, a variant character among `8`, `9`, `a`, `b`, and a lower-case hexadecimal digit at every other position |
| `UuidText.Uuid4Parses` | src/domain/__shared/value_objects/external_entity_id.py:25 | `str(uuid4())` always parses back to the 128 bits it was printed from |
| `ExternalEntityIds.Validate` | src/domain/__shared/value_objects/external_entity_id.py:27-54 | at most one error, at `("id",)`; valid exactly for a string `UUID()` accepts; a non-string gets "ID must be a string."; an unparsable string gets "ID must be a valid UUID." |
| `ExternalEntityIds.BuildException` | src/domain/__shared/value_objects/external_entity_id.py:56-57 | an `InvalidExternalIdError` carrying the offending id, the default message "ID inválido" and the result's errors |
| `ExternalEntityIds.Create` | src/domain/__shared/value_objects/external_entity_id.py:17-57 | construction succeeds exactly for a string `UUID()` accepts, keeping it; otherwise raises `InvalidExternalIdError` with the id and the validation errors |
| `ExternalEntityIds.CreateDefault` | src/domain/__shared/value_objects/external_entity_id.py:25 | the default id is `str(uuid4())` and always passes validation |
| `ExternalEntityIds.New` | src/domain/__shared/value_objects/external_entity_id.py:25 | without an argument construction never raises and yields the generated id; with one it is the checked construction |
| `ExternalEntityIds.StrIsTheId` | src/domain/__shared/value_objects/value_object.py:76-79 | a constructed external id prints as its bare UUID text |
| `ExternalEntityIds.StandardFormsAccepted` | src/domain/__shared/value_objects/external_entity_id.py:41-54 | the hyphenated, braced, `urn:uuid:` and bare forms of any UUID all construct |
| `ExternalEntityIds.NotAUuidRejected` | src/domain/__shared/value_objects/external_entity_id.py:41-57 | `ExternalEntityId(id="not-a-uuid")` raises `InvalidExternalIdError` with exactly one error, `("id",)` "ID must be a valid UUID." |
| `UniqueEntityIds.BuildException` | src/domain/__shared/value_objects/unique_entity_id/unique_entity_id.py:33-34 | an `InvalidUniqueEntityIdError` carrying the raw id, the default message "ID inválido" and the result's errors |
| `UniqueEntityIds.Create` | src/domain/__shared/value_objects/unique_entity_id/unique_entity_id.py:25-31 | the validator sees the raw id; success exactly when it says valid, storing `str(raw)`; failure raises `InvalidUniqueEntityIdError` with the uncoerced id and the validator's errors, and no object exists |
| `UniqueEntityIds.StrOfConstructed` | src/domain/__shared/value_objects/value_object.py:76-79 | `str(UniqueEntityId(id=x))` is `str(x)` |
| `UniqueEntityIds.RebuildFromStr` | src/domain/__shared/value_objects/unique_entity_id/unique_entity_id.py:25-28 | rebuilding from a constructed id's text gives the same value, when the validator accepts that text |
| `EmailAddresses.BuildException` | src/domain/__shared/value_objects/email_address/email_address.py:29-30 | an `InvalidEmailAddressError` carrying the offending address, the message "Endereço de e-mail inválido." and the result's errors in order |
| `EmailAddresses.Create` | src/domain/__shared/value_objects/email_address/email_address.py:17-30 | the validator receives the whole object; success exactly when it says valid, with `address` unchanged; failure raises `InvalidEmailAddressError` with the address and the errors |
| `EmailAddresses.StrOfConstructed` | src/domain/__shared/value_objects/value_object.py:76-79 | a constructed address prints as the bare address |
| `Entities.Fill` | src/domain/__shared/entity/entity.py:29-35 | supplied arguments are kept; otherwise `_id` is `None`, `external_id` is a fresh valid `str(uuid4())` id, and each timestamp is its own `datetime.now()` reading |
| `Entities.IdTruthy` | src/domain/__shared/aggregate_root/aggregate_root.py:63 | `bool(id)`: a `UniqueEntityId` is always truthy; any other id is as truthy as the raw value |
| `Entities.Entity.constructor` | src/domain/__shared/entity/entity.py:29-35 | the dataclass `__init__` stores every field as given |
| `Entities.Entity.Id` | src/domain/__shared/entity/entity.py:37-39 | the `id` property returns `_id` unchanged |
| `Entities.PerformValidation` | src/domain/__shared/entity/entity.py:44-47 | raises exactly when the subclass's result is invalid, always the base error carrying exactly that result's errors; no hook is consulted |
| `Entities.Create` | src/domain/__shared/entity/entity.py:41-47 | construction raises exactly when `_validate` fails, with the base error; otherwise a fresh object holding the supplied and default fields |
| `Entities.AssignCreatedAt` | src/domain/__shared/entity/entity.py:29-30 | entities are not frozen: a caller's store changes only that field and validates nothing |
| `Entities.AssignId` | src/domain/__shared/entity/entity.py:32 | entities are not frozen: a caller's store into `_id` changes only that field, is what `id` then returns, and validates nothing |
| `AggregateRoots.ValidateCreatedAt` | src/domain/__shared/aggregate_root/aggregate_root.py:38-54 | a datetime adds no error; anything else adds exactly one, at `("created_at",)` with the fixed message |
| `AggregateRoots.ValidateId` | src/domain/__shared/aggregate_root/aggregate_root.py:56-74 | a falsy id or an exact `UniqueEntityId` adds no error; any other id adds exactly one, at `("id",)` with the fixed message |
| `AggregateRoots.IdCases` | src/domain/__shared/aggregate_root/aggregate_root.py:63-74 | `None` and `""` pass the id check; a non-empty raw string fails it with the single id error |
| `AggregateRoots.Verdict` | src/domain/__shared/aggregate_root/aggregate_root.py:35-36 | raises exactly when the merged result is invalid, always the base error over the merged errors, never a subclass's hook result |
| `AggregateRoots.PerformValidation` | src/domain/__shared/aggregate_root/aggregate_root.py:22-36 | the loop that extends the subclass's errors and clears `is_valid` computes exactly `Verdict` |
| `AggregateRoots.AdditionalValidations` | src/domain/__shared/aggregate_root/aggregate_root.py:25-28 | the two structural results together carry the `created_at` errors then the id errors, and are all valid exactly when `created_at` is a datetime and the id is acceptable |
| `AggregateRoots.Combined` | src/domain/__shared/aggregate_root/aggregate_root.py:23-33 | the merged errors are the subclass's, then the `created_at` errors, then the id errors; the merged result is valid exactly when the subclass's result is valid, `created_at` is a datetime and the id is acceptable |
| `AggregateRoots.NoShortCircuit` | src/domain/__shared/aggregate_root/aggregate_root.py:25-33 | when the subclass rules and `created_at` both fail, the raised error holds all subclass errors followed by the `created_at` error |
| `AggregateRoots.OnlyCreatedAtFails` | src/domain/__shared/aggregate_root/aggregate_root.py:44-53 | otherwise-valid fields with a non-datetime `created_at` raise exactly one error, at `("created_at",)` |
| `AggregateRoots.Create` | src/domain/__shared/aggregate_root/aggregate_root.py:22-36 | construction raises exactly when the merged validation fails, with its base error; otherwise a fresh object holding the fields |
| `AggregateRoots.DefaultsPassStructuralChecks` | src/domain/__shared/entity/entity.py:32-35 | with every field defaulted, the aggregate root decides exactly as a plain entity would |
| `AggregateRoots.ReassignmentIsNotRechecked` | src/domain/__shared/entity/entity.py:41-42 | validation runs only at construction: a valid aggregate whose `created_at` is reassigned to a non-datetime would now be rejected, yet nothing re-checks it |
| `AggregateRoots.IdReassignmentIsNotRechecked` | src/domain/__shared/entity/entity.py:41-42 | a valid aggregate whose `_id` is reassigned to a non-empty raw string would now be rejected with the id error last, yet nothing re-checks it |
| `AggregateRoots.ReassignAfterConstruction` | src/domain/__shared/entity/entity.py:41-42 | a root built with every default and no rules of its own constructs, and after a caller stores a string into `created_at` it holds fields that construction would refuse |

## Left out

- `UuidText.Parse`: accepts exactly the texts whose core, after CPython's `urn:`/`uuid:` removal, brace strip and hyphen removal, is 32 ASCII hexadecimal digits. CPython's `int(hex, 16)` also accepts a `+` sign, a `0x` prefix, single underscores between digits, surrounding whitespace and non-ASCII decimal digits within those 32 characters. The model rejects these, so `ExternalEntityIds.Validate` is stricter than the source on them.
- `UuidText.ParseDigits`: models `int(s, 16)` only for ASCII text without sign, `0x` prefix, underscores or whitespace; see `UuidText.Parse` above. A `-` sign cannot reach `int()`, because the core `UuidText.Core` hands it contains no hyphen.
- `ExternalEntityIds.Validate`: the `TypeError` branch of the `except` cannot arise once `id` is known to be a string, so it is not modelled separately.
- "`_validate` is invoked exactly once": in the functional model the validator is applied once in the body of `ValueObjects.PerformValidation`, `Entities.PerformValidation` and `AggregateRoots.PerformValidation`. No contract counts the calls.
- Keyword-only construction (`kw_only=True`) and `slots=True` are calling conventions with no effect on values, and are not modelled.
- The exact JSON text of `json.dumps(..., default=str)` in the multi-field `__str__`: the model keeps the field dictionary it serialises.
- `UniqueEntityIds.Create`: `object.__setattr__` overwrites the frozen `id` in place after validation. The model produces the coerced value instead. No reference to the uncoerced object escapes `__post_init__` except into the raised error, which carries the raw id as the model does.
- `AggregateRoots.PerformValidation`: the source extends the subclass's own `ValidationResult` object in place. The model copies its two fields into local variables. A subclass that returned the same result object from several calls would see errors pile up across constructions; that aliasing is not modelled.
- The `DomainValidationError` base class lives in a validator package file that is not part of this model. Its message and any further fields are left out; the model keeps its `errors`.
- The rules of the `UniqueEntityId` and `EmailAddress` validators, and of every entity subclass's `_validate`, are pydantic schemas or files that are not part of this model. They are parameters.
- Entity fields other than the four base fields are the opaque type parameter `F`. An `external_id` that is not an `ExternalEntityId` value is not representable; the base entity never inspects that field.
- Randomness (`uuid4`, that is `os.urandom`) and the clock (`datetime.now`) are parameters. Thread safety of entity mutation is not modelled.
