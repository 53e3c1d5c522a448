/**
 * The `Entity` base: a mutable record with an internal id, an external id
 * and two timestamps (each with a default), plus the subclass's own
 * fields. `__post_init__` runs the subclass's `_validate` once and raises
 * the base error on failure; there is no exception-builder hook. Fields
 * may be reassigned afterwards and nothing validates them again.
 */
module Entities {
  import opened Wrappers
  import opened PyValues
  import opened Validation
  import opened DomainErrors
  import UuidText
  import ExternalEntityIds
  import UniqueEntityIds

  /** What `_id` holds: an instance of exactly `UniqueEntityId`, or any other value (`None` by default). */
  datatype IdValue = UniqueId(uid: UniqueEntityIds.UniqueEntityId) | RawId(raw: PyValue)

  /** Python's `bool(id)`; a `UniqueEntityId` defines no `__bool__` or `__len__`, so it is always true. */
  predicate IdTruthy(id: IdValue)
    ensures id.UniqueId? ==> IdTruthy(id)
    ensures id.RawId? ==> (IdTruthy(id) <==> Truthy(id.raw))
  {
    match id
    case UniqueId(_) => true
    case RawId(v) => Truthy(v)
  }

  /** The values of an entity's fields; `own` stands for the subclass-declared fields. */
  datatype EntityFields<F> = EntityFields(
    id: IdValue,
    externalId: ExternalEntityIds.ExternalEntityId,
    createdAt: PyValue,
    updatedAt: PyValue,
    own: F)

  /** The keyword arguments of the constructor; `None` means the argument was left out. */
  datatype EntityArgs<F> = EntityArgs(
    id: Option<IdValue>,
    externalId: Option<ExternalEntityIds.ExternalEntityId>,
    createdAt: Option<PyValue>,
    updatedAt: Option<PyValue>,
    own: F)

  /**
   * What the default factories would read: the random bits `uuid4()` draws
   * and the `datetime.now()` readings for `created_at` and `updated_at`.
   */
  datatype DefaultSources = DefaultSources(random: UuidText.Digits128, createdNow: string, updatedNow: string)

  /** The dataclass `__init__`: supplied arguments are kept, missing ones take their defaults. */
  function Fill<F>(args: EntityArgs<F>, sources: DefaultSources): (e: EntityFields<F>)
    ensures e.own == args.own
    ensures e.id == (if args.id.Some? then args.id.value else RawId(NoneValue))
    ensures args.externalId.Some? ==> e.externalId == args.externalId.value
    ensures args.externalId.None? ==>
      e.externalId.id == Str(UuidText.Uuid4Text(sources.random)) && ExternalEntityIds.Validate(e.externalId).isValid
    ensures e.createdAt == (if args.createdAt.Some? then args.createdAt.value else DateTime(sources.createdNow))
    ensures e.updatedAt == (if args.updatedAt.Some? then args.updatedAt.value else DateTime(sources.updatedNow))
  {
    EntityFields(
      if args.id.Some? then args.id.value else RawId(NoneValue),
      if args.externalId.Some? then args.externalId.value else ExternalEntityIds.CreateDefault(sources.random),
      if args.createdAt.Some? then args.createdAt.value else DateTime(sources.createdNow),
      if args.updatedAt.Some? then args.updatedAt.value else DateTime(sources.updatedNow),
      args.own)
  }

  class Entity<F> {
    var internalId: IdValue
    var externalId: ExternalEntityIds.ExternalEntityId
    var createdAt: PyValue
    var updatedAt: PyValue
    var own: F

    /** The field assignments of `__init__`, before `__post_init__` runs. */
    constructor (fields: EntityFields<F>)
      ensures State() == fields
    {
      internalId := fields.id;
      externalId := fields.externalId;
      createdAt := fields.createdAt;
      updatedAt := fields.updatedAt;
      own := fields.own;
    }

    /** The `id` property: `_id`, unchanged. */
    function Id(): (r: IdValue)
      reads this
      ensures r == internalId && r == State().id
    {
      internalId
    }

    /** The current field values, which `_validate` reads. */
    function State(): EntityFields<F>
      reads this
    {
      EntityFields(internalId, externalId, createdAt, updatedAt, own)
    }
  }

  /** `Entity._perform_validation`: the base error over the subclass's errors, or `None` when valid. */
  function PerformValidation<F>(self: EntityFields<F>, validate: EntityFields<F> -> ValidationResult)
    : (raised: Option<DomainValidationError>)
    ensures raised.None? <==> validate(self).isValid
    ensures raised.Some? ==> raised.value == Base(validate(self).errors)
  {
    var result := validate(self);
    if !result.isValid then Some(Base(result.errors)) else None
  }

  /**
   * Constructing an entity whose `_validate` is `validate`: the object is
   * handed out only when validation passes, with the supplied fields intact.
   */
  method Create<F>(args: EntityArgs<F>, sources: DefaultSources, validate: EntityFields<F> -> ValidationResult)
    returns (r: Outcome<Entity<F>>)
    ensures r.Raised? <==> !validate(Fill(args, sources)).isValid
    ensures r.Raised? ==> r.error == Base(validate(Fill(args, sources)).errors)
    ensures r.Constructed? ==> fresh(r.value) && r.value.State() == Fill(args, sources)
  {
    var self := new Entity(Fill(args, sources));
    var raised := PerformValidation(self.State(), validate);
    if raised.Some? {
      r := Raised(raised.value);
    } else {
      r := Constructed(self);
    }
  }

  /** `entity.created_at = value` in caller code: a plain attribute store, with no validation. */
  method AssignCreatedAt<F>(self: Entity<F>, value: PyValue)
    modifies self
    ensures self.State() == old(self.State()).(createdAt := value)
  {
    self.createdAt := value;
  }

  /** `entity._id = value` in caller code: the slot behind `id` is stored with no validation. */
  method AssignId<F>(self: Entity<F>, value: IdValue)
    modifies self
    ensures self.State() == old(self.State()).(id := value)
    ensures self.Id() == value
  {
    self.internalId := value;
  }
}
