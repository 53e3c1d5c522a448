/**
 * `AggregateRoot`: an entity whose `_perform_validation` runs the
 * subclass's `_validate` and then two structural checks (`created_at` is a
 * datetime, `_id` is unset or exactly a `UniqueEntityId`), appending their
 * errors onto the subclass's result before deciding. Failure always raises
 * the base error.
 */
module AggregateRoots {
  import opened Wrappers
  import opened PyValues
  import opened Validation
  import opened DomainErrors
  import opened Entities

  const CreatedAtMessage := "The created_at field must be a datetime object."
  const IdMessage := "The id field must be a UniqueEntityId object."

  /** `_validate_created_at`: one error at `("created_at",)` unless the value is a datetime. */
  function ValidateCreatedAt(createdAt: PyValue): (r: ValidationResult)
    ensures Consistent(r) && |r.errors| <= 1
    ensures r.isValid <==> createdAt.DateTime?
    ensures !r.isValid ==> r.errors == [ErrorDetails([Field("created_at")], CreatedAtMessage)]
  {
    if !createdAt.DateTime? then Invalid([Field("created_at")], CreatedAtMessage)
    else Valid()
  }

  /** The ids `_validate_id` lets through: falsy ones (a new entity) and exact `UniqueEntityId` instances. */
  predicate AcceptableId(id: IdValue)
  {
    !IdTruthy(id) || id.UniqueId?
  }

  /** `_validate_id`: one error at `("id",)` for any other id. */
  function ValidateId(id: IdValue): (r: ValidationResult)
    ensures Consistent(r) && |r.errors| <= 1
    ensures r.isValid <==> AcceptableId(id)
    ensures !r.isValid ==> r.errors == [ErrorDetails([Field("id")], IdMessage)]
  {
    if !IdTruthy(id) || id.UniqueId? then Valid()
    else Invalid([Field("id")], IdMessage)
  }

  /** The `additional_validations` list, in order. */
  function AdditionalValidations<F>(self: EntityFields<F>): (vs: seq<ValidationResult>)
    ensures AllErrors(vs) == ValidateCreatedAt(self.createdAt).errors + ValidateId(self.id).errors
    ensures AllValid(vs) <==> self.createdAt.DateTime? && AcceptableId(self.id)
  {
    AllErrorsPair(ValidateCreatedAt(self.createdAt), ValidateId(self.id));
    [ValidateCreatedAt(self.createdAt), ValidateId(self.id)]
  }

  /**
   * The subclass's result with both structural results merged onto it: the
   * subclass's errors, then the `created_at` error, then the id error, and
   * valid exactly when the subclass's result and both checks are.
   */
  function Combined<F>(self: EntityFields<F>, validate: EntityFields<F> -> ValidationResult): (r: ValidationResult)
    ensures r.errors == validate(self).errors + ValidateCreatedAt(self.createdAt).errors + ValidateId(self.id).errors
    ensures r.isValid <==> validate(self).isValid && self.createdAt.DateTime? && AcceptableId(self.id)
  {
    MergeAllSpec(validate(self), AdditionalValidations(self));
    MergeAll(validate(self), AdditionalValidations(self))
  }

  /** What `_perform_validation` raises, if anything: always the base error over the merged errors. */
  function Verdict<F>(self: EntityFields<F>, validate: EntityFields<F> -> ValidationResult)
    : (raised: Option<DomainValidationError>)
    ensures raised.None? <==> Combined(self, validate).isValid
    ensures raised.Some? ==> raised.value == Base(Combined(self, validate).errors)
  {
    var result := Combined(self, validate);
    if !result.isValid then Some(Base(result.errors)) else None
  }

  /**
   * `AggregateRoot._perform_validation`: the loop appends each structural
   * result's errors onto the subclass's result and clears its `is_valid`
   * when that check failed.
   */
  method PerformValidation<F>(self: EntityFields<F>, validate: EntityFields<F> -> ValidationResult)
    returns (raised: Option<DomainValidationError>)
    ensures raised == Verdict(self, validate)
  {
    var result := validate(self);
    var isValid, errors := result.isValid, result.errors;
    var additional := AdditionalValidations(self);
    var i := 0;
    while i < |additional|
      invariant 0 <= i <= |additional|
      invariant ValidationResult(isValid, errors) == MergeAll(result, additional[..i])
    {
      var v := additional[i];
      assert additional[..i + 1][..i] == additional[..i];
      errors := errors + v.errors;
      if !v.isValid {
        isValid := false;
      }
      i := i + 1;
    }
    assert additional[..i] == additional;
    if !isValid {
      raised := Some(Base(errors));
    } else {
      raised := None;
    }
  }

  /** No short-circuit: failing subclass rules and a bad `created_at` are both reported, in that order. */
  lemma NoShortCircuit<F>(self: EntityFields<F>, validate: EntityFields<F> -> ValidationResult)
    requires !validate(self).isValid && !self.createdAt.DateTime?
    ensures Verdict(self, validate).Some?
    ensures var errs := Verdict(self, validate).value.errors;
            |errs| > |validate(self).errors|
            && errs[..|validate(self).errors|] == validate(self).errors
            && errs[|validate(self).errors|] == ErrorDetails([Field("created_at")], CreatedAtMessage)
  {
  }

  /** A non-datetime `created_at` on otherwise valid fields raises exactly one error, at `("created_at",)`. */
  lemma OnlyCreatedAtFails<F>(self: EntityFields<F>, validate: EntityFields<F> -> ValidationResult)
    requires validate(self) == Valid() && !self.createdAt.DateTime? && AcceptableId(self.id)
    ensures Verdict(self, validate) == Some(Base([ErrorDetails([Field("created_at")], CreatedAtMessage)]))
  {
    assert ValidateId(self.id).errors == [];
    assert Combined(self, validate).errors == [ErrorDetails([Field("created_at")], CreatedAtMessage)];
  }

  /** `None` and `""` are unset ids; a non-empty raw string is not a `UniqueEntityId`. */
  lemma IdCases(s: string)
    ensures ValidateId(RawId(NoneValue)) == Valid()
    ensures ValidateId(RawId(Str(""))) == Valid()
    ensures s != "" ==> ValidateId(RawId(Str(s))) == Invalid([Field("id")], IdMessage)
  {
  }

  /**
   * Constructing an aggregate root whose `_validate` is `validate`: the
   * object is handed out only when the merged result is valid; otherwise the
   * base error over the merged errors is raised.
   */
  method Create<F>(args: EntityArgs<F>, sources: DefaultSources, validate: EntityFields<F> -> ValidationResult)
    returns (r: Outcome<Entity<F>>)
    ensures r.Raised? <==> Verdict(Fill(args, sources), validate).Some?
    ensures r.Raised? ==> r.error == Verdict(Fill(args, sources), validate).value
    ensures r.Constructed? ==> fresh(r.value) && r.value.State() == Fill(args, sources)
  {
    var self := new Entity(Fill(args, sources));
    var raised := PerformValidation(self.State(), validate);
    if raised.Some? {
      r := Raised(raised.value);
    } else {
      r := Constructed(self);
    }
  }

  /** With no arguments, only the subclass's own rules can reject: the defaults pass both structural checks. */
  lemma DefaultsPassStructuralChecks<F>(own: F, sources: DefaultSources, validate: EntityFields<F> -> ValidationResult)
    ensures var self := Fill(EntityArgs(None, None, None, None, own), sources);
            Verdict(self, validate) == Entities.PerformValidation(self, validate)
  {
    var self := Fill(EntityArgs(None, None, None, None, own), sources);
    assert ValidateCreatedAt(self.createdAt).errors == [] && ValidateId(self.id).errors == [];
    assert Combined(self, validate).errors == validate(self).errors;
  }

  /** Reassigning `created_at` after construction is not re-checked, though the checks would now fail. */
  lemma ReassignmentIsNotRechecked<F>(self: EntityFields<F>, validate: EntityFields<F> -> ValidationResult, value: PyValue)
    requires Verdict(self, validate).None? && !value.DateTime?
    ensures Verdict(self.(createdAt := value), validate).Some?
  {
  }

  /** Reassigning `_id` to a non-empty raw string after construction is not re-checked either. */
  lemma IdReassignmentIsNotRechecked<F>(self: EntityFields<F>, validate: EntityFields<F> -> ValidationResult, raw: string)
    requires Verdict(self, validate).None? && raw != ""
    ensures Verdict(self.(id := RawId(Str(raw))), validate).Some?
    ensures var errs := Verdict(self.(id := RawId(Str(raw))), validate).value.errors;
            |errs| > 0 && errs[|errs| - 1] == ErrorDetails([Field("id")], IdMessage)
  {
    assert ValidateId(RawId(Str(raw))) == Invalid([Field("id")], IdMessage);
  }

  /** An aggregate root whose subclass adds no rules of its own. */
  function NoOwnRules(self: EntityFields<()>): ValidationResult
  {
    Valid()
  }

  /**
   * A caller that constructs a root with every default and then assigns a
   * string to `created_at` keeps an object that construction would refuse.
   */
  method ReassignAfterConstruction(sources: DefaultSources) returns (root: Entity<()>)
    ensures Verdict(Fill(EntityArgs(None, None, None, None, ()), sources), NoOwnRules).None?
    ensures root.State() == Fill(EntityArgs(None, None, None, None, ()), sources).(createdAt := Str("not-a-datetime"))
    ensures Verdict(root.State(), NoOwnRules).Some?
  {
    var r := Create(EntityArgs(None, None, None, None, ()), sources, NoOwnRules);
    assert r.Constructed?;
    root := r.value;
    AssignCreatedAt(root, Str("not-a-datetime"));
  }
}
