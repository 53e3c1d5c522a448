/**
 * The validation currency shared by every domain type: one field-level
 * failure (`ValidationErrorDetails`) and the outcome of one validator run
 * (`ValidationResult`), with the merge that the aggregate root performs.
 */
module Validation {

  /** One segment of an error location: a field name or a list index. */
  datatype LocPart = Field(name: string) | Index(i: int)

  /** `ValidationErrorDetails(loc=..., msg=...)`. */
  datatype ErrorDetails = ErrorDetails(loc: seq<LocPart>, msg: string)

  /** `ValidationResult(is_valid=..., errors=[...])`; `errors` keeps evaluation order. */
  datatype ValidationResult = ValidationResult(isValid: bool, errors: seq<ErrorDetails>)

  /** `ValidationResult(is_valid=True)`: valid, with the default empty error list. */
  function Valid(): (r: ValidationResult)
    ensures r.isValid && r.errors == []
  {
    ValidationResult(true, [])
  }

  /** A failed result with the single error `(loc, msg)`, as the source's checks build it. */
  function Invalid(loc: seq<LocPart>, msg: string): (r: ValidationResult)
    ensures !r.isValid && r.errors == [ErrorDetails(loc, msg)]
  {
    ValidationResult(false, [ErrorDetails(loc, msg)])
  }

  /** A result never claims validity while carrying errors. */
  predicate Consistent(r: ValidationResult)
  {
    r.isValid <==> r.errors == []
  }

  /**
   * Appending `b` onto `a`: `a.errors.extend(b.errors)`, and `a` becomes
   * invalid when `b` is.
   */
  function Merge(a: ValidationResult, b: ValidationResult): (r: ValidationResult)
    ensures r.isValid <==> a.isValid && b.isValid
    ensures |r.errors| == |a.errors| + |b.errors|
    ensures r.errors[..|a.errors|] == a.errors && r.errors[|a.errors|..] == b.errors
  {
    ValidationResult(a.isValid && b.isValid, a.errors + b.errors)
  }

  lemma MergeAssociative(a: ValidationResult, b: ValidationResult, c: ValidationResult)
    ensures Merge(Merge(a, b), c) == Merge(a, Merge(b, c))
  {
  }

  lemma MergeIdentity(a: ValidationResult)
    ensures Merge(a, Valid()) == a && Merge(Valid(), a) == a
  {
  }

  lemma MergeConsistent(a: ValidationResult, b: ValidationResult)
    requires Consistent(a) && Consistent(b)
    ensures Consistent(Merge(a, b))
  {
  }

  /** Merging a valid empty result with a failing one keeps exactly the failing one's errors, in order. */
  lemma MergeWithValidEmpty(e1: ErrorDetails, e2: ErrorDetails)
    ensures var r := Merge(Valid(), ValidationResult(false, [e1, e2]));
            !r.isValid && r.errors == [e1, e2]
  {
  }

  /** The errors of `vs`, one result after another. */
  function AllErrors(vs: seq<ValidationResult>): seq<ErrorDetails>
  {
    if vs == [] then [] else AllErrors(vs[..|vs| - 1]) + vs[|vs| - 1].errors
  }

  predicate AllValid(vs: seq<ValidationResult>)
  {
    forall i :: 0 <= i < |vs| ==> vs[i].isValid
  }

  /** `r` with every result of `vs` merged onto it, left to right. */
  function MergeAll(r: ValidationResult, vs: seq<ValidationResult>): ValidationResult
  {
    if vs == [] then r else Merge(MergeAll(r, vs[..|vs| - 1]), vs[|vs| - 1])
  }

  /**
   * Merging never drops or reorders: the errors are `r`'s, then each later
   * result's in turn, and the outcome is valid only when every part is.
   */
  lemma {:induction false} MergeAllSpec(r: ValidationResult, vs: seq<ValidationResult>)
    ensures MergeAll(r, vs).errors == r.errors + AllErrors(vs)
    ensures MergeAll(r, vs).isValid <==> r.isValid && AllValid(vs)
  {
    if vs != [] {
      var init := vs[..|vs| - 1];
      MergeAllSpec(r, init);
      assert AllValid(vs) <==> AllValid(init) && vs[|vs| - 1].isValid by {
        if AllValid(init) && vs[|vs| - 1].isValid {
          forall i | 0 <= i < |vs| ensures vs[i].isValid {
            if i < |vs| - 1 { assert vs[i] == init[i]; }
          }
        }
      }
    }
  }

  lemma AllErrorsPair(a: ValidationResult, b: ValidationResult)
    ensures AllErrors([a, b]) == a.errors + b.errors
    ensures AllValid([a, b]) <==> a.isValid && b.isValid
  {
    assert [a, b][..1] == [a];
    assert [a][..0] == [];
    assert AllErrors([a]) == a.errors;
  }
}
