/** The error kinds of the domain (backend-clean/internal/domain/errors and the
    two sentinels of the account package) as one closed enumeration, plus the
    result shapes the operations return. */
module DomainErrors {

  datatype ErrorKind =
    | NotFound
    | TemplateInUse
    | Unauthorized
    | InvalidStatus
    | InvalidStatusChange
    | InvalidTemplateField
    | TemplateNameRequired
    | TemplateOwnerRequired
    | FieldRequired
    | FieldOrderInvalid
    | FieldLabelRequired
    | SectionsMissing
    | RequiredFieldEmpty
    | ProviderRequired
    | ProviderAccountRequired
    | TitleRequired
    | OwnerRequired
      // account.ErrInvalidEmail and account.ErrInvalidName
    | InvalidEmail
    | InvalidName
      // any storage or transaction error that is none of the sentinels above
    | Opaque(detail: string)

  /** A Go `error` result: nil or one error. */
  datatype Outcome = Pass | Fail(error: ErrorKind)

  /** A Go `(*T, error)` result whose value is only read when the error is nil. */
  datatype Result<T> = Ok(value: T) | Err(error: ErrorKind)

  /** A Go `(T, error)` result whose value is meaningful even when the error is
      not nil (the source returns a zero value or the unchanged input). */
  datatype Returns<T> = Returns(value: T, err: Outcome)

  /** A guard: passes when `condition` holds, otherwise fails with `error`. */
  function Need(condition: bool, error: ErrorKind): (r: Outcome)
    ensures r.Pass? <==> condition
    ensures r.Fail? ==> r.error == error
  {
    if condition then Pass else Fail(error)
  }

  /** Reference semantics of a chain of early returns: the checks are tried in
      order and the first failure is the result. */
  function FirstFailure(checks: seq<Outcome>): (r: Outcome)
    ensures r.Pass? <==> forall i :: 0 <= i < |checks| ==> checks[i].Pass?
    ensures r.Fail? ==> exists i :: 0 <= i < |checks| && checks[i] == r &&
                                    forall j :: 0 <= j < i ==> checks[j].Pass?
  {
    if checks == [] then Pass
    else if checks[0].Fail? then checks[0]
    else
      var rest := FirstFailure(checks[1..]);
      assert forall i :: 1 <= i < |checks| ==> checks[i] == checks[1..][i - 1];
      rest
  }

  /** Two early returns in a row: the first failure wins. */
  lemma FirstFailureOfTwo(a: Outcome, b: Outcome)
    ensures FirstFailure([a, b]) == if a.Fail? then a else b
  {
    assert [a, b][1..] == [b];
    assert [b][1..] == [];
  }

  /** Four early returns in a row: the first failure wins. */
  lemma FirstFailureOfFour(a: Outcome, b: Outcome, c: Outcome, d: Outcome)
    ensures FirstFailure([a, b, c, d])
            == if a.Fail? then a else if b.Fail? then b else if c.Fail? then c else d
  {
    assert [a, b, c, d][1..] == [b, c, d];
    assert [b, c, d][1..] == [c, d];
    FirstFailureOfTwo(c, d);
  }
}
