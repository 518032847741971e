/** internal/domain/errors: a typed error whose methods tolerate a nil
    receiver.  The receiver is an `Option`, `None` standing for nil. */
module DomainErrors {
  import opened Wrappers
  import Errors

  /** The `ErrorType` enumeration, declared with `iota`. */
  datatype ErrorType =
    | InvalidParameter
    | UnPemitedOperation
    | AlreadyExist
    | RepositoryError
    | QueryError
    | QueryDataNotFoundError
    | ErrorUnknown

  /** The integer `iota` assigns to each constant. */
  function Ordinal(t: ErrorType): nat {
    match t
    case InvalidParameter => 0
    case UnPemitedOperation => 1
    case AlreadyExist => 2
    case RepositoryError => 3
    case QueryError => 4
    case QueryDataNotFoundError => 5
    case ErrorUnknown => 6
  }

  /** The constant whose ordinal is `n`, for the seven declared values. */
  function FromOrdinal(n: nat): (r: Option<ErrorType>)
    ensures r.Some? <==> n <= 6
  {
    if n == 0 then Some(InvalidParameter)
    else if n == 1 then Some(UnPemitedOperation)
    else if n == 2 then Some(AlreadyExist)
    else if n == 3 then Some(RepositoryError)
    else if n == 4 then Some(QueryError)
    else if n == 5 then Some(QueryDataNotFoundError)
    else if n == 6 then Some(ErrorUnknown)
    else None
  }

  /** The ordinals are exactly 0..6, one per constant. */
  lemma OrdinalsAreIota(t: ErrorType, n: nat)
    ensures Ordinal(t) <= 6
    ensures FromOrdinal(Ordinal(t)) == Some(t)
    ensures n <= 6 ==> Ordinal(FromOrdinal(n).value) == n
  {
  }

  datatype DomainError = DomainError(errType: ErrorType, err: Errors.Error)

  /** `(*DomainError).Error`: the inner error's text, "" for nil. */
  function ErrorString(d: Option<DomainError>): (r: string)
    ensures d.None? ==> r == ""
    ensures d.Some? ==> r == Errors.ErrorString(Unwrap(d).value)
  {
    match d
    case None => ""
    case Some(e) => Errors.ErrorString(e.err)
  }

  /** `(*DomainError).Unwrap`: the inner error, nil for nil. */
  function Unwrap(d: Option<DomainError>): (r: Option<Errors.Error>)
    ensures r.None? <==> d.None?
    ensures d.Some? ==> r == Some(d.value.err)
  {
    match d
    case None => None
    case Some(e) => Some(e.err)
  }

  /** `(*DomainError).GetType`: the stored type, `ErrorUnknown` for nil. */
  function GetType(d: Option<DomainError>): (r: ErrorType)
    ensures d.None? ==> r == ErrorUnknown
    ensures d.Some? ==> r == d.value.errType
  {
    match d
    case None => ErrorUnknown
    case Some(e) => e.errType
  }

  /** `NewDomainError(t, m)`. */
  function NewDomainError(t: ErrorType, message: string): (d: DomainError)
    ensures GetType(Some(d)) == t
    ensures ErrorString(Some(d)) == message
    ensures Unwrap(Some(d)) == Some(Errors.Message(message))
  {
    DomainError(t, Errors.Message(message))
  }
}
