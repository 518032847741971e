/** Go `error` values as the core builds and inspects them: plain messages,
    `%w` wraps, the code-tagged `*errors.Error` of internal/errors, the two
    formatted errors of the value package, and the MySQL driver's error. */
module Errors {
  import opened Wrappers
  import Strings

  /** The codes of internal/errors/code.go, plus `OptimisticLock`, which the
      event store uses but code.go never declares. */
  datatype ErrCode =
    | Unknown
    | InvalidParameter
    | AlreadyExist
    | UnpermittedOp
    | NotFound
    | RepositoryError
    | QueryError
    | OptimisticLock

  /** The string value of each declared code; `OptimisticLock` has none. */
  function CodeText(c: ErrCode): Option<string> {
    match c
    case Unknown => Some("U000")
    case InvalidParameter => Some("V001")
    case AlreadyExist => Some("E001")
    case UnpermittedOp => Some("A001")
    case NotFound => Some("N001")
    case RepositoryError => Some("R001")
    case QueryError => Some("Q001")
    case OptimisticLock => None
  }

  /** The declared codes have pairwise distinct values, and only
      `OptimisticLock` lacks one. */
  lemma CodeTextsDistinct(c1: ErrCode, c2: ErrCode)
    ensures CodeText(c1).None? <==> c1 == OptimisticLock
    ensures c1 != c2 && CodeText(c1).Some? ==> CodeText(c1) != CodeText(c2)
  {
  }

  datatype Error =
    | Message(text: string)                         // errors.New / fmt.Errorf without %w
    | Wrapped(context: string, inner: Error)        // fmt.Errorf(context + ": %w", inner)
    | Coded(code: ErrCode, err: Error, message: string)  // *errors.Error
    | Validation(field: string, message: string)    // value.DomainValidationError
    | NotFoundError(resource: string, id: string)   // value.NotFoundError
    | Driver(number: int, message: string)          // *mysql.MySQLError

  /** What `err.Error()` returns. An `*errors.Error` shows its message when
      it has one and its wrapped error's text otherwise; a `%w` wrap keeps
      the inner text verbatim at its end. */
  function ErrorString(e: Error): (r: string)
    ensures e.Message? ==> r == e.text
    ensures e.Driver? ==> r == "Error " + Strings.Decimal(e.number) + ": " + e.message
    ensures e.Coded? && e.message != "" ==> r == e.message
    ensures e.Coded? && e.message == "" ==> r == ErrorString(e.err)
    ensures e.Wrapped? ==> |r| >= |ErrorString(e.inner)| && r[|r| - |ErrorString(e.inner)|..] == ErrorString(e.inner)
    ensures e.Wrapped? ==> |r| >= |e.context| && r[..|e.context|] == e.context
  {
    match e
    case Message(t) => t
    case Wrapped(c, inner) => c + ": " + ErrorString(inner)
    case Coded(_, inner, m) => if m != "" then m else ErrorString(inner)
    case Validation(f, m) => "invalid " + f + ": " + m
    case NotFoundError(r, id) => r + " not found: " + id
    case Driver(n, m) => "Error " + Strings.Decimal(n) + ": " + m
  }

  /** `errors.Unwrap`: the next error of the chain, if any. An
      `*errors.Error` always unwraps to the error it carries; every chain
      is finite, since each step yields a strictly smaller error. */
  function Unwrap(e: Error): (r: Option<Error>)
    ensures r.Some? <==> e.Wrapped? || e.Coded?
    ensures e.Coded? ==> r == Some(e.err)
    ensures e.Wrapped? ==> r == Some(e.inner)
    ensures r.Some? ==> r.value < e
  {
    match e
    case Wrapped(_, inner) => Some(inner)
    case Coded(_, inner, _) => Some(inner)
    case _ => None
  }

  /** `code.New(message)`. */
  function New(code: ErrCode, message: string): (e: Error)
    ensures FirstCode(e) == Some(code)
    ensures ErrorString(e) == message
    ensures Unwrap(e).Some? && ErrorString(Unwrap(e).value) == message
  {
    Coded(code, Message(message), message)
  }

  /** `code.Wrap(err, message)`. */
  function Wrap(code: ErrCode, err: Error, message: string): (e: Error)
    ensures FirstCode(e) == Some(code)
    ensures Unwrap(e) == Some(err)
    ensures ErrorString(e) == if message != "" then message else ErrorString(err)
  {
    Coded(code, err, message)
  }

  /** A non-empty message hides the wrapped error's text entirely: the
      rendered text no longer depends on the inner error. */
  lemma {:induction false} WrapHidesInner(code: ErrCode, e1: Error, e2: Error, message: string)
    requires message != ""
    ensures ErrorString(Wrap(code, e1, message)) == ErrorString(Wrap(code, e2, message)) == message
  {
  }

  /** The code of the first `*errors.Error` on the unwrap chain, as
      `errors.As` would find it. */
  function FirstCode(e: Error): Option<ErrCode> {
    match e
    case Coded(c, _, _) => Some(c)
    case Wrapped(_, inner) => FirstCode(inner)
    case _ => None
  }

  /** What `errors.IsCode(err, code)` is taken to mean: the first
      `*errors.Error` on the unwrap chain carries `code`. The package
      internal/errors declares no `IsCode`, so this meaning is assumed. */
  predicate HasCode(e: Error, code: ErrCode) {
    FirstCode(e) == Some(code)
  }

  /** `errors.Is(err, &mysql.MySQLError{Number: 1062})`: some driver error on
      the unwrap chain carries MySQL's duplicate-entry number. */
  predicate IsDuplicateEntry(e: Error) {
    match e
    case Driver(n, _) => n == 1062
    case Wrapped(_, inner) => IsDuplicateEntry(inner)
    case Coded(_, inner, _) => IsDuplicateEntry(inner)
    case _ => false
  }

  /** The formatted value-package errors end with their detail verbatim and
      start with their fixed wording. */
  lemma ValueErrorShapes(field: string, message: string, resource: string, id: string)
    ensures var v := ErrorString(Validation(field, message));
      v == "invalid " + field + ": " + message && v[|v| - |message|..] == message
    ensures var n := ErrorString(NotFoundError(resource, id));
      n == resource + " not found: " + id && n[..|resource|] == resource && n[|n| - |id|..] == id
    ensures var n := ErrorString(NotFoundError("todo list", id));
      n[..21] == "todo list not found: "
  {
  }
}
