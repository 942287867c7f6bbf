/** The HTTP status the API's global exception handler answers with, for an exception that
    escapes a request. The arms of its `switch` are tried in order and the first type test
    that matches decides; the response body and the logging around it are not modelled. */
module ErrorResponses {
  import opened Exceptions

  const BadRequest: int := 400
  const Unauthorized: int := 401
  const NotFound: int := 404
  const RequestTimeout: int := 408
  const Conflict: int := 409
  /** Not an `HttpStatusCode` member: the non-standard "client closed request". */
  const ClientClosedRequest: int := 499
  const InternalServerError: int := 500

  /** The `exception switch` in `HandleExceptionAsync`, arm by arm. */
  function StatusCode(kind: ExceptionKind): (code: int)
    ensures code == BadRequest <==> IsA(kind, Argument)
    ensures code == Conflict <==> kind == InvalidOperation
    ensures code == Unauthorized <==> kind == UnauthorizedAccess
    ensures code == NotFound <==> kind == KeyNotFound
    ensures code == RequestTimeout <==> kind == TaskCanceled(true)
    ensures code == ClientClosedRequest <==> kind == OperationCanceled || kind == TaskCanceled(false)
    ensures code == InternalServerError <==> kind == DbUpdate || kind == Sql || kind == NullReference || kind == General
  {
    if IsA(kind, Argument) then BadRequest
    else if IsA(kind, InvalidOperation) then Conflict
    else if IsA(kind, UnauthorizedAccess) then Unauthorized
    else if IsA(kind, KeyNotFound) then NotFound
    else if IsA(kind, DbUpdate) then InternalServerError
    else if IsA(kind, Sql) then InternalServerError
    else if kind.TaskCanceled? && kind.innerIsTimeout then RequestTimeout
    else if IsA(kind, OperationCanceled) then ClientClosedRequest
    else InternalServerError
  }

  /** The same mapping read off type by type, without regard to arm order. */
  function StatusOfType(kind: ExceptionKind): int {
    match kind
    case Argument => 400
    case ArgumentNull => 400
    case InvalidOperation => 409
    case UnauthorizedAccess => 401
    case KeyNotFound => 404
    case NullReference => 500
    case DbUpdate => 500
    case Sql => 500
    case TaskCanceled(timeout) => if timeout then 408 else 499
    case OperationCanceled => 499
    case General => 500
  }

  /** The arm order never shadows a type: the ordered switch and the per-type table agree. */
  lemma SwitchMatchesTable(kind: ExceptionKind)
    ensures StatusCode(kind) == StatusOfType(kind)
  {
    match kind
    case TaskCanceled(timeout) =>
      assert !IsA(kind, Argument) && !IsA(kind, InvalidOperation) && !IsA(kind, UnauthorizedAccess);
    case _ =>
  }

  /** The status a handler's catch clauses lead to: an exception of a rethrown type keeps its
      own status, anything else becomes a wrapped plain exception and so a 500. */
  lemma StatusAfterCatch<T>(r: Outcome<T>, rethrown: seq<ExceptionKind>, wrapMessage: string)
    requires r.Throw?
    ensures Catch(r, rethrown, wrapMessage).Throw?
    ensures StatusCode(Catch(r, rethrown, wrapMessage).error.kind) ==
      if exists f :: f in rethrown && IsA(r.error.kind, f) then StatusCode(r.error.kind) else InternalServerError
  {
  }

  /** Everything a handler rethrows (permission denials, unknown ids, invalid operations,
      argument errors) is answered with a client-error status. */
  lemma RethrownAreClientErrors(kind: ExceptionKind)
    requires kind in [UnauthorizedAccess, KeyNotFound, InvalidOperation, Argument]
    ensures 400 <= StatusCode(kind) < 500
  {
  }
}
