/** Exceptions as values. Every operation of the model that can throw in the C# source returns
    an `Outcome`: `Ok` for a normal return, `Throw` for the exception it raises. */
module Exceptions {

  /** The .NET exception types the core raises, catches or maps to a status code. */
  datatype ExceptionKind =
    | Argument               // System.ArgumentException
    | ArgumentNull           // System.ArgumentNullException, a subclass of ArgumentException
    | InvalidOperation       // System.InvalidOperationException
    | UnauthorizedAccess     // System.UnauthorizedAccessException
    | KeyNotFound            // System.Collections.Generic.KeyNotFoundException
    | NullReference          // System.NullReferenceException
    | DbUpdate               // Microsoft.EntityFrameworkCore.DbUpdateException
    | Sql                    // Microsoft.Data.SqlClient.SqlException
    | TaskCanceled(innerIsTimeout: bool)  // TaskCanceledException, a subclass of OperationCanceledException
    | OperationCanceled      // System.OperationCanceledException
    | General                // System.Exception itself (what `throw new Exception(...)` raises)

  datatype Exception = Exception(kind: ExceptionKind, message: string)

  datatype Outcome<+T> = Ok(value: T) | Throw(error: Exception)

  /** The C# type test `ex is F` (a `catch (F)` clause, an `is` pattern) for the modelled
      hierarchy. `TaskCanceled(_)` as a family stands for TaskCanceledException whatever its
      inner exception. */
  predicate IsA(kind: ExceptionKind, family: ExceptionKind) {
    || family == General
    || kind == family
    || (family == Argument && kind == ArgumentNull)
    || (family == OperationCanceled && kind.TaskCanceled?)
    || (family.TaskCanceled? && kind.TaskCanceled?)
  }

  /** The catch clauses every command handler ends with: an exception of one of the `rethrown`
      types leaves unchanged (`catch (T) { throw; }`), any other is wrapped in a plain
      `Exception` carrying `wrapMessage` (`catch (Exception ex) { throw new Exception(msg, ex); }`). */
  function Catch<T>(r: Outcome<T>, rethrown: seq<ExceptionKind>, wrapMessage: string): (c: Outcome<T>)
    ensures r.Ok? ==> c == r
    ensures r.Throw? && (exists f :: f in rethrown && IsA(r.error.kind, f)) ==> c == r
    ensures r.Throw? && (forall f :: f in rethrown ==> !IsA(r.error.kind, f)) ==>
              c == Throw(Exception(General, wrapMessage))
  {
    match r
    case Ok(_) => r
    case Throw(e) =>
      if exists f :: f in rethrown && IsA(e.kind, f) then r
      else Throw(Exception(General, wrapMessage))
  }

  /** A `catch (T) { throw; }` clause: an exception whose kind is listed among the rethrown types
      leaves the catch clauses as it came. */
  lemma Rethrown<T>(r: Outcome<T>, rethrown: seq<ExceptionKind>, wrapMessage: string)
    requires r.Throw? && r.error.kind in rethrown
    ensures Catch(r, rethrown, wrapMessage) == r
  {
    assert IsA(r.error.kind, r.error.kind);
  }
}
