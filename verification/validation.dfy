/** The validators' result type (IValidator.cs) and the request pipeline step that runs every
    validator before the handler (ValidationBehavior.cs). */
module Validation {
  import opened Exceptions
  import Text

  /** `ValidationResult`: a verdict and the messages explaining it, in the order they were found. */
  datatype ValidationResult = ValidationResult(isValid: bool, errors: seq<string>)

  /** `ValidationResult.Success()`. */
  function Success(): (r: ValidationResult)
    ensures r.isValid && r.errors == []
  {
    ValidationResult(true, [])
  }

  /** Both `ValidationResult.Failure` overloads: invalid, with the given messages in order; a
      failure with no messages is still invalid. */
  function Failure(errors: seq<string>): (r: ValidationResult)
    ensures !r.isValid && r.errors == errors
  {
    ValidationResult(false, errors)
  }

  /** How every per-command validator ends: `Success` for no errors, else `Failure(errors)`. */
  function Verdict(errors: seq<string>): (r: ValidationResult)
    ensures r.isValid <==> errors == []
    ensures r.errors == errors
  {
    if |errors| == 0 then Success() else Failure(errors)
  }

  // ------------------------------------------------------------ ValidationBehavior

  /** The messages the pipeline collects: the errors of every invalid result, in result order. */
  function Failures(results: seq<ValidationResult>): (failures: seq<string>)
    ensures |failures| <= Sum(results)
  {
    if |results| == 0 then []
    else (if results[0].isValid then [] else results[0].errors) + Failures(results[1..])
  }

  /** Total number of messages across the results, valid or not. */
  function Sum(results: seq<ValidationResult>): nat {
    if |results| == 0 then 0 else |results[0].errors| + Sum(results[1..])
  }

  /** Collecting is a homomorphism: the failures of two runs of validators, one after the other,
      are the failures of each in turn. */
  lemma {:induction false} FailuresAppend(a: seq<ValidationResult>, b: seq<ValidationResult>)
    ensures Failures(a + b) == Failures(a) + Failures(b)
  {
    if |a| == 0 {
      assert a + b == b;
    } else {
      assert (a + b)[1..] == a[1..] + b;
      FailuresAppend(a[1..], b);
    }
  }

  /** Nothing is collected exactly when no invalid result carries a message; in particular a
      valid result never contributes and an invalid result with no messages does not block. */
  lemma {:induction false} FailuresEmpty(results: seq<ValidationResult>)
    ensures Failures(results) == [] <==>
      forall i :: 0 <= i < |results| && !results[i].isValid ==> results[i].errors == []
  {
    if |results| > 0 {
      FailuresEmpty(results[1..]);
      assert forall i :: 1 <= i < |results| ==> results[i] == results[1..][i - 1];
    }
  }

  /** Every collected message comes from an invalid result. */
  lemma {:induction false} FailuresFromInvalid(results: seq<ValidationResult>, m: string)
    requires m in Failures(results)
    ensures exists i :: 0 <= i < |results| && !results[i].isValid && m in results[i].errors
  {
    if results[0].isValid || m !in results[0].errors {
      FailuresFromInvalid(results[1..], m);
      var i :| 0 <= i < |results[1..]| && !results[1..][i].isValid && m in results[1..][i].errors;
      assert results[i + 1] == results[1..][i];
    }
  }

  /** Running each validator on the request, in registration order. */
  function RunAll<R>(validators: seq<R -> ValidationResult>, request: R): (results: seq<ValidationResult>)
    ensures |results| == |validators|
    ensures forall i :: 0 <= i < |validators| ==> results[i] == validators[i](request)
  {
    seq(|validators|, i requires 0 <= i < |validators| => validators[i](request))
  }

  /** `ValidationBehavior.Handle`: with no validators, or no collected failure, the handler
      `next` runs and its answer is returned; otherwise an ArgumentException whose message is the
      failures joined by "; " is raised and the handler does not run. */
  function Handle<R, T>(validators: seq<R -> ValidationResult>, request: R, next: () -> T): (r: Outcome<T>)
    ensures |validators| == 0 ==> r == Ok(next())
    ensures Failures(RunAll(validators, request)) == [] ==> r == Ok(next())
    ensures Failures(RunAll(validators, request)) != [] ==>
      r == Throw(Exception(Argument, Text.Join("; ", Failures(RunAll(validators, request)))))
  {
    if |validators| == 0 then Ok(next())
    else
      var failures := Failures(RunAll(validators, request));
      if |failures| > 0 then Throw(Exception(Argument, Text.Join("; ", failures)))
      else Ok(next())
  }
}
