/// The request-time decisions of the compiled stages: the validation gate
/// (`handleValidationResult`), the policy gate (`applyPolicy`) and the
/// promise-returning execute wrapper (`executePromise`). Each is modelled as a
/// function from what the request has produced so far to what the middleware
/// hands to `next`.
module Gates {
  import opened JsValues

  /** One validation error reported by express-validator for a request field. */
  datatype FieldError = FieldError(param: string, msg: Value)

  /** The detail an HTTP error carries: nothing, or the validation errors. */
  datatype Detail = NoDetail | Validation(errors: seq<FieldError>)

  /** `new HttpError(status, code, message, detail)`. */
  datatype HttpError = HttpError(status: nat, code: Value, message: Value, detail: Detail)

  /** What a middleware does: call `next()`, call `next(err)` with an error it
      made, or pass on a rejection reason unchanged (`.catch(next)`). */
  datatype Outcome = Next | Raise(error: HttpError) | Forward(reason: Value)

  /** How a promise settled. */
  datatype Settled = Resolved(result: Value) | Rejected(reason: Value)

  const ValidationFailed := HttpError(400, Str("validation_failed"), Str("Request validation failed."), NoDetail)
  const BadResult := HttpError(500, Str("bad_result"), Str("The policy returned a bad result."), NoDetail)

  /** `handleValidationResult`: continue when there are no validation errors,
      otherwise fail with 400 `validation_failed` carrying the errors. */
  function HandleValidationResult(errors: seq<FieldError>): (o: Outcome)
    ensures o.Next? <==> errors == []
    ensures errors != [] ==> o.Raise? && o.error.status == 400 && o.error.code == Str("validation_failed")
    ensures errors != [] ==> o.error.detail == Validation(errors)
  {
    if errors == [] then Next
    else Raise(ValidationFailed.(detail := Validation(errors)))
  }

  /** The policy gate's decision once `policy.runCheck(req, ...params)` has
      settled: strictly `true` continues; `false` fails with 403 and the
      policy's own failure code and message; an object or array fails with 403
      and the code and message it carries; any other value fails with 500
      `bad_result`; a rejection is passed on as it is. */
  function PolicyCheckOutcome(policy: Value, settled: Settled): (o: Outcome)
    ensures settled.Rejected? ==> o == Forward(settled.reason)
    ensures settled.Resolved? ==> o.Next? || o.Raise?
    ensures settled.Resolved? ==> (o.Next? <==> settled.result == Bool(true))
    ensures settled == Resolved(Bool(false)) ==>
              o == Raise(HttpError(403, FieldOf(policy, "failureCode"), FieldOf(policy, "failureMessage"), NoDetail))
    ensures settled.Resolved? && IsObjectLike(settled.result) ==>
              o == Raise(HttpError(403, FieldOf(settled.result, "failureCode"), FieldOf(settled.result, "failureMessage"), NoDetail))
  {
    match settled
    case Rejected(reason) => Forward(reason)
    case Resolved(result) =>
      if result == Bool(true) then Next
      else if result == Bool(false) then
        Raise(HttpError(403, FieldOf(policy, "failureCode"), FieldOf(policy, "failureMessage"), NoDetail))
      else if IsObjectLike(result) then
        Raise(HttpError(403, FieldOf(result, "failureCode"), FieldOf(result, "failureMessage"), NoDetail))
      else Raise(BadResult)
  }

  /** A settled policy check fails with 403 exactly when it answered `false`
      or an object, and with 500 `bad_result` for every other value but `true`:
      a truthy number or string is not a pass. */
  lemma PolicyStatus(policy: Value, result: Value)
    ensures var o := PolicyCheckOutcome(policy, Resolved(result));
      && (o.Raise? && o.error.status == 403 <==> result == Bool(false) || IsObjectLike(result))
      && (o.Raise? && o.error.status == 500 <==> result != Bool(true) && result != Bool(false) && !IsObjectLike(result))
      && (o.Raise? && o.error.status == 500 ==> o.error == BadResult)
  {
  }

  /** Before the check runs, `req._policyErrors` is made an array: a missing or
      non-array value is replaced by `[]`, an existing array is kept. */
  function PolicyErrorsSlot(current: Value): (r: Value)
    ensures r.Arr?
    ensures current.Arr? ==> r == current
    ensures !current.Arr? ==> r == Arr([])
  {
    if !Truthy(current) || !current.Arr? then Arr([]) else current
  }

  /** `executePromise(execute)`: continue when the returned promise resolves,
      pass the reason on when it rejects. */
  function ExecuteOutcome(settled: Settled): (o: Outcome)
    ensures o.Next? <==> settled.Resolved?
    ensures settled.Rejected? ==> o == Forward(settled.reason)
  {
    match settled
    case Resolved(_) => Next
    case Rejected(reason) => Forward(reason)
  }
}
