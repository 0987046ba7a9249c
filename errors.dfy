/**
 * The error shape handed to callers, and the two normalisers of src/utils:
 * validationError.js tags a schema-validation error and cleans it,
 * customError.js cleans any other error. Both keep `message`, `code` and
 * `status` and drop everything else unless the process runs in dev mode, which
 * is a parameter here.
 */
module ErrorShapes {
  import opened JsValues

  /** One entry of a cleaned error's `details`: `{ key, type, message }`. */
  datatype DetailSummary = DetailSummary(key: Value, kind: string, message: string)

  /**
   * An error object seen as a value: its message, code and status, its
   * `details` when it has them, and any other own property (a constraint
   * name, a context, ...).
   */
  datatype ErrorValue = ErrorValue(
    message: string,
    code: Value,
    status: Value,
    details: Option<seq<DetailSummary>>,
    others: Record)

  /** `new Error(message)`: no code, no status, nothing else. */
  function NewError(message: string): ErrorValue {
    ErrorValue(message, Undefined, Undefined, None, [])
  }
}

module ValidationErrors {
  import opened JsValues
  import opened ErrorShapes

  /** One entry of a schema library's `details`: `{ message, type, context: { key } }`. */
  datatype Detail = Detail(message: string, kind: string, contextKey: Value)

  /**
   * The error object `validationError` receives and changes in place: a class
   * beside `ErrorValue` because validationError.js writes its argument's
   * fields, whereas customError.js only reads them.
   */
  class ErrorObject {
    var message: string
    var code: Value
    var status: Value
    var details: seq<Detail>
    var others: Record

    constructor (message: string, details: seq<Detail>, others: Record)
      ensures this.message == message && this.details == details && this.others == others
      ensures code == Undefined && status == Undefined
    {
      this.message := message;
      this.details := details;
      this.others := others;
      code := Undefined;
      status := Undefined;
    }
  }

  const ValidationCode := Str("VALIDATION")
  const ValidationStatus := Num(400.0)
  const DefaultMessage := "Validation Error"

  /** `s.replace(/"/g, "'")` */
  function ReplaceQuotes(s: string): (r: string)
    ensures |r| == |s|
    ensures forall i :: 0 <= i < |s| ==> r[i] == if s[i] == '"' then '\'' else s[i]
  {
    if s == [] then []
    else [if s[0] == '"' then '\'' else s[0]] + ReplaceQuotes(s[1..])
  }

  /** The message a validation error ends with: its own with single quotes, or the default when empty. */
  function NormalizeMessage(message: string): (r: string)
    ensures '"' !in r
    ensures message == "" ==> r == DefaultMessage
    ensures message != "" ==> r == ReplaceQuotes(message)
  {
    if message != "" then ReplaceQuotes(message) else DefaultMessage
  }

  /** `details.map((detail) => ({ key: detail.context.key, type: detail.type, message: detail.message }))` */
  function Summaries(details: seq<Detail>): (r: seq<DetailSummary>)
    ensures |r| == |details|
    ensures forall i :: 0 <= i < |r| ==>
              r[i].key == details[i].contextKey && r[i].kind == details[i].kind && r[i].message == details[i].message
  {
    seq(|details|, i requires 0 <= i < |details| =>
      DetailSummary(details[i].contextKey, details[i].kind, details[i].message))
  }

  /** How `validationError` ends: it rethrows the error it was given, or returns a fresh one. */
  datatype Exit = RethrowsSame | Returns(error: ErrorValue)

  method ValidationError(error: ErrorObject, dev: bool) returns (r: Exit)
    modifies error
    ensures error.code == ValidationCode && error.status == ValidationStatus
    ensures error.message == NormalizeMessage(old(error.message))
    ensures error.details == old(error.details) && error.others == old(error.others)
    ensures dev ==> r == RethrowsSame
    ensures !dev ==> r == Returns(ErrorValue(error.message, ValidationCode, ValidationStatus,
                                             Some(Summaries(error.details)), []))
  {
    error.code := ValidationCode;
    error.status := ValidationStatus;
    error.message := if error.message != "" then ReplaceQuotes(error.message) else DefaultMessage;
    if dev {
      return RethrowsSame;
    }
    var cleaned := ErrorValue(error.message, error.code, error.status, Some(Summaries(error.details)), []);
    r := Returns(cleaned);
  }

  /** Replacing quotes twice is replacing them once. */
  lemma ReplaceQuotesIdempotent(s: string)
    ensures ReplaceQuotes(ReplaceQuotes(s)) == ReplaceQuotes(s)
  {
  }

  /** Normalising a normalised message leaves it as it is. */
  lemma NormalizeMessageIdempotent(message: string)
    ensures NormalizeMessage(NormalizeMessage(message)) == NormalizeMessage(message)
  {
  }
}

module CustomErrors {
  import opened JsValues
  import opened ErrorShapes

  const DefaultStatus := Num(500.0)

  /** `customError(error)`: the error itself in dev mode, otherwise a fresh error with its message, code and status. */
  function CustomError(error: ErrorValue, dev: bool): (r: ErrorValue)
    ensures dev ==> r == error
    ensures !dev ==> r.message == error.message && r.code == error.code
    ensures !dev ==> r.status == if Truthy(error.status) then error.status else DefaultStatus
    ensures !dev ==> r.details.None? && r.others == []
  {
    if dev then error
    else ErrorValue(error.message, error.code, if Truthy(error.status) then error.status else DefaultStatus, None, [])
  }

  /** Outside dev mode the status is never falsy. */
  lemma CustomErrorStatus(error: ErrorValue)
    ensures Truthy(CustomError(error, false).status)
  {
  }

  /** Cleaning a cleaned error gives it back unchanged. */
  lemma CustomErrorIdempotent(error: ErrorValue, dev: bool)
    ensures CustomError(CustomError(error, dev), dev) == CustomError(error, dev)
  {
  }

  /** A validation error passed on through `customError` outside dev mode loses its details. */
  lemma CustomErrorDropsDetails(error: ErrorValue)
    requires error.details.Some?
    ensures CustomError(error, false).details.None?
    ensures CustomError(error, false).message == error.message
  {
  }

  /**
   * Call sites write `customError(new Error(m), 409)` and
   * `customError(new Error(m), 401)`; the second argument is never read, so
   * the status that reaches the caller is 500.
   */
  lemma CallSiteStatusIgnored(message: string)
    ensures CustomError(NewError(message), false).status == DefaultStatus
    ensures CustomError(NewError(message), false).status != Num(409.0)
    ensures CustomError(NewError(message), false).status != Num(401.0)
  {
  }

  /** `customError(error, status)` as its call sites use it: the error's own status, else the one passed, else 500. */
  function CustomErrorWithStatus(error: ErrorValue, status: Value, dev: bool): (r: ErrorValue)
    ensures dev ==> r == error
    ensures !dev ==> r.message == error.message && r.code == error.code
    ensures !dev ==> r.status == (if Truthy(error.status) then error.status
                                  else if Truthy(status) then status else DefaultStatus)
    ensures !dev ==> r.details.None? && r.others == []
  {
    if dev then error
    else
      var s := if Truthy(error.status) then error.status else if Truthy(status) then status else DefaultStatus;
      ErrorValue(error.message, error.code, s, None, [])
  }

  /** With the status passed through, `customError(new Error(m), 409)` carries 409. */
  lemma CustomErrorWithStatusKeepsCallerStatus(message: string, status: Value)
    requires Truthy(status)
    ensures CustomErrorWithStatus(NewError(message), status, false).status == status
    ensures CustomErrorWithStatus(NewError(message), Undefined, false) == CustomError(NewError(message), false)
  {
  }
}
