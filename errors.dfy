/**
 * `EvalAltResult` of src/types/error.rs: the error type of the embedding API,
 * its `Display` text, its conversion from strings and its catchability.
 * The boxed inner error of `ErrorSystem` is kept as the text it displays.
 */
module Errors {
  import opened Text

  datatype EvalAltResult =
    | ErrorSystem(message: string, inner: string)
    | ErrorRuntime(message: string, detail: string)

  /** `RhaiResultOf<T>`. */
  datatype ResultOf<+T> = Ok(value: T) | Err(error: EvalAltResult)

  /** The displayed text that follows the message. */
  function Cause(e: EvalAltResult): string {
    match e
    case ErrorSystem(_, inner) => inner
    case ErrorRuntime(_, detail) => detail
  }

  /** `Display::fmt`: the message, `": "` and the cause, except that an `ErrorSystem`
      with an empty message shows only its inner error. */
  function Display(e: EvalAltResult): (r: string)
    ensures IsSuffix(Cause(e), r)
    ensures e.ErrorSystem? && e.message == "" ==> |r| == |Cause(e)|
    ensures !(e.ErrorSystem? && e.message == "") ==>
      |r| == |e.message| + 2 + |Cause(e)| && r[..|e.message|] == e.message
      && r[|e.message|..|e.message| + 2] == ": "
  {
    match e
    case ErrorSystem(s, err) => if s == "" then err else s + ": " + err
    case ErrorRuntime(s, err) => s + ": " + err
  }

  /** `is_catchable`: system errors cannot be caught, runtime errors can. */
  predicate IsCatchable(e: EvalAltResult) {
    match e
    case ErrorSystem(_, _) => false
    case ErrorRuntime(_, _) => true
  }

  /** `From<T: AsRef<str>>` (and its boxed form): a runtime error carrying the text twice. */
  function FromString(text: string): (e: EvalAltResult)
    ensures e.ErrorRuntime? && e.message == text && Cause(e) == text
  {
    ErrorRuntime(text, text)
  }

  /** A converted string is catchable and displays as `"<text>: <text>"`. */
  lemma FromStringIsCatchable(text: string)
    ensures IsCatchable(FromString(text))
    ensures Display(FromString(text)) == text + ": " + text
  {
  }

  /** Two errors with the same message and cause display alike whatever their kind,
      unless the message is empty: the text does not tell the kinds apart. */
  lemma DisplayForgetsKind(message: string, cause: string)
    requires message != ""
    ensures Display(ErrorSystem(message, cause)) == Display(ErrorRuntime(message, cause))
    ensures IsCatchable(ErrorRuntime(message, cause)) != IsCatchable(ErrorSystem(message, cause))
  {
  }
}
