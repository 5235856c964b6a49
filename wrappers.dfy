/** Option and Result, the failure-carrying wrappers the rest of the model uses. */
module Wrappers {

  datatype Option<+T> = None | Some(value: T) {
    function GetOr(default: T): T {
      match this
      case Some(v) => v
      case None => default
    }
  }

  datatype Result<+T, +E> = Ok(value: T) | Err(error: E)
}

/** Values of the JavaScript runtime that the source's branches look at. */
module Js {
  import opened Wrappers
  import opened Strings

  /** What a `throw` carries: an `Error` object with its message, or any other value. */
  datatype Thrown = ErrorObject(message: string) | NonError

  /** `error instanceof Error ? error.message : fallback` */
  function MessageOr(e: Thrown, fallback: string): string {
    match e
    case ErrorObject(m) => m
    case NonError => fallback
  }

  /** An integral JavaScript number, or NaN (what parseInt yields for a string without digits). */
  datatype JsNumber = Int(value: int) | NaN

  /** `n + 1`; NaN stays NaN. */
  function Increment(n: JsNumber): (r: JsNumber)
    ensures r.Int? <==> n.Int?
    ensures n.Int? ==> r.value == n.value + 1
  {
    match n
    case Int(v) => Int(v + 1)
    case NaN => NaN
  }

  /** `n.toString()` */
  function NumberToString(n: JsNumber): string {
    match n
    case Int(v) => IntToString(v)
    case NaN => "NaN"
  }

  /** `parseInt(s, 10)` as a number. */
  function ParseIntNumber(s: string): JsNumber {
    match ParseInt(s)
    case Some(v) => Int(v)
    case None => NaN
  }

  /** Whatever a number turns into as a string, parseInt turns back into that number. */
  lemma ParseIntNumberToString(n: JsNumber)
    ensures ParseIntNumber(NumberToString(n)) == n
  {
    match n
    case Int(v) => ParseIntOfIntToString(v);
    case NaN =>
      var s := NumberToString(n);
      assert s[0] == 'N' && !IsJsWhitespace(s[0]) && !IsDigit(s[0]);
      assert TrimStart(s) == s;
  }

  /** The end index `slice(0, end)` uses on an array of length `len`: negative ends count from the back. */
  function SliceEnd(len: nat, end: int): (k: nat)
    ensures k <= len
    ensures 0 <= end ==> k == if end < len then end else len
    ensures end < 0 ==> k == if len + end < 0 then 0 else len + end
  {
    if end < 0 then (if len + end < 0 then 0 else len + end)
    else if end < len then end else len
  }
}
