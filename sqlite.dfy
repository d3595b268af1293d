/**
 * The types of the SQLite connector the service is written against: the
 * value of one column as a cursor yields it, the connector's error record
 * with its `Display` text, and the result type every store operation
 * returns.
 */
module Sqlite {

  datatype Option<+T> = None | Some(value: T)

  /** One column of a fetched row.  The schema and the statements of the
      service only ever store NULL, integers and text. */
  datatype Value = Null | Integer(i: int) | Text(s: string)

  /** `Value::as_string`: the text of a text column, nothing otherwise. */
  function AsString(v: Value): (r: Option<string>)
    ensures r.Some? <==> v.Text?
    ensures r.Some? ==> r.value == v.s
  {
    if v.Text? then Some(v.s) else None
  }

  /** `Value::as_integer`: the integer of an integer column, nothing otherwise. */
  function AsInteger(v: Value): (r: Option<int>)
    ensures r.Some? <==> v.Integer?
    ensures r.Some? ==> r.value == v.i
  {
    if v.Integer? then Some(v.i) else None
  }

  /** `Option::unwrap_or_default` on text. */
  function OrEmpty(o: Option<string>): string
  {
    if o.Some? then o.value else ""
  }

  /** `Option::unwrap_or_default` on an integer. */
  function OrZero(o: Option<int>): int
  {
    if o.Some? then o.value else 0
  }

  /** The connector's error: an optional SQLite result code and an optional message. */
  datatype Error = Error(code: Option<int>, message: Option<string>)

  /** The connector's `Result<T>`, failure-compatible so that `:-` plays Rust's `?`. */
  datatype Result<+T> = Ok(value: T) | Err(error: Error) {
    predicate IsFailure() {
      Err?
    }

    function PropagateFailure<U>(): Result<U>
      requires Err?
    {
      Err(error)
    }

    function Extract(): T
      requires Ok?
    {
      value
    }
  }

  /** `Option::ok_or`: a missing value becomes the given error. */
  function OkOr<T>(o: Option<T>, e: Error): (r: Result<T>)
    ensures r.Ok? <==> o.Some?
    ensures r.Ok? ==> r.value == o.value
    ensures r.Err? ==> r.error == e
  {
    if o.Some? then Ok(o.value) else Err(e)
  }

  /** The decimal digits of a natural number. */
  function Digits(n: nat): (s: string)
    ensures |s| > 0
    ensures forall k :: 0 <= k < |s| ==> '0' <= s[k] <= '9'
    decreases n
  {
    (if n < 10 then "" else Digits(n / 10)) + [('0' as int + n % 10) as char]
  }

  /** An integer written in decimal, with a leading '-' when negative. */
  function Decimal(n: int): string
  {
    if n < 0 then "-" + Digits(-n) else Digits(n)
  }

  /** The error's `Display` text, which `to_string` yields: the message, followed
      by the result code when the error carries one. */
  function ErrorText(e: Error): (t: string)
    ensures e.code.None? && e.message.Some? ==> t == e.message.value
    ensures e.code.Some? ==> |t| > 0
  {
    match (e.code, e.message)
    case (Some(c), Some(m)) => m + " (code " + Decimal(c) + ")"
    case (Some(c), None) => "an SQLite error (code " + Decimal(c) + ")"
    case (None, Some(m)) => m
    case (None, None) => "an SQLite error"
  }
}
