/**
 * Values shared by every part of the wizard: optional values, and the
 * JavaScript `throw` / `return` distinction of an operation that may fail.
 */
module Common {

  datatype Option<+T> = None | Some(value: T) {
    function GetOr(default: T): T {
      match this
      case Some(v) => v
      case None => default
    }
  }

  /** A thrown JavaScript value: an `Error` instance (any subclass, told apart by
      its `name`) or some other value, which carries no message. */
  datatype Exception = JsError(name: string, message: string) | NonErrorValue

  /** What an operation does: it returns a value or it throws. */
  datatype Outcome<+T> = Returned(value: T) | Threw(exception: Exception)

  /** `throw new Error(message)` */
  function Fail<T>(message: string): Outcome<T> {
    Threw(JsError("Error", message))
  }

  /** `error instanceof Error ? error.message : fallback` */
  function MessageOr(e: Exception, fallback: string): string {
    match e
    case JsError(_, m) => m
    case NonErrorValue => fallback
  }

  /** The value an operation returned, or `None` (the `null` a `catch`
      block returns) when it threw. */
  function ValueOrNull<T>(o: Outcome<T>): (r: Option<T>)
    ensures r.Some? <==> o.Returned?
    ensures r.Some? ==> r.value == o.value
  {
    match o
    case Returned(v) => Some(v)
    case Threw(_) => None
  }

  /** The message a `catch` block records for an operation: none when it
      returned, else the thrown message or `fallback` for a non-`Error`. */
  function CaughtMessage<T>(o: Outcome<T>, fallback: string): (r: Option<string>)
    ensures r.None? <==> o.Returned?
    ensures o.Threw? && o.exception.JsError? ==> r == Some(o.exception.message)
    ensures o.Threw? && o.exception.NonErrorValue? ==> r == Some(fallback)
  {
    match o
    case Returned(_) => None
    case Threw(e) => Some(MessageOr(e, fallback))
  }

  /** JavaScript truthiness of a `string | null | undefined`: present and not empty. */
  predicate Truthy(s: Option<string>) {
    s.Some? && s.value != ""
  }
}
