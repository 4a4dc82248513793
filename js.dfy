/** JavaScript value conventions shared by both route handlers. */
module Js {

  /** A value that may be `undefined`/`null`. */
  datatype Option<+T> = None | Some(value: T)

  /** JavaScript truthiness of a value that is either absent or a string:
      `undefined` and `""` are falsy, every other string is truthy. */
  predicate Truthy(o: Option<string>) {
    o.Some? && o.value != ""
  }

  /** `a || b` on two possibly-absent strings: the first operand when it is
      truthy, otherwise the second one, whatever it is. */
  function Or(a: Option<string>, b: Option<string>): (r: Option<string>)
    ensures Truthy(r) <==> Truthy(a) || Truthy(b)
    ensures Truthy(a) ==> r == a
    ensures !Truthy(a) ==> r == b
  {
    if Truthy(a) then a else b
  }

  /** A thrown value: an `Error` instance carries a message, anything else does not. */
  datatype Thrown = ErrorValue(message: string) | OtherValue

  /** The outcome of an awaited call: it either returns a value or rejects. */
  datatype Attempt<+T> = Returned(value: T) | Threw(thrown: Thrown)

  const UnknownErrorMessage := "Erreur inconnue"

  /** The message the handlers' catch-all puts in its 500 response: a thrown
      `Error` is reported by its own message, unchanged; any other message seen
      by the client is the fixed one, so it never invents a text. */
  function CaughtMessage(t: Thrown): (m: string)
    ensures t.ErrorValue? ==> m == t.message
    ensures m != UnknownErrorMessage ==> t == ErrorValue(m)
  {
    match t
    case ErrorValue(message) => message
    case OtherValue => UnknownErrorMessage
  }
}
