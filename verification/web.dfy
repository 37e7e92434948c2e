/**
  What the client pages see of the network and what they show: JavaScript
  values in a response body, the outcome of an HTTP request, and toast
  notifications.
*/
module Web {
  import opened Wrappers
  import opened Text

  /** A JavaScript value read from a response body. */
  datatype Json = Undefined | Null | Bool(b: bool) | Num(n: int) | Str(s: string) | Object

  /** JavaScript truthiness. */
  predicate Truthy(v: Json) {
    match v
    case Undefined => false
    case Null => false
    case Bool(b) => b
    case Num(n) => n != 0
    case Str(s) => s != ""
    case Object => true
  }

  /** JavaScript `String(v)`, as string concatenation renders a value. */
  function Render(v: Json): (r: string)
    ensures v.Str? ==> r == v.s
    ensures !v.Str? ==> r != ""
  {
    match v
    case Undefined => "undefined"
    case Null => "null"
    case Bool(b) => if b then "true" else "false"
    case Num(n) => IntToString(n)
    case Str(s) => s
    case Object => "[object Object]"
  }

  /** The fields of a response body the pages read; an absent field is `Undefined`. */
  datatype Body = Body(success: Json, message: Json, token: Json, user: Json)

  /** An HTTP response: its status and body. */
  datatype Response = Response(status: int, data: Body)

  /**
    The settled request: a 2xx response, or a rejection that carries the
    response when the server sent one (a non-2xx status) and none when the
    request never got an answer.
  */
  datatype HttpResult = Answered(data: Body) | Rejected(response: Option<Response>)

  /** The body asserts success with exactly the value `true` (`data.success === true`). */
  predicate Succeeded(data: Body) {
    data.success == Bool(true)
  }

  datatype ToastKind = SuccessToast | ErrorToast

  /** A toast notification and the value it shows. */
  datatype Toast = Toast(kind: ToastKind, content: Json)

  function ErrorText(s: string): Toast {
    Toast(ErrorToast, Str(s))
  }

  /** `a || b`: the first value when truthy, else the second. */
  function Or(a: Json, b: Json): (r: Json)
    ensures Truthy(a) ==> r == a
    ensures !Truthy(a) ==> r == b
  {
    if Truthy(a) then a else b
  }
}
