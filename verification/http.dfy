/** What the client sees of a `fetch` call, with the network and JSON
    decoding abstracted away. */
module Http {
  import opened Wrappers
  import opened Text

  /** A status for which `response.ok` is false (anything outside 200..299). */
  type FailureStatus = c: int | !(200 <= c < 300) witness 404

  /** The body of a failed response as `await response.json()` sees it: a
      JSON object whose `message` field may be missing, or text that does not
      parse, in which case `json()` throws an error carrying `reason`. */
  datatype ErrorBody = Json(message: Option<string>) | Malformed(reason: string)

  /** The outcome of one request:
      - `Ok`: a 2xx response whose JSON body decoded to `payload`;
      - `Failed`: a non-2xx response;
      - `Thrown`: the request itself failed, or a 2xx body did not decode;
        `reason` is the thrown error's `message`. */
  datatype Response<T> =
    | Ok(payload: T)
    | Failed(status: FailureStatus, body: ErrorBody)
    | Thrown(reason: string)
  {
    predicate IsNotFound() {
      Failed? && status == 404
    }
  }

  /** The message a form shows for a failed response:
      `(await response.json()).message || fallback`, or the parse error's
      own message when the body is not JSON. */
  function FailureMessage(body: ErrorBody, fallback: string): (m: string)
    ensures body.Malformed? ==> m == body.reason
    ensures body.Json? && Truthy(body.message) ==> m == body.message.value
    ensures body.Json? && !Truthy(body.message) ==> m == fallback
  {
    match body
    case Malformed(reason) => reason
    case Json(message) => if Truthy(message) then message.value else fallback
  }

  /** The error message a mutating call surfaces, if any: `None` on success. */
  function MutationError<T>(resp: Response<T>, fallback: string): (e: Option<string>)
    ensures e.None? <==> resp.Ok?
    ensures resp.Failed? ==> e == Some(FailureMessage(resp.body, fallback))
    ensures resp.Thrown? ==> e == Some(resp.reason)
  {
    match resp
    case Ok(_) => None
    case Failed(_, body) => Some(FailureMessage(body, fallback))
    case Thrown(reason) => Some(reason)
  }

  datatype Method = Get | Post | Patch

  /** A request as the client issues it: method, path below the API base URL,
      and JSON body. */
  datatype Request<B> = Request(verb: Method, path: string, body: Option<B>)
}
