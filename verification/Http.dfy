/**
 * What the two serverless handlers (`api/plan.js`, `api/chat.js`) share:
 * the request and response shapes, the outcome of the `fetch` to the
 * completion service (an input here, never performed), and the fixed
 * answers for preflight and wrong-method requests.
 */
module Http {
  import opened Text
  import opened Json

  datatype Request<B> = Request(verb: string, body: Option<B>)

  /** A status and a JSON body; `body == None` is `res.status(..).end()`. */
  datatype Response = Response(status: nat, body: Option<JValue>)

  /** What awaiting `fetch(...)` and `response.json()` produced. */
  datatype Upstream =
    | Threw(errorType: string, message: string)
    | Answered(ok: bool, status: nat, statusText: string, content: Option<string>)

  /** A handled request: the response, and the messages sent to the completion service if it was called. */
  datatype Handled = Handled(response: Response, sent: Option<seq<JValue>>)

  /** `OPTIONS`: 200, no body, nothing else done. */
  const Preflight: Handled := Handled(Response(200, None), None)

  /** Any method other than `OPTIONS` and `POST`. */
  const MethodNotAllowed: Handled := Handled(Response(405, Some(ErrorBody("Method not allowed"))), None)

  /** The message of the error thrown for a non-ok completion response. */
  function UpstreamErrorMessage(status: nat, statusText: string): string {
    "OpenAI API error: " + NatToString(status) + " " + statusText
  }

  /** The method dispatch both handlers start with; `None` means "go on with the POST". */
  function Dispatch(verb: string): (r: Option<Handled>)
    ensures verb == "OPTIONS" ==> r == Some(Preflight)
    ensures verb != "OPTIONS" && verb != "POST" ==> r == Some(MethodNotAllowed)
    ensures verb == "POST" <==> r.None?
  {
    if verb == "OPTIONS" then Some(Preflight)
    else if verb != "POST" then Some(MethodNotAllowed)
    else None
  }
}
