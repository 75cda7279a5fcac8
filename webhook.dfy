/** The HTTP answer of the Cloud Functions entry point. The LINE SDK's
    signature check and event dispatch are not visible; their outcome is an
    input. */
module Webhook {

  /** How the SDK's handling of the request body ended. */
  datatype HandleOutcome =
    | Handled            // signature accepted, every event handler returned without an exception
    | InvalidSignature   // the SDK rejected the signature
    | LineApiError       // a LINE API error escaped the handlers

  datatype Response = Response(body: string, status: int)

  /** The response for a request with the given HTTP method, when the SDK's
      handling of the body ends with `outcome`. */
  function Respond(httpMethod: string, outcome: HandleOutcome): (r: Response)
    ensures r.status in {200, 400, 405, 500}
    ensures r.status == 405 <==> httpMethod != "POST"
    ensures r.status == 400 <==> httpMethod == "POST" && outcome == InvalidSignature
    ensures r.status == 500 <==> httpMethod == "POST" && outcome == LineApiError
    ensures r.status == 200 <==> httpMethod == "POST" && outcome == Handled
    ensures r.status == 405 ==> r.body == "Only POST requests are allowed"
    ensures r.status == 400 ==> r.body == "Invalid signature"
    ensures r.status == 500 ==> r.body == "LINE API error"
    ensures r.status == 200 ==> r.body == "OK"
  {
    if httpMethod != "POST" then Response("Only POST requests are allowed", 405)
    else match outcome
      case InvalidSignature => Response("Invalid signature", 400)
      case LineApiError => Response("LINE API error", 500)
      case Handled => Response("OK", 200)
  }

  /** A request that is not a POST is answered without looking at the body:
      the answer is the same whatever the handling would have produced. */
  lemma NonPostNeverReachesHandler(httpMethod: string, o1: HandleOutcome, o2: HandleOutcome)
    requires httpMethod != "POST"
    ensures Respond(httpMethod, o1) == Respond(httpMethod, o2)
    ensures Respond(httpMethod, o1).status == 405
  {
  }

  /** Each status comes with one fixed message. */
  lemma StatusDeterminesBody(m1: string, o1: HandleOutcome, m2: string, o2: HandleOutcome)
    requires Respond(m1, o1).status == Respond(m2, o2).status
    ensures Respond(m1, o1) == Respond(m2, o2)
  {
  }
}
