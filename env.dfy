/** The parts of a Faraday env the two middlewares read or write: the body,
    the `Content-Type` of the request and of the response headers,
    `raw_body`, and the in-flight response. */
module XmlEnv {
  import opened XmlValues

  /** An env as a value: what the middlewares' transitions are stated on. */
  datatype EnvState = EnvState(
    body: Body,
    requestContentType: Option<string>,
    responseContentType: Option<string>,
    rawBody: Option<string>,
    response: Option<ResponseHandle>)

  /** The env after a middleware step, and whether the step raised. */
  datatype Step = Step(state: EnvState, outcome: Outcome<Error>)

  /** The mutable env object the middlewares update in place. */
  class Env {
    var body: Body
    var requestContentType: Option<string>
    var responseContentType: Option<string>
    var rawBody: Option<string>
    var response: Option<ResponseHandle>

    constructor (s: EnvState)
      ensures State() == s
    {
      body := s.body;
      requestContentType := s.requestContentType;
      responseContentType := s.responseContentType;
      rawBody := s.rawBody;
      response := s.response;
    }

    ghost function State(): EnvState
      reads this
    {
      EnvState(body, requestContentType, responseContentType, rawBody, response)
    }
  }
}
