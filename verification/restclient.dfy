/**
 The REST client of pkg/restclient/client.go: the response status classes (section 15 of
 RFC 9110: 2xx successful, 401 Unauthorized, 403 Forbidden), the dispatch of NewRequest on
 the method name, and setContent, which fills a response from an HTTP reply.

 The HTTP round trip itself (building the request, TLS, sending, JSON encoding and decoding)
 is a parameter: a Transport gives the Response that Get, Post or Delete return for a
 request.
 */
module RestClient {
  import opened Wrappers

  const GET := "GET"
  const POST := "POST"
  const DELETE := "DELETE"

  datatype Response = Response(statusCode: int, error: Option<string>, rawContent: string)

  /** The zero Response of Go. */
  const ZeroResponse := Response(0, None, "")

  predicate IsSuccessful(r: Response) {
    200 <= r.statusCode < 300
  }

  predicate IsUnauthorized(r: Response) {
    r.statusCode == 401
  }

  predicate IsForbidden(r: Response) {
    r.statusCode == 403
  }

  /** At most one of the three classes applies to a response. */
  lemma StatusClassesExclusive(r: Response)
    ensures !(IsSuccessful(r) && IsUnauthorized(r))
    ensures !(IsSuccessful(r) && IsForbidden(r))
    ensures !(IsUnauthorized(r) && IsForbidden(r))
  {
  }

  /** A request as Get, Post and Delete send it; only Post has a body. */
  datatype Request = Request(verb: string, url: string, headers: map<string, string>, body: Option<map<string, string>>)

  type Transport = Request -> Response

  /** NewRequest: GET, POST and DELETE go to Get, Post and Delete; any other method gives
      the zero Response without sending anything. */
  function NewRequest(transport: Transport, verb: string, url: string,
                      headers: map<string, string>, body: map<string, string>): (r: Response)
  {
    if verb == GET then transport(Request(GET, url, headers, None))
    else if verb == POST then transport(Request(POST, url, headers, Some(body)))
    else if verb == DELETE then transport(Request(DELETE, url, headers, None))
    else ZeroResponse
  }

  /** Only a POST sends the body, every request keeps its verb, URL and headers, and an
      unknown method gives a response that is neither successful nor carries an error. */
  lemma NewRequestDispatch(transport: Transport, verb: string, url: string,
                           headers: map<string, string>, body: map<string, string>)
    ensures verb == GET || verb == POST || verb == DELETE ==>
              NewRequest(transport, verb, url, headers, body)
                == transport(Request(verb, url, headers, if verb == POST then Some(body) else None))
    ensures !(verb == GET || verb == POST || verb == DELETE) ==>
              var r := NewRequest(transport, verb, url, headers, body);
              !IsSuccessful(r) && !IsForbidden(r) && !IsUnauthorized(r) && r.error.None?
  {
  }

  /** What the HTTP layer hands to setContent: the status code and the body as read, or
      the error of reading it. */
  datatype HttpReply = HttpReply(statusCode: int, body: Option<string>, readError: string)

  /** The response setContent produces from `prior`: the status code always, then either
      the read error, or the body and, for a successful response with exactly one decoding
      target, the outcome of decoding into it. */
  function Content(prior: Response, reply: HttpReply, into: nat, unmarshalError: Option<string>): Response {
    var withStatus := prior.(statusCode := reply.statusCode);
    if reply.body.None? then withStatus.(error := Some(reply.readError))
    else
      var withBody := withStatus.(rawContent := reply.body.value);
      if IsSuccessful(withBody) && into == 1 then withBody.(error := unmarshalError) else withBody
  }

  /** The response under construction in Get and Post. */
  class ResponseBuilder {
    var result: Response

    constructor ()
      ensures result == ZeroResponse
    {
      result := ZeroResponse;
    }

    method SetContent(reply: HttpReply, into: nat, unmarshalError: Option<string>)
      modifies this
      ensures result == Content(old(result), reply, into, unmarshalError)
    {
      result := result.(statusCode := reply.statusCode);
      if reply.body.None? {
        result := result.(error := Some(reply.readError));
        return;
      } else {
        result := result.(rawContent := reply.body.value);
      }
      if IsSuccessful(result) && into == 1 {
        result := result.(error := unmarshalError);
      }
    }
  }

  /** The body is decoded only for a successful reply that was read and has exactly one
      decoding target; otherwise the prior error stays unless reading failed. */
  lemma ContentDecodesOnlyOnSuccess(prior: Response, reply: HttpReply, into: nat, unmarshalError: Option<string>)
    ensures var r := Content(prior, reply, into, unmarshalError);
            && r.statusCode == reply.statusCode
            && (reply.body.None? ==> r.error == Some(reply.readError) && r.rawContent == prior.rawContent)
            && (reply.body.Some? ==> r.rawContent == reply.body.value)
            && (reply.body.Some? && 200 <= reply.statusCode < 300 && into == 1 ==> r.error == unmarshalError)
            && (reply.body.Some? && !(200 <= reply.statusCode < 300 && into == 1) ==> r.error == prior.error)
  {
  }
}
