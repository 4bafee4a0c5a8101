/**
 The Spectrum Virtualize (SVC) array mediator of pkg/arrayactions/svc.go. It talks to the
 array's REST API at `https://<array>:7443/rest/<endpoint>`, authenticates with a token it
 obtains from the `auth` endpoint, and on a 403 answer (the array's way of saying that the
 token is missing or stale) fetches a new token and sends the request once more.

 The REST client is a Transport (see RestClient); `tokenIn` gives the Token field decoded
 from the body of a successful `auth` reply. The mediator records the requests it hands to
 the client in `sent`, in order.
 */
module SvcMediator {
  import opened Wrappers
  import opened Strings
  import opened RestClient

  const SvcPort := "7443"
  const BaseUrl := "rest"

  /** The errors the mediator returns: the client's error, a request answered with a
      status outside 2xx, or a failed token request. */
  datatype MediatorError =
    | ClientError(msg: string)
    | RequestFailed(statusCode: int, reason: string)
    | TokenFailed(statusCode: int, reason: string)

  function BuildUrl(arrayAddress: string, endpoint: string): string {
    "https://" + arrayAddress + ":" + SvcPort + "/" + BaseUrl + "/" + endpoint
  }

  /** The URL names the array first and the endpoint last, on port 7443 under /rest. */
  lemma UrlShape(arrayAddress: string, endpoint: string)
    ensures var url := BuildUrl(arrayAddress, endpoint);
            var tail := ":7443/rest/" + endpoint;
            && HasPrefix(url, "https://" + arrayAddress)
            && |url| == |"https://" + arrayAddress| + |tail|
            && url[|"https://" + arrayAddress|..] == tail
  {
    var head := "https://" + arrayAddress;
    var tail := ":7443/rest/" + endpoint;
    assert BuildUrl(arrayAddress, endpoint) == head + tail;
  }

  /** getHeaders: JSON both ways, and the token when there is one. */
  function HeadersFor(token: string): (h: map<string, string>)
    ensures "Content-Type" in h && h["Content-Type"] == "application/json"
    ensures "Accept" in h && h["Accept"] == "application/json"
    ensures "X-Auth-Token" in h <==> token != ""
    ensures "X-Auth-Token" in h ==> h["X-Auth-Token"] == token
    ensures h.Keys <= {"Content-Type", "Accept", "X-Auth-Token"}
  {
    var h := map["Content-Type" := "application/json", "Accept" := "application/json"];
    if token != "" then h["X-Auth-Token" := token] else h
  }

  /** call: (authorized, error) for a response. */
  function CallOutcome(r: Response): (Option<MediatorError>, bool) {
    if r.error.Some? then (Some(ClientError(r.error.value)), true)
    else if !IsSuccessful(r) then (Some(RequestFailed(r.statusCode, r.rawContent)), !IsForbidden(r))
    else (None, true)
  }

  /** A call reports "unauthorized" only for a 403 that came without a client error, and it
      succeeds exactly on a 2xx answer without a client error. */
  lemma CallOutcomeMeaning(r: Response)
    ensures !CallOutcome(r).1 <==> r.error.None? && r.statusCode == 403
    ensures CallOutcome(r).0.None? <==> r.error.None? && 200 <= r.statusCode < 300
    ensures !CallOutcome(r).1 ==> CallOutcome(r).0 == Some(RequestFailed(403, r.rawContent))
  {
  }

  /** The requests the client sends for NewRequest: one for a known method, none otherwise. */
  function Sent(verb: string, url: string, headers: map<string, string>, body: map<string, string>): seq<Request> {
    if verb == GET || verb == POST || verb == DELETE then
      [Request(verb, url, headers, if verb == POST then Some(body) else None)]
    else []
  }

  /** setToken's request: the token-less headers plus the credentials, POSTed to `auth`
      with a nil body (the empty map here). */
  function AuthRequest(arrayAddress: string, username: string, password: string): Request {
    Request(POST, BuildUrl(arrayAddress, "auth"),
            HeadersFor("")["X-Auth-Username" := username]["X-Auth-Password" := password],
            Some(map[]))
  }

  /** setToken: the new token and the error, for the `auth` response. */
  function TokenOutcome(r: Response, tokenIn: string -> string): (string, Option<MediatorError>) {
    if r.error.Some? then ("", Some(ClientError(r.error.value)))
    else if !IsSuccessful(r) then ("", Some(TokenFailed(r.statusCode, r.rawContent)))
    else (tokenIn(r.rawContent), None)
  }

  /** The token after an exchange, the requests sent, and the error returned. */
  datatype Exchange = Exchange(token: string, sent: seq<Request>, err: Option<MediatorError>)

  /** callAndRetryIfUnauthorized: call with the current token; on "unauthorized" get a new
      token and, if that worked, call once more and return that call's error whatever its
      status. */
  function RetryExchange(arrayAddress: string, username: string, password: string, transport: Transport,
                         tokenIn: string -> string, token: string,
                         verb: string, url: string, body: map<string, string>): Exchange
  {
    var first := NewRequest(transport, verb, url, HeadersFor(token), body);
    var s1 := Sent(verb, url, HeadersFor(token), body);
    if CallOutcome(first).1 then Exchange(token, s1, CallOutcome(first).0)
    else
      var auth := AuthRequest(arrayAddress, username, password);
      var (tok, terr) := TokenOutcome(transport(auth), tokenIn);
      if terr.Some? then Exchange("", s1 + [auth], terr)
      else
        var second := NewRequest(transport, verb, url, HeadersFor(tok), body);
        Exchange(tok, s1 + [auth] + Sent(verb, url, HeadersFor(tok), body), CallOutcome(second).0)
  }

  /** The request is retried at most once: an authorized first answer ends the exchange with
      the token unchanged; otherwise a token request follows, and the request is repeated
      (with the new token) only when the token was obtained, and a second 403 is returned
      as an error instead of being retried. A failed token request leaves no token. */
  lemma RetryAtMostOnce(arrayAddress: string, username: string, password: string, transport: Transport,
                        tokenIn: string -> string, token: string,
                        verb: string, url: string, body: map<string, string>)
    requires verb == GET || verb == POST || verb == DELETE
    ensures var x := RetryExchange(arrayAddress, username, password, transport, tokenIn, token, verb, url, body);
            var first := transport(Request(verb, url, HeadersFor(token), if verb == POST then Some(body) else None));
            && 1 <= |x.sent| <= 3
            && x.sent[0].url == url && x.sent[0].headers == HeadersFor(token)
            && (first.error.Some? || first.statusCode != 403 <==> |x.sent| == 1)
            && (|x.sent| == 1 ==> x.token == token)
            && (|x.sent| >= 2 ==> x.sent[1] == AuthRequest(arrayAddress, username, password))
            && (|x.sent| == 2 ==> x.token == "" && x.err.Some?)
            && (|x.sent| == 3 ==> x.sent[2].url == url && x.sent[2].headers == HeadersFor(x.token))
  {
    NewRequestDispatch(transport, verb, url, HeadersFor(token), body);
    var first := NewRequest(transport, verb, url, HeadersFor(token), body);
    CallOutcomeMeaning(first);
  }

  /** The CreateHost body: the name, type `generic`, and the FC ports (comma-joined) when
      there are any, otherwise the iSCSI names. */
  function CreateHostBody(name: string, iscsiPorts: seq<string>, fcPorts: seq<string>): map<string, string> {
    var body := map["name" := name, "type" := "generic"];
    if |fcPorts| > 0 then body["fcwwpn" := Join(fcPorts, ",")]
    else body["iscsiname" := Join(iscsiPorts, ",")]
  }

  /** The body carries exactly one kind of port, FC when there are FC ports. */
  lemma CreateHostBodyShape(name: string, iscsiPorts: seq<string>, fcPorts: seq<string>)
    ensures var b := CreateHostBody(name, iscsiPorts, fcPorts);
            && "name" in b && b["name"] == name && "type" in b && b["type"] == "generic"
            && ("fcwwpn" in b <==> |fcPorts| > 0)
            && ("iscsiname" in b <==> |fcPorts| == 0)
            && b.Keys == {"name", "type", if |fcPorts| > 0 then "fcwwpn" else "iscsiname"}
  {
  }

  class Mediator {
    const arrayAddress: string
    const username: string
    const password: string
    const transport: Transport
    const tokenIn: string -> string
    var token: string
    var sent: seq<Request>

    constructor (arrayAddress: string, username: string, password: string,
                 transport: Transport, tokenIn: string -> string)
      ensures this.arrayAddress == arrayAddress && this.username == username && this.password == password
      ensures this.transport == transport && this.tokenIn == tokenIn
      ensures token == "" && sent == []
    {
      this.arrayAddress, this.username, this.password := arrayAddress, username, password;
      this.transport, this.tokenIn := transport, tokenIn;
      token, sent := "", [];
    }

    method ClearToken()
      modifies this
      ensures token == "" && sent == old(sent)
    {
      token := "";
    }

    method SetToken() returns (err: Option<MediatorError>)
      modifies this
      ensures sent == old(sent) + [AuthRequest(arrayAddress, username, password)]
      ensures (token, err) == TokenOutcome(transport(AuthRequest(arrayAddress, username, password)), tokenIn)
    {
      ClearToken();
      var url := BuildUrl(arrayAddress, "auth");
      var headers := HeadersFor(token);
      headers := headers["X-Auth-Username" := username];
      headers := headers["X-Auth-Password" := password];
      var req := Request(POST, url, headers, Some(map[]));
      var res := transport(req);
      sent := sent + [req];
      if res.error.Some? {
        return Some(ClientError(res.error.value));
      } else if !IsSuccessful(res) {
        return Some(TokenFailed(res.statusCode, res.rawContent));
      }
      token := tokenIn(res.rawContent);
      return None;
    }

    method Call(verb: string, url: string, headers: map<string, string>, body: map<string, string>)
      returns (authorized: bool, err: Option<MediatorError>)
      modifies this
      ensures token == old(token)
      ensures sent == old(sent) + Sent(verb, url, headers, body)
      ensures (err, authorized) == CallOutcome(NewRequest(transport, verb, url, headers, body))
    {
      authorized := true;
      var res := NewRequest(transport, verb, url, headers, body);
      sent := sent + Sent(verb, url, headers, body);
      if res.error.Some? {
        return authorized, Some(ClientError(res.error.value));
      } else {
        if !IsSuccessful(res) {
          err := Some(RequestFailed(res.statusCode, res.rawContent));
          if IsForbidden(res) {
            authorized := false;
          }
          return authorized, err;
        }
      }
      return authorized, None;
    }

    method CallAndRetryIfUnauthorized(verb: string, url: string, body: map<string, string>)
      returns (err: Option<MediatorError>)
      modifies this
      ensures var x := RetryExchange(arrayAddress, username, password, transport, tokenIn, old(token), verb, url, body);
              token == x.token && sent == old(sent) + x.sent && err == x.err
    {
      var headers := HeadersFor(token);
      var authorized, e := Call(verb, url, headers, body);
      if !authorized {
        var te := SetToken();
        if te.Some? {
          return te;
        }
        headers := HeadersFor(token);
        var _, e2 := Call(verb, url, headers, body);
        if e2.Some? {
          return e2;
        }
      } else if e.Some? {
        return e;
      }
      return None;
    }

    method CreateHost(name: string, iscsiPorts: seq<string>, fcPorts: seq<string>)
      returns (err: Option<MediatorError>)
      modifies this
      ensures var x := RetryExchange(arrayAddress, username, password, transport, tokenIn, old(token),
                                     POST, BuildUrl(arrayAddress, "mkhost"), CreateHostBody(name, iscsiPorts, fcPorts));
              token == x.token && sent == old(sent) + x.sent && err == x.err
    {
      var url := BuildUrl(arrayAddress, "mkhost");
      var body := map["name" := name, "type" := "generic"];
      if |fcPorts| > 0 {
        body := body["fcwwpn" := Join(fcPorts, ",")];
      } else {
        body := body["iscsiname" := Join(iscsiPorts, ",")];
      }
      err := CallAndRetryIfUnauthorized(POST, url, body);
    }
  }
}
