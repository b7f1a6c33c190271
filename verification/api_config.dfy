/** The client's HTTP instance: default headers, the request interceptor
    that attaches the bearer token, and the response interceptor that drops
    the token on a 401. The network itself is the `transport` parameter: it
    answers a path and the outgoing headers with a response, or with an
    error for a failed or non-2xx exchange. */
module ApiConfig {
  import opened Common
  import SecureStorage

  /** The parsed JSON body of a response: its `message` field, if it is a
      string, and the rest of its fields. */
  datatype ResponseData = ResponseData(message: Option<string>, fields: map<string, string>)

  datatype HttpResponse = HttpResponse(status: int, data: ResponseData)

  /** A rejected request: the error's own message and, when the server
      answered, its response. */
  datatype HttpError = HttpError(message: string, response: Option<HttpResponse>)

  type Headers = map<string, string>

  /** The headers every request starts with. */
  const DefaultHeaders: Headers := map["Content-Type" := "application/json"]

  /** `error.response?.status === 401`. */
  predicate Is401(e: HttpError)
  {
    e.response.Some? && e.response.value.status == 401
  }

  /** The headers a request leaves with, given what the token slot held. */
  function OutgoingHeaders(token: Option<string>): (h: Headers)
    ensures forall k :: k in DefaultHeaders ==> k in h && h[k] == DefaultHeaders[k]
    ensures "Authorization" in h <==> TruthyString(token)
  {
    if TruthyString(token) then DefaultHeaders["Authorization" := "Bearer " + token.value] else DefaultHeaders
  }

  /** A request always declares JSON, and carries `Bearer <token>` exactly
      when the slot holds a non-empty token. */
  lemma OutgoingHeadersShape(token: Option<string>)
    ensures "Content-Type" in OutgoingHeaders(token)
    ensures OutgoingHeaders(token)["Content-Type"] == "application/json"
    ensures "Authorization" in OutgoingHeaders(token) <==> TruthyString(token)
    ensures TruthyString(token) ==> OutgoingHeaders(token)["Authorization"] == "Bearer " + token.value
    ensures |OutgoingHeaders(token)| == if TruthyString(token) then 2 else 1
  {
    if TruthyString(token) {
      assert OutgoingHeaders(token).Keys == {"Content-Type", "Authorization"};
    }
  }

  /** The request config an interceptor receives and may change. */
  class RequestConfig {
    const url: string
    var headers: Headers

    constructor (url: string)
      ensures this.url == url && headers == DefaultHeaders
    {
      this.url := url;
      headers := DefaultHeaders;
    }
  }

  /** The request interceptor: with a truthy token, set the Authorization
      header; otherwise leave the config as it is. */
  method AttachToken(config: RequestConfig, slot: SecureStorage.TokenSlot)
    modifies config
    ensures TruthyString(slot.token) ==>
      config.headers == old(config.headers)["Authorization" := "Bearer " + slot.token.value]
    ensures !TruthyString(slot.token) ==> config.headers == old(config.headers)
  {
    var token := slot.Get();
    if token.Some? && token.value != "" {
      config.headers := config.headers["Authorization" := "Bearer " + token.value];
    }
  }

  /** The response interceptor's error handler: on a 401, empty the token
      slot; in every case reject with the same error. */
  method OnResponseError(e: HttpError, slot: SecureStorage.TokenSlot) returns (rejected: HttpError)
    modifies slot
    ensures rejected == e
    ensures Is401(e) ==> slot.token == None
    ensures !Is401(e) ==> slot.token == old(slot.token)
  {
    if e.response.Some? && e.response.value.status == 401 {
      slot.Delete();
    }
    rejected := e;
  }

  /** One request through the instance: default headers, the request
      interceptor, the exchange, then the response interceptor (which passes
      a successful response through unchanged). */
  method Send(path: string, slot: SecureStorage.TokenSlot, transport: (string, Headers) -> Result<HttpResponse, HttpError>)
    returns (r: Result<HttpResponse, HttpError>)
    modifies slot
    ensures r == transport(path, OutgoingHeaders(old(slot.token)))
    ensures r.Err? && Is401(r.error) ==> slot.token == None
    ensures !(r.Err? && Is401(r.error)) ==> slot.token == old(slot.token)
  {
    var config := new RequestConfig(path);
    AttachToken(config, slot);
    r := transport(config.url, config.headers);
    if r.Err? {
      var e := OnResponseError(r.error, slot);
      r := Err(e);
    }
  }
}
