/** `_get_twiml_from_client` in vxtwinio/twilio_api.py: fetch a session's call
    markup over HTTP, once from the primary endpoint and, when that answers
    outside 2xx, once more from the fallback, then parse whatever came back.

    The HTTP exchange is a parameter: a function from the request made to the
    reply received. Replies carry their body already read as an XML tree, or
    `None` when the body is not well-formed XML. */
module Fetcher {
  import opened Wrappers
  import opened Xml
  import opened TwiML
  import opened CallSession

  datatype Request = Request(url: string, httpMethod: string, data: map<string, string>)

  datatype Reply = Reply(code: int, body: Option<Element>)

  /** A URL and the HTTP method to use on it. */
  datatype Endpoint = Endpoint(url: string, httpMethod: string)

  /** Why no instructions came back: an endpoint the session does not have
      (the source fails on the missing key or the unset URL), a body that is
      not XML, or markup the parser rejects. */
  datatype FetchError = MissingEndpoint | MalformedXml | Markup(error: ParseError)

  /** The requests made, in order, and the instructions or the failure. */
  datatype Fetched = Fetched(requests: seq<Request>, markup: Result<seq<Verb>, FetchError>)

  predicate IsSuccess(code: int) {
    200 <= code < 300
  }

  /** A reply body parsed as call markup against base URL `base`. */
  function Decode(body: Option<Element>, base: string): (r: Result<seq<Verb>, FetchError>)
    ensures body.None? <==> r == Err(MalformedXml)
    ensures body.Some? ==> (r.Ok? <==> Parse(body.value, base).Ok?)
    ensures body.Some? && r.Ok? ==> r.value == Parse(body.value, base).value
    ensures body.Some? && r.Err? ==> r.error == Markup(Parse(body.value, base).error)
  {
    match body
    case None => Err(MalformedXml)
    case Some(root) =>
      match Parse(root, base)
      case Ok(verbs) => Ok(verbs)
      case Err(e) => Err(Markup(e))
  }

  /** The fetch. The fallback is asked only after a non-2xx primary reply,
      and whichever reply came last is parsed, whatever its status, against
      the PRIMARY URL. */
  function FetchMarkup(primary: Option<Endpoint>, fallback: Option<Endpoint>,
                       data: map<string, string>, http: Request -> Reply): (r: Fetched)
    ensures |r.requests| <= 2
    ensures primary.None? ==> r == Fetched([], Err(MissingEndpoint))
    ensures primary.Some? ==>
      |r.requests| >= 1 && r.requests[0] == Request(primary.value.url, primary.value.httpMethod, data)
    ensures |r.requests| == 2 <==>
      primary.Some? && fallback.Some? && !IsSuccess(http(r.requests[0]).code)
    ensures |r.requests| == 2 ==>
      r.requests[1] == Request(fallback.value.url, fallback.value.httpMethod, data)
    ensures primary.Some? && !IsSuccess(http(r.requests[0]).code) && fallback.None? ==>
      r.markup == Err(MissingEndpoint)
    ensures r.markup.Ok? ==>
      primary.Some? && |r.requests| >= 1
      && r.markup == Decode(http(r.requests[|r.requests| - 1]).body, primary.value.url)
  {
    match primary
    case None => Fetched([], Err(MissingEndpoint))
    case Some(p) =>
      var first := Request(p.url, p.httpMethod, data);
      var reply := http(first);
      if IsSuccess(reply.code) then Fetched([first], Decode(reply.body, p.url))
      else
        match fallback
        case None => Fetched([first], Err(MissingEndpoint))
        case Some(f) =>
          var second := Request(f.url, f.httpMethod, data);
          Fetched([first, second], Decode(http(second).body, p.url))
  }

  /** The endpoint a session's markup is first fetched from. */
  function PrimaryOf(s: Session): (e: Option<Endpoint>)
    ensures e.Some? <==> s.url.Some?
    ensures e.Some? ==> e.value.url == s.url.value && e.value.httpMethod == s.httpMethod
  {
    if s.url.Some? then Some(Endpoint(s.url.value, s.httpMethod)) else None
  }

  /** The endpoint asked after a failed primary fetch: both the session's
      fallback URL and method must be recorded. */
  function FallbackOf(s: Session): (e: Option<Endpoint>)
    ensures e.Some? <==> s.fallbackUrl.Some? && s.fallbackMethod.Some?
    ensures e.Some? ==> e.value == Endpoint(s.fallbackUrl.value, s.fallbackMethod.value)
  {
    if s.fallbackUrl.Some? && s.fallbackMethod.Some? then
      Some(Endpoint(s.fallbackUrl.value, s.fallbackMethod.value))
    else None
  }

  /** A successful primary reply is the only one looked at. */
  lemma PrimarySuccessIsFinal(p: Endpoint, fallback: Option<Endpoint>, data: map<string, string>, http: Request -> Reply)
    requires IsSuccess(http(Request(p.url, p.httpMethod, data)).code)
    ensures var r := FetchMarkup(Some(p), fallback, data, http);
      r.requests == [Request(p.url, p.httpMethod, data)]
      && r.markup == Decode(http(Request(p.url, p.httpMethod, data)).body, p.url)
  {
  }

  /** A failing fallback reply is still parsed: its status is not checked. */
  lemma FallbackStatusIgnored(p: Endpoint, f: Endpoint, data: map<string, string>, http: Request -> Reply)
    requires !IsSuccess(http(Request(p.url, p.httpMethod, data)).code)
    requires !IsSuccess(http(Request(f.url, f.httpMethod, data)).code)
    requires http(Request(f.url, f.httpMethod, data)).body.Some?
    requires Parse(http(Request(f.url, f.httpMethod, data)).body.value, p.url).Ok?
    ensures FetchMarkup(Some(p), Some(f), data, http).markup.Ok?
  {
  }
}
