/**
 * The request helpers of `src/request.rs`, the version whose bodies are plain
 * strings. Here `request` keeps a user agent the caller already set.
 */
module StringRequests {
  import opened Text
  import opened Http

  /** The user agent a request gets when the caller gave none. */
  const AGENT: string := "iron-test"

  /**
   * What `request` hands the handler: `before`, with the user agent set only
   * when it is absent, and then the content length set.
   */
  predicate Stamped(before: Headers, req: Http.Request)
  {
    var agented := if USER_AGENT in before then before else before[USER_AGENT := UserAgent(AGENT)];
    req.headers == agented[CONTENT_LENGTH := ContentLength(Utf8Length(req.body))]
  }

  /**
   * Stamping keeps a caller's user agent and supplies the default otherwise,
   * always sets the content length to the body's byte length and leaves every
   * other header as given.
   */
  lemma StampedHeaders(before: Headers, req: Http.Request)
    requires Stamped(before, req)
    ensures req.headers.Keys == before.Keys + {USER_AGENT, CONTENT_LENGTH}
    ensures USER_AGENT in before ==> req.headers[USER_AGENT] == before[USER_AGENT]
    ensures USER_AGENT !in before ==> req.headers[USER_AGENT] == UserAgent(AGENT)
    ensures req.headers[CONTENT_LENGTH] == ContentLength(Utf8Length(req.body))
    ensures forall name :: name in before && name != USER_AGENT && name != CONTENT_LENGTH ==>
      req.headers[name] == before[name]
  {
  }

  /** `request`: send `body` as it is, with the user agent defaulted and the content length set. */
  method Request(verb: Method, body: string, headers: Headers) returns (req: Http.Request)
    ensures req.verb == verb && req.body == body
    ensures Stamped(headers, req)
  {
    var contentLength := Utf8Length(body);
    var h := headers;
    if USER_AGENT !in h {
      h := h[USER_AGENT := UserAgent(AGENT)];
    }
    h := h[CONTENT_LENGTH := ContentLength(contentLength)];
    req := Http.Request(verb, h, body);
  }

  /** `get`: an empty body, so a content length of 0. */
  method Get(headers: Headers) returns (req: Http.Request)
    ensures req.verb == Method.Get && req.body == "" && Stamped(headers, req)
    ensures req.headers[CONTENT_LENGTH] == ContentLength(0)
  {
    req := Request(Method.Get, "", headers);
  }

  /** `post`: the caller's text verbatim. */
  method Post(headers: Headers, body: string) returns (req: Http.Request)
    ensures req.verb == Method.Post && req.body == body && Stamped(headers, req)
  {
    req := Request(Method.Post, body, headers);
  }

  /** `patch`: the caller's text verbatim. */
  method Patch(headers: Headers, body: string) returns (req: Http.Request)
    ensures req.verb == Method.Patch && req.body == body && Stamped(headers, req)
  {
    req := Request(Method.Patch, body, headers);
  }

  /** `put`: the caller's text verbatim. */
  method Put(headers: Headers, body: string) returns (req: Http.Request)
    ensures req.verb == Method.Put && req.body == body && Stamped(headers, req)
  {
    req := Request(Method.Put, body, headers);
  }

  /** `delete`: an empty body. */
  method Delete(headers: Headers) returns (req: Http.Request)
    ensures req.verb == Method.Delete && req.body == "" && Stamped(headers, req)
    ensures req.headers[CONTENT_LENGTH] == ContentLength(0)
  {
    req := Request(Method.Delete, "", headers);
  }

  /** `options`: an empty body. */
  method Options(headers: Headers) returns (req: Http.Request)
    ensures req.verb == Method.Options && req.body == "" && Stamped(headers, req)
    ensures req.headers[CONTENT_LENGTH] == ContentLength(0)
  {
    req := Request(Method.Options, "", headers);
  }

  /** `head`: an empty body. */
  method Head(headers: Headers) returns (req: Http.Request)
    ensures req.verb == Method.Head && req.body == "" && Stamped(headers, req)
    ensures req.headers[CONTENT_LENGTH] == ContentLength(0)
  {
    req := Request(Method.Head, "", headers);
  }

  /** Without a caller user agent the handler sees `iron-test`. */
  method GetWithoutAgent() returns (req: Http.Request)
    ensures USER_AGENT in req.headers && req.headers[USER_AGENT] == UserAgent("iron-test")
  {
    req := Get(map[]);
  }

  /** A caller's user agent reaches the handler unchanged. */
  method GetWithCustomAgent() returns (req: Http.Request)
    ensures USER_AGENT in req.headers && req.headers[USER_AGENT] == UserAgent("CustomAgent/1.0")
  {
    req := Get(map[USER_AGENT := UserAgent("CustomAgent/1.0")]);
  }
}
