/**
 * The request helpers of `src/request/mod.rs`: bodies that render themselves
 * (`RequestBody`), the header stamping of `request`, the seven method
 * wrappers and `post_multipart`.
 *
 * In this version `request` always overwrites the user agent.
 */
module BodyRequests {
  import opened Wrappers
  import opened Text
  import opened Http
  import Multipart

  /** The user agent every request is sent with. */
  const AGENT: string := "iron-test"

  /** `StringBody`: a body given as text. */
  datatype StringBody = StringBody(text: string)
  {
    /** `for_request`: the text itself. */
    function ForRequest(): string
    {
      text
    }

    /** `set_headers`: a plain body contributes no headers. */
    function SetHeaders(headers: Headers): Headers
    {
      headers
    }
  }

  /** `StringBody::new`: a body that renders as the given text and adds no headers. */
  function NewStringBody(body: string): (b: StringBody)
    ensures b.ForRequest() == body
    ensures forall headers :: b.SetHeaders(headers) == headers
  {
    StringBody(body)
  }

  /** The two implementations of `RequestBody`. */
  datatype Body = Plain(plain: StringBody) | Form(form: Multipart.MultipartBody)

  /** The objects rendering a body may change: the multipart builder, if there is one. */
  function BodyFrame(body: Body): set<object>
  {
    if body.Form? then {body.form} else {}
  }

  /** What `request` hands the handler: `before` with the user agent, then the content length, set. */
  predicate Stamped(before: Headers, req: Http.Request)
  {
    req.headers == before[USER_AGENT := UserAgent(AGENT)][CONTENT_LENGTH := ContentLength(Utf8Length(req.body))]
  }

  /**
   * Stamping overwrites whatever user agent the caller gave, sets the content
   * length to the body's byte length and leaves every other header as given.
   */
  lemma StampedHeaders(before: Headers, req: Http.Request)
    requires Stamped(before, req)
    ensures req.headers.Keys == before.Keys + {USER_AGENT, CONTENT_LENGTH}
    ensures req.headers[USER_AGENT] == UserAgent(AGENT)
    ensures req.headers[CONTENT_LENGTH] == ContentLength(Utf8Length(req.body))
    ensures forall name :: name in before && name != USER_AGENT && name != CONTENT_LENGTH ==>
      req.headers[name] == before[name]
  {
  }

  /**
   * `request`: let the body set its headers, render it, then set the user
   * agent and the content length.
   */
  method Request(verb: Method, body: Body, headers: Headers) returns (req: Http.Request)
    modifies BodyFrame(body)
    ensures req.verb == verb
    ensures body.Plain? ==> req.body == body.plain.text && Stamped(headers, req)
    ensures body.Form? ==>
      body.form.boundary == old(body.form.boundary) &&
      body.form.parts == old(body.form.parts) + [Multipart.ClosingBoundary(body.form.boundary)] &&
      req.body == Join(body.form.parts, CRLF) &&
      Stamped(headers[CONTENT_TYPE := ContentType(FormData(body.form.boundary))], req)
    ensures body.Form? && old(body.form.Valid()) ==>
      body.form.Valid() && req.body == Multipart.Encode(body.form.boundary, old(body.form.log))
  {
    var h := headers;
    var text: string;
    if body.Plain? {
      h := body.plain.SetHeaders(h);
      text := body.plain.ForRequest();
    } else {
      var mb := body.form;
      h := mb.SetHeaders(h);
      assert h == headers[CONTENT_TYPE := ContentType(FormData(mb.boundary))];
      text := mb.ForRequest();
    }
    var contentLength := Utf8Length(text);
    h := h[USER_AGENT := UserAgent(AGENT)];
    h := h[CONTENT_LENGTH := ContentLength(contentLength)];
    req := Http.Request(verb, h, text);
  }

  /** `get`: an empty body, so a content length of 0. */
  method Get(headers: Headers) returns (req: Http.Request)
    ensures req.verb == Method.Get && req.body == "" && Stamped(headers, req)
    ensures req.headers[CONTENT_LENGTH] == ContentLength(0)
  {
    req := Request(Method.Get, Plain(NewStringBody("")), headers);
  }

  /** `post`: the caller's body, rendered once. */
  method Post(headers: Headers, body: Body) returns (req: Http.Request)
    modifies BodyFrame(body)
    ensures req.verb == Method.Post
    ensures body.Plain? ==> req.body == body.plain.text && Stamped(headers, req)
    ensures body.Form? ==>
      body.form.boundary == old(body.form.boundary) &&
      body.form.parts == old(body.form.parts) + [Multipart.ClosingBoundary(body.form.boundary)] &&
      req.body == Join(body.form.parts, CRLF) &&
      Stamped(headers[CONTENT_TYPE := ContentType(FormData(body.form.boundary))], req)
  {
    req := Request(Method.Post, body, headers);
  }

  /**
   * `post_multipart`: finalize the body once, advertise its boundary in
   * `Content-Type`, then send the rendered text as a plain body.
   */
  method PostMultipart(headers: Headers, body: Multipart.MultipartBody) returns (req: Http.Request)
    modifies body
    ensures req.verb == Method.Post
    ensures body.boundary == old(body.boundary)
    ensures body.parts == old(body.parts) + [Multipart.ClosingBoundary(body.boundary)]
    ensures req.body == Join(body.parts, CRLF)
    ensures old(body.Valid()) ==> req.body == Multipart.Encode(body.boundary, old(body.log))
    ensures Stamped(headers[CONTENT_TYPE := ContentType(FormData(body.boundary))], req)
    ensures CONTENT_TYPE in req.headers && req.headers[CONTENT_TYPE].ContentType?
    ensures BoundaryParam(req.headers[CONTENT_TYPE].mime.params) == Some(body.boundary)
    ensures EndsWith(req.body, Multipart.ClosingBoundary(body.boundary))
  {
    var text := body.ForRequest();
    var h := headers[CONTENT_TYPE := ContentType(FormData(body.boundary))];
    req := Request(Method.Post, Plain(NewStringBody(text)), h);
  }

  /** `patch`: the caller's body, rendered once. */
  method Patch(headers: Headers, body: Body) returns (req: Http.Request)
    modifies BodyFrame(body)
    ensures req.verb == Method.Patch
    ensures body.Plain? ==> req.body == body.plain.text && Stamped(headers, req)
    ensures body.Form? ==>
      body.form.boundary == old(body.form.boundary) &&
      body.form.parts == old(body.form.parts) + [Multipart.ClosingBoundary(body.form.boundary)] &&
      req.body == Join(body.form.parts, CRLF) &&
      Stamped(headers[CONTENT_TYPE := ContentType(FormData(body.form.boundary))], req)
  {
    req := Request(Method.Patch, body, headers);
  }

  /** `put`: the caller's body, rendered once. */
  method Put(headers: Headers, body: Body) returns (req: Http.Request)
    modifies BodyFrame(body)
    ensures req.verb == Method.Put
    ensures body.Plain? ==> req.body == body.plain.text && Stamped(headers, req)
    ensures body.Form? ==>
      body.form.boundary == old(body.form.boundary) &&
      body.form.parts == old(body.form.parts) + [Multipart.ClosingBoundary(body.form.boundary)] &&
      req.body == Join(body.form.parts, CRLF) &&
      Stamped(headers[CONTENT_TYPE := ContentType(FormData(body.form.boundary))], req)
  {
    req := Request(Method.Put, body, headers);
  }

  /** `delete`: an empty body. */
  method Delete(headers: Headers) returns (req: Http.Request)
    ensures req.verb == Method.Delete && req.body == "" && Stamped(headers, req)
    ensures req.headers[CONTENT_LENGTH] == ContentLength(0)
  {
    req := Request(Method.Delete, Plain(NewStringBody("")), headers);
  }

  /** `options`: an empty body. */
  method Options(headers: Headers) returns (req: Http.Request)
    ensures req.verb == Method.Options && req.body == "" && Stamped(headers, req)
    ensures req.headers[CONTENT_LENGTH] == ContentLength(0)
  {
    req := Request(Method.Options, Plain(NewStringBody("")), headers);
  }

  /** `head`: an empty body. */
  method Head(headers: Headers) returns (req: Http.Request)
    ensures req.verb == Method.Head && req.body == "" && Stamped(headers, req)
    ensures req.headers[CONTENT_LENGTH] == ContentLength(0)
  {
    req := Request(Method.Head, Plain(NewStringBody("")), headers);
  }

  /** A caller's user agent does not survive this version of `request`. */
  method GetWithCustomAgent() returns (req: Http.Request)
    ensures USER_AGENT in req.headers && req.headers[USER_AGENT] == UserAgent("iron-test")
  {
    req := Get(map[USER_AGENT := UserAgent("CustomAgent/1.0")]);
  }

  /**
   * Posting a form with one text field: the handler receives the marker, the
   * header line, a blank line, the value and the closing marker, with the same
   * boundary advertised in `Content-Type`.
   */
  method PostTextField(draws: seq<nat>) returns (req: Http.Request, boundary: string)
    requires |draws| >= Multipart.BOUNDARY_LENGTH
    requires forall i :: 0 <= i < |draws| ==> draws[i] < Multipart.ALPHABET_SIZE
    ensures boundary == Multipart.GenerateBoundary(draws)
    ensures req.body == ("--" + boundary + "\r\n" + Multipart.DISPOSITION + "key" + "\"\r\n\r\n" + "my value" + "\r\n")
                        + ("--" + boundary + "--")
    ensures CONTENT_TYPE in req.headers && req.headers[CONTENT_TYPE] == ContentType(FormData(boundary))
  {
    var body := new Multipart.MultipartBody(draws);
    body.Write("key", "my value");
    boundary := body.boundary;
    req := PostMultipart(map[], body);
    Multipart.SingleEntry(boundary, Multipart.TextHeader("key"), "my value");
    Multipart.TextEntryOnWire(boundary, "key", "my value");
  }

  /**
   * Posting a form with one file: the header names the file by its last path
   * component and the file's text follows a blank line.
   */
  method PostFileField(draws: seq<nat>) returns (req: Http.Request, boundary: string)
    requires |draws| >= Multipart.BOUNDARY_LENGTH
    requires forall i :: 0 <= i < |draws| ==> draws[i] < Multipart.ALPHABET_SIZE
    ensures boundary == Multipart.GenerateBoundary(draws)
    ensures req.body == ("--" + boundary + "\r\n" + Multipart.DISPOSITION + "key" + "\"; filename = \""
                         + "file.txt" + "\"\r\n\r\n" + "Hello, world!" + "\r\n")
                        + ("--" + boundary + "--")
    ensures CONTENT_TYPE in req.headers && req.headers[CONTENT_TYPE] == ContentType(FormData(boundary))
  {
    var path := [Multipart.RootDir, Multipart.Normal("tmp"), Multipart.Normal("file.txt")];
    var fs := map[path := Multipart.Opened("Hello, world!")];
    var body := new Multipart.MultipartBody(draws);
    assert Multipart.FileName(path) == Some("file.txt");
    var r := body.Upload("key", path, fs);
    boundary := body.boundary;
    req := PostMultipart(map[], body);
    Multipart.SingleEntry(boundary, Multipart.FileHeader("key", "file.txt"), "Hello, world!");
    Multipart.FileEntryOnWire(boundary, "key", "file.txt", "Hello, world!");
  }
}
