/**
 * The pieces of hyper/iron that the request helpers touch: methods, a header
 * collection keyed by header name with typed values, media types and the
 * synthetic request handed to a handler.
 */
module Http {
  import opened Wrappers

  datatype Method = Get | Post | Patch | Put | Delete | Options | Head

  /** A media type `top/sub` with its `attr=value` parameters, in order. */
  datatype Mime = Mime(top: string, sub: string, params: seq<(string, string)>)

  /** The typed header values the library sets, plus any other header as raw text. */
  datatype HeaderValue =
    | UserAgent(agent: string)
    | ContentLength(length: nat)
    | ContentType(mime: Mime)
    | Raw(text: string)

  /**
   * A header collection, keyed by the header name in its canonical spelling
   * (`User-Agent`). hyper compares names without regard to case; the model
   * takes every key to be written canonically, so two keys that differ only
   * in case stand for different headers here.
   */
  type Headers = map<string, HeaderValue>

  const USER_AGENT: string := "User-Agent"
  const CONTENT_LENGTH: string := "Content-Length"
  const CONTENT_TYPE: string := "Content-Type"

  /** `multipart/form-data; boundary=<boundary>` as hyper builds it. */
  function FormData(boundary: string): (m: Mime)
    ensures BoundaryParam(m.params) == Some(boundary)
  {
    Mime("multipart", "form-data", [("boundary", boundary)])
  }

  /** The value of the first `boundary` parameter, if there is one. */
  function BoundaryParam(params: seq<(string, string)>): Option<string>
  {
    if params == [] then None
    else if params[0].0 == "boundary" then Some(params[0].1)
    else BoundaryParam(params[1..])
  }

  /** The media type as written in a header: `top/sub` then `; attr=value` per parameter. */
  function MimeText(m: Mime): string
  {
    m.top + "/" + m.sub + ParamsText(m.params)
  }

  function ParamsText(params: seq<(string, string)>): string
  {
    if params == [] then ""
    else "; " + params[0].0 + "=" + params[0].1 + ParamsText(params[1..])
  }

  /** The form-data media type renders with the raw, unquoted boundary at the end. */
  lemma FormDataText(boundary: string)
    ensures MimeText(FormData(boundary)) == "multipart/form-data; boundary=" + boundary
  {
    var ps := FormData(boundary).params;
    assert ps[1..] == [];
    assert ParamsText(ps) == "; boundary=" + boundary + "";
  }

  /**
   * The request a handler receives; `verb` is its HTTP method. The URL, the socket addresses and the
   * extension map are not modelled; `body` is the text behind the body reader.
   */
  datatype Request = Request(verb: Method, headers: Headers, body: string)
}
