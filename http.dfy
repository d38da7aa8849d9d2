/** The values and the primitive fetchers of davinci_crawling/net.py.

    The HTTP transport itself is not modelled: a fetcher is given the
    response the transport returned, and the libraries that parse a body
    (json, BeautifulSoup) are represented by the text they are applied to.
 */
module Http {

  /** Python's "a value or None". */
  datatype Option<+T> = None | Some(value: T)

  /** A value, or the error raised in its place. */
  datatype Result<+T, +E> = Success(value: T) | Failure(error: E)

  type Byte = bv8

  /** Module-level constants of net.py. */
  const DefaultTimeout: int := 60
  const HttpOk: int := 200
  const HttpBadRequest: int := 400
  /** Status of the synthetic page the retry engine builds from an exception. */
  const HttpInternalError: int := 999
  /** Connect and read timeout of the streaming download, in seconds. */
  const DownloadTimeout: int := 1800

  /** What the transport returned for one request. `disposition` is the
      parameter map that cgi.parse_header extracts from the
      Content-Disposition header (empty when the header is absent, as
      section 4 of RFC 6266 leaves it optional); `chunks` are the pieces
      iter_content yields, in order. */
  datatype Response = Response(
    status: int,
    text: string,
    disposition: map<string, string>,
    chunks: seq<seq<Byte>>)

  /** The body a Page carries. */
  datatype Body =
    | Text(text: string)            // raw text, or str(ex) of a caught exception
    | JsonAccessor(source: string)  // `response.json` as fetch_json stores it: the decoder bound to the text, not its result
    | HtmlDocument(source: string)  // BeautifulSoup applied to the text

  /** net.py's Page: a status, a body and, when there was one, the response. */
  datatype Page = Page(status: int, body: Body, response: Option<Response>)

  /** net.py's File: the result of a completed download. */
  datatype File = File(status: int, file: string, filename: string, response: Response)

  datatype Verb = Get | Post
  datatype ContentType = FormUrlEncoded | ApplicationJson

  /** The parts of an outgoing request the fetchers decide (the user agent
      and certificate verification are fixed and left out). */
  datatype Request = Request(
    verb: Verb,
    url: string,
    contentType: Option<ContentType>,
    connectTimeout: Option<int>,
    readTimeout: Option<int>,
    stream: bool)

  /** Python truthiness of an optional number: None and 0 are falsy. */
  predicate Truthy(t: Option<int>) {
    t.Some? && t.value != 0
  }

  /** `timeout if timeout else DEFAULT_TIMEOUT`. */
  function EffectiveTimeout(timeout: Option<int>): (r: int)
    ensures Truthy(Some(r))
    ensures r == DefaultTimeout || timeout == Some(r)
    ensures Truthy(timeout) ==> r == timeout.value
  {
    if Truthy(timeout) then timeout.value else DefaultTimeout
  }

  /** `json.loads(s) if s else None`, with json.loads given as `loads`. */
  function ParseJson<J>(s: Option<string>, loads: string -> J): (r: Option<J>)
    ensures r.None? <==> s.None? || s.value == []
    ensures r.Some? ==> r.value == loads(s.value)
  {
    if s.Some? && s.value != [] then Some(loads(s.value)) else None
  }

  /** fetch_page: a GET with the timeout, as given, on both phases. */
  function FetchPage(url: string, timeout: Option<int>): (r: Request)
    ensures r.verb == Get && r.url == url && !r.stream
    ensures r.contentType.None?
    ensures r.connectTimeout == timeout && r.readTimeout == timeout
  {
    Request(Get, url, None, timeout, timeout, false)
  }

  /** post_json: a JSON POST whose two timeouts are the defaulted timeout. */
  function PostJson(url: string, timeout: Option<int>): (r: Request)
    ensures r.verb == Post && r.url == url && !r.stream
    ensures r.contentType == Some(ApplicationJson)
    ensures r.connectTimeout == r.readTimeout == Some(EffectiveTimeout(timeout))
  {
    var t := EffectiveTimeout(timeout);
    Request(Post, url, Some(ApplicationJson), Some(t), Some(t), false)
  }

  /** post_form: a form-encoded POST whose two timeouts are the defaulted timeout. */
  function PostForm(url: string, timeout: Option<int>): (r: Request)
    ensures r.verb == Post && r.url == url && !r.stream
    ensures r.contentType == Some(FormUrlEncoded)
    ensures r.connectTimeout == r.readTimeout == Some(EffectiveTimeout(timeout))
  {
    var t := EffectiveTimeout(timeout);
    Request(Post, url, Some(FormUrlEncoded), Some(t), Some(t), false)
  }

  /** fetch_json: the request it issues and the page it builds from the
      response. Below 400 the body is the response's json accessor,
      otherwise the raw text. */
  function FetchJson(url: string, timeout: Option<int>, response: Response): (r: (Request, Page))
    ensures r.0 == FetchPage(url, Some(EffectiveTimeout(timeout)))
    ensures r.1.status == response.status && r.1.response == Some(response)
    ensures r.1.body.Text? <==> response.status >= HttpBadRequest
    ensures r.1.body == JsonAccessor(response.text) || r.1.body == Text(response.text)
  {
    var request := FetchPage(url, Some(EffectiveTimeout(timeout)));
    if response.status < HttpBadRequest then
      (request, Page(response.status, JsonAccessor(response.text), Some(response)))
    else
      (request, Page(response.status, Text(response.text), Some(response)))
  }

  /** fetch_html: as fetch_json, with the body parsed as an HTML document
      below 400. */
  function FetchHtml(url: string, timeout: Option<int>, response: Response): (r: (Request, Page))
    ensures r.0 == FetchPage(url, Some(EffectiveTimeout(timeout)))
    ensures r.1.status == response.status && r.1.response == Some(response)
    ensures r.1.body.Text? <==> response.status >= HttpBadRequest
    ensures r.1.body == HtmlDocument(response.text) || r.1.body == Text(response.text)
  {
    var request := FetchPage(url, Some(EffectiveTimeout(timeout)));
    if response.status < HttpBadRequest then
      (request, Page(response.status, HtmlDocument(response.text), Some(response)))
    else
      (request, Page(response.status, Text(response.text), Some(response)))
  }

  /** The two fetchers issue the same request, and on a failing status
      build the very same page: the raw text, for the caller to inspect. */
  lemma FetchersAgreeOnFailure(url: string, timeout: Option<int>, response: Response)
    ensures FetchJson(url, timeout, response).0 == FetchHtml(url, timeout, response).0
    ensures response.status >= HttpBadRequest <==>
      FetchJson(url, timeout, response).1 == FetchHtml(url, timeout, response).1
  {
  }
}
