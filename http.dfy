/** The scanner's view of the outside world. Every network request and every
    call into a parsing library is an oracle: a total function the scanner
    is given. A request that raised (connection error, timeout, malformed
    response) is `None`. */
module Http {
  import opened Wrappers
  import opened Text

  /** A GET request: the URL and the query parameters sent with it, in order
      (`session.get(url, params=...)`; no parameters for a plain `get(url)`). */
  datatype Request = Request(url: string, query: seq<(string, string)>)

  /** What the scanner reads from a response: the body text, the header names
      as the server sent them, the final URL (`resp.url`) and the `href` values
      of the `<a>` elements of the body in document order. */
  datatype Response = Response(body: string, headerNames: seq<string>, url: string, hrefs: seq<string>)

  /** The parameter names of a query, in order, with no name twice. */
  predicate UniqueKeys<V>(params: seq<(string, V)>) {
    forall i, j :: 0 <= i < j < |params| ==> params[i].0 != params[j].0
  }

  /** `parse_qs` of a query: each parameter name with its values, names in
      order of first occurrence. */
  type ParamMap = params: seq<(string, seq<string>)> | UniqueKeys(params)

  /** `params.keys()`: one name per entry, the names of exactly the entries,
      each once when the names are unique. */
  function Keys<V>(params: seq<(string, V)>): (ks: seq<string>)
    ensures |ks| == |params|
    ensures forall k :: k in ks <==> exists i :: 0 <= i < |params| && params[i].0 == k
    ensures UniqueKeys(params) ==> forall i, j :: 0 <= i < j < |ks| ==> ks[i] != ks[j]
  {
    var ks := seq(|params|, i requires 0 <= i < |params| => params[i].0);
    assert forall i :: 0 <= i < |params| ==> ks[i] == params[i].0;
    ks
  }

  /** The oracles: the network, `urljoin` and `parse_qs(urlparse(url).query)`. */
  datatype Web = Web(
    fetch: Request -> Option<Response>,
    join: (string, string) -> string,
    extractParams: string -> ParamMap)

  /** A plain `session.get(url)`. */
  function Get(web: Web, url: string): Option<Response> {
    web.fetch(Request(url, []))
  }

  /** One reported weakness. `kind` is the open `type` tag ("missing_header",
      "xss_reflected", "sqli_error_based", ...); `url` is the URL probed;
      `header` is set for header findings, `param` and `payload` for
      injection findings. */
  datatype Finding = Finding(
    kind: string,
    url: string,
    detail: string,
    header: Option<string>,
    param: Option<string>,
    payload: Option<string>)

  const MISSING_HEADER := "missing_header"
  const XSS_REFLECTED := "xss_reflected"
  const SQLI_ERROR_BASED := "sqli_error_based"

  /** The finding `check_security_headers` reports for an absent header. */
  function MissingHeader(url: string, header: string): Finding {
    Finding(MISSING_HEADER, url, "Header de segurança ausente: " + header, Some(header), None, None)
  }

  /** The finding `test_reflected_xss` reports. */
  function XssReflected(url: string, param: string, payload: string): Finding {
    Finding(XSS_REFLECTED, url, "Possível XSS refletido no parâmetro " + param, None, Some(param), Some(payload))
  }

  /** The finding `test_basic_sqli` reports. */
  function SqliErrorBased(url: string, param: string, payload: string): Finding {
    Finding(SQLI_ERROR_BASED, url, "Possível SQLi (mensagem de erro SQL) em " + param, None, Some(param), Some(payload))
  }
}
