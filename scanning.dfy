/** `SimpleWebScanner.scan` as a function of the web oracle: crawl, then for
    each discovered URL its header findings followed, when the URL has query
    parameters, by its XSS and then its SQLi findings. */
module Scanning {
  import opened Wrappers
  import opened Text
  import opened Seqs
  import opened Urls
  import opened Http
  import opened Crawling
  import opened SecurityHeaders
  import opened Injection

  /** The findings `scan` collects for one URL. */
  function UrlFindings(web: Web, url: string, xssPayloads: seq<string>, sqliPayloads: seq<string>): seq<Finding> {
    HeaderAudit(web, url)
      + (if web.extractParams(url) != [] then
           InjectionFindings(web, url, ReflectedXss, xssPayloads) + InjectionFindings(web, url, ErrorBasedSqli, sqliPayloads)
         else [])
  }

  /** The findings for a list of URLs, concatenated in order, with no
      de-duplication. */
  function ScanAll(web: Web, urls: seq<string>, xssPayloads: seq<string>, sqliPayloads: seq<string>): seq<Finding>
    decreases |urls|
  {
    if urls == [] then []
    else
      ScanAll(web, urls[..|urls| - 1], xssPayloads, sqliPayloads)
        + UrlFindings(web, urls[|urls| - 1], xssPayloads, sqliPayloads)
  }

  /** `scan()` from the scanner's current `visited` set. */
  function Scan(web: Web, baseUrl: string, maxPages: int, visited0: set<string>,
                xssPayloads: seq<string>, sqliPayloads: seq<string>): seq<Finding> {
    ScanAll(web, Crawl(web, baseUrl, maxPages, visited0).discovered, xssPayloads, sqliPayloads)
  }

  /** The findings of one type, in order. */
  function OfKind(fs: seq<Finding>, kind: string): seq<Finding>
    decreases |fs|
  {
    if fs == [] then []
    else OfKind(fs[..|fs| - 1], kind) + (if fs[|fs| - 1].kind == kind then [fs[|fs| - 1]] else [])
  }

  // ---------------------------------------------------------------------
  // Properties
  // ---------------------------------------------------------------------

  lemma {:induction false} OfKindConcat(a: seq<Finding>, b: seq<Finding>, kind: string)
    ensures OfKind(a + b, kind) == OfKind(a, kind) + OfKind(b, kind)
    decreases |b|
  {
    if b == [] {
      assert a + b == a;
    } else {
      var n := |b| - 1;
      OfKindConcat(a, b[..n], kind);
      assert (a + b)[..|a + b| - 1] == a + b[..n];
    }
  }

  /** Selecting a type keeps every finding of that type and no other. */
  lemma {:induction false} OfKindSpec(fs: seq<Finding>, kind: string)
    ensures (forall f :: f in fs ==> f.kind == kind) ==> OfKind(fs, kind) == fs
    ensures (forall f :: f in fs ==> f.kind != kind) ==> OfKind(fs, kind) == []
    decreases |fs|
  {
    if fs != [] {
      var n := |fs| - 1;
      OfKindSpec(fs[..n], kind);
      assert forall f :: f in fs[..n] ==> f in fs;
      assert fs[n] in fs;
      assert fs == fs[..n] + [fs[n]];
    }
  }

  /** The guard on query parameters in `scan` is redundant: the injection
      testers already report nothing for a URL without parameters. */
  lemma UrlFindingsUnguarded(web: Web, url: string, xssPayloads: seq<string>, sqliPayloads: seq<string>)
    ensures UrlFindings(web, url, xssPayloads, sqliPayloads)
      == HeaderAudit(web, url) + InjectionFindings(web, url, ReflectedXss, xssPayloads)
         + InjectionFindings(web, url, ErrorBasedSqli, sqliPayloads)
  {
    if web.extractParams(url) == [] {
      NoParamsNoProbes(web, url, ReflectedXss, xssPayloads);
      NoParamsNoProbes(web, url, ErrorBasedSqli, sqliPayloads);
    }
  }

  /** Every finding of the list has the given type. */
  predicate Uniform(fs: seq<Finding>, kind: string) {
    forall f :: f in fs ==> f.kind == kind
  }

  lemma HeaderAuditUniform(web: Web, url: string)
    ensures Uniform(HeaderAudit(web, url), MISSING_HEADER)
    ensures forall f :: f in HeaderAudit(web, url) ==> f.url == url
  {
    if Get(web, url).Some? {
      MissingHeadersMembers(url, LowerNames(Get(web, url).value.headerNames), REQUIRED_HEADERS);
    }
  }

  lemma InjectionUniform(web: Web, url: string, check: Check, payloads: seq<string>)
    ensures Uniform(InjectionFindings(web, url, check, payloads), KindOf(check))
  {
    InjectionMembers(web, url, check, payloads);
  }

  /** Selecting a type from three uniform lists in a row. */
  lemma OfKindThree(h: seq<Finding>, x: seq<Finding>, q: seq<Finding>, kh: string, kx: string, kq: string, kind: string)
    requires Uniform(h, kh) && Uniform(x, kx) && Uniform(q, kq)
    ensures OfKind(h + x + q, kind)
      == (if kh == kind then h else []) + (if kx == kind then x else []) + (if kq == kind then q else [])
  {
    OfKindConcat(h + x, q, kind);
    OfKindConcat(h, x, kind);
    OfKindSpec(h, kind);
    OfKindSpec(x, kind);
    OfKindSpec(q, kind);
  }

  /** The findings for a URL split by type into exactly its header audit, its
      XSS test and its SQLi test; there is no finding of another type. */
  lemma UrlFindingsByKind(web: Web, url: string, xssPayloads: seq<string>, sqliPayloads: seq<string>)
    ensures var r := UrlFindings(web, url, xssPayloads, sqliPayloads);
      && OfKind(r, MISSING_HEADER) == HeaderAudit(web, url)
      && OfKind(r, XSS_REFLECTED) == InjectionFindings(web, url, ReflectedXss, xssPayloads)
      && OfKind(r, SQLI_ERROR_BASED) == InjectionFindings(web, url, ErrorBasedSqli, sqliPayloads)
      && (forall f :: f in r ==> f.kind == MISSING_HEADER || f.kind == XSS_REFLECTED || f.kind == SQLI_ERROR_BASED)
  {
    var r := UrlFindings(web, url, xssPayloads, sqliPayloads);
    var h := HeaderAudit(web, url);
    var x := InjectionFindings(web, url, ReflectedXss, xssPayloads);
    var q := InjectionFindings(web, url, ErrorBasedSqli, sqliPayloads);
    UrlFindingsUnguarded(web, url, xssPayloads, sqliPayloads);
    assert r == h + x + q;
    HeaderAuditUniform(web, url);
    InjectionUniform(web, url, ReflectedXss, xssPayloads);
    InjectionUniform(web, url, ErrorBasedSqli, sqliPayloads);
    assert MISSING_HEADER[0] != XSS_REFLECTED[0] && MISSING_HEADER[0] != SQLI_ERROR_BASED[0];
    assert XSS_REFLECTED[0] != SQLI_ERROR_BASED[0];
    OfKindThree(h, x, q, MISSING_HEADER, XSS_REFLECTED, SQLI_ERROR_BASED, MISSING_HEADER);
    OfKindThree(h, x, q, MISSING_HEADER, XSS_REFLECTED, SQLI_ERROR_BASED, XSS_REFLECTED);
    OfKindThree(h, x, q, MISSING_HEADER, XSS_REFLECTED, SQLI_ERROR_BASED, SQLI_ERROR_BASED);
    forall f | f in r ensures f.kind == MISSING_HEADER || f.kind == XSS_REFLECTED || f.kind == SQLI_ERROR_BASED {
      assert f in h || f in x || f in q;
    }
  }

  /** A finding is in the scan of a URL list exactly when it is among the
      findings of one of the URLs. */
  lemma {:induction false} ScanAllMembers(web: Web, urls: seq<string>, xssPayloads: seq<string>, sqliPayloads: seq<string>)
    ensures forall f :: f in ScanAll(web, urls, xssPayloads, sqliPayloads) <==>
      exists u :: u in urls && f in UrlFindings(web, u, xssPayloads, sqliPayloads)
    decreases |urls|
  {
    if urls != [] {
      var n := |urls| - 1;
      var init, last := urls[..n], urls[n];
      ScanAllMembers(web, init, xssPayloads, sqliPayloads);
      assert urls == init + [last];
      forall f ensures f in ScanAll(web, urls, xssPayloads, sqliPayloads) <==>
        exists u :: u in urls && f in UrlFindings(web, u, xssPayloads, sqliPayloads)
      {
        if exists u :: u in urls && f in UrlFindings(web, u, xssPayloads, sqliPayloads) {
          var u :| u in urls && f in UrlFindings(web, u, xssPayloads, sqliPayloads);
          assert u in init || u == last;
        }
      }
    }
  }

  /** On a fresh scanner, every `missing_header` finding is about a page of the
      base URL's site. */
  lemma ScanHeaderFindingsOnSite(web: Web, baseUrl: string, maxPages: int, xssPayloads: seq<string>, sqliPayloads: seq<string>)
    ensures forall f :: f in Scan(web, baseUrl, maxPages, {}, xssPayloads, sqliPayloads) && f.kind == MISSING_HEADER ==>
      SameDomain(baseUrl, f.url)
  {
    var d := Crawl(web, baseUrl, maxPages, {}).discovered;
    ScanAllMembers(web, d, xssPayloads, sqliPayloads);
    CrawlStaysOnSite(web, baseUrl, maxPages);
    forall f | f in Scan(web, baseUrl, maxPages, {}, xssPayloads, sqliPayloads) && f.kind == MISSING_HEADER
      ensures SameDomain(baseUrl, f.url)
    {
      var u :| u in d && f in UrlFindings(web, u, xssPayloads, sqliPayloads);
      UrlFindingsUnguarded(web, u, xssPayloads, sqliPayloads);
      HeaderAuditUniform(web, u);
      InjectionUniform(web, u, ReflectedXss, xssPayloads);
      InjectionUniform(web, u, ErrorBasedSqli, sqliPayloads);
      assert f in HeaderAudit(web, u);
    }
  }

  /** Once the base URL is visited, a further `scan()` reports nothing. */
  lemma ScanAgainFindsNothing(web: Web, baseUrl: string, maxPages: int, visited0: set<string>,
                              xssPayloads: seq<string>, sqliPayloads: seq<string>)
    requires baseUrl in visited0
    ensures Scan(web, baseUrl, maxPages, visited0, xssPayloads, sqliPayloads) == []
  {
    CrawlAgainFindsNothing(web, baseUrl, maxPages, visited0);
  }

  /** Scanning a single URL gives that URL's findings. */
  lemma ScanSingle(web: Web, url: string, xssPayloads: seq<string>, sqliPayloads: seq<string>)
    ensures ScanAll(web, [url], xssPayloads, sqliPayloads) == UrlFindings(web, url, xssPayloads, sqliPayloads)
  {
    assert [url][..0] == [];
  }

  /** A site of one page without links, without query parameters and without
      any of the four security headers: a fresh scan reports exactly the four
      `missing_header` findings for the base URL, in the fixed order. */
  lemma ScanBarePage(web: Web, baseUrl: string, maxPages: int, xssPayloads: seq<string>, sqliPayloads: seq<string>)
    requires maxPages > 0
    requires Get(web, baseUrl).Some? && Get(web, baseUrl).value.hrefs == []
    requires forall n :: n in Get(web, baseUrl).value.headerNames ==> Lower(n) !in REQUIRED_HEADERS
    requires web.extractParams(baseUrl) == []
    ensures Scan(web, baseUrl, maxPages, {}, xssPayloads, sqliPayloads) == [
      MissingHeader(baseUrl, "content-security-policy"),
      MissingHeader(baseUrl, "x-frame-options"),
      MissingHeader(baseUrl, "x-content-type-options"),
      MissingHeader(baseUrl, "strict-transport-security")]
  {
    assert LinksOf(web, baseUrl, baseUrl) == [];
    CrawlIsolatedSeed(web, baseUrl, maxPages);
    NoSecurityHeaders(web, baseUrl);
    ScanSingle(web, baseUrl, xssPayloads, sqliPayloads);
  }

  /** A seed that cannot be fetched and has no query parameters: a fresh scan
      reports nothing. */
  lemma ScanUnreachableSeed(web: Web, baseUrl: string, maxPages: int, xssPayloads: seq<string>, sqliPayloads: seq<string>)
    requires maxPages > 0 && Get(web, baseUrl).None? && web.extractParams(baseUrl) == []
    ensures Scan(web, baseUrl, maxPages, {}, xssPayloads, sqliPayloads) == []
  {
    LinksOfSpec(web, baseUrl, baseUrl);
    CrawlIsolatedSeed(web, baseUrl, maxPages);
    ScanSingle(web, baseUrl, xssPayloads, sqliPayloads);
  }
}
