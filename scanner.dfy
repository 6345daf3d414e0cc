/** The scanner object. Its configuration is fixed at construction; the only
    state its methods change is the `visited` set, which persists across
    calls of `Crawl` and `Scan`. Each method is proved to compute its
    specification function from the modules it imports. */
module Scanner {
  import opened Wrappers
  import opened Text
  import opened Seqs
  import opened Urls
  import opened Http
  import opened Crawling
  import opened SecurityHeaders
  import opened Injection
  import opened Scanning

  class SimpleWebScanner {
    const baseUrl: string
    const maxPages: int
    /** Stored and passed to every request; the model has no clock. */
    const timeout: int
    /** The session: the network and the parsing libraries. */
    const web: Web
    const xssPayloads: seq<string>
    const sqliPayloads: seq<string>
    var visited: set<string>

    /** `__init__`: the base URL gets "http://" unless it starts with "http",
        then loses its trailing '/' characters; nothing is visited yet. The
        page cap defaults to 20 and the timeout to 5. */
    constructor(target: string, web: Web, maxPages: int := 20, timeout: int := 5)
      ensures baseUrl == NormalizeBaseUrl(target)
      ensures this.maxPages == maxPages && this.timeout == timeout && this.web == web
      ensures visited == {}
      ensures xssPayloads == XSS_PAYLOADS && sqliPayloads == SQLI_PAYLOADS
    {
      var withScheme := if IsPrefix("http", target) then target else "http://" + target;
      baseUrl := RStrip(withScheme, '/');
      this.maxPages := maxPages;
      this.timeout := timeout;
      this.web := web;
      visited := {};
      xssPayloads := XSS_PAYLOADS;
      sqliPayloads := SQLI_PAYLOADS;
    }

    /** `get_links(url)`: the same-domain links of the page, fragments cut, in
        document order; none when the request fails. */
    method GetLinks(url: string) returns (links: seq<string>)
      ensures links == LinksOf(web, baseUrl, url)
    {
      var resp := Get(web, url);
      if resp.None? {
        return [];
      }
      var hrefs := resp.value.hrefs;
      links := [];
      for i := 0 to |hrefs|
        invariant links == KeepLinks(web, baseUrl, url, hrefs[..i])
      {
        var full := web.join(url, hrefs[i]);
        if SameDomain(baseUrl, full) {
          links := links + [StripFragment(full)];
        }
        assert hrefs[..i + 1][..i] == hrefs[..i];
      }
      assert hrefs[..|hrefs|] == hrefs;
    }

    /** `crawl()`: breadth-first from the base URL until the queue is empty or
        `maxPages` URLs are visited. It returns the URLs visited by this call, in
        visiting order, each once and none visited before; `visited` grows by
        exactly these. */
    method Crawl() returns (discovered: seq<string>)
      modifies this
      ensures discovered == Crawling.Crawl(web, baseUrl, maxPages, old(visited)).discovered
      ensures visited == Crawling.Crawl(web, baseUrl, maxPages, old(visited)).visited
      ensures NoDuplicates(discovered)
      ensures forall u :: u in discovered ==> u !in old(visited)
      ensures visited == old(visited) + Elements(discovered)
    {
      ghost var target := Crawling.Crawl(web, baseUrl, maxPages, visited);
      CrawlSpec(web, baseUrl, maxPages, visited);
      var toVisit := [baseUrl];
      discovered := [];
      while toVisit != [] && |visited| < maxPages
        invariant CrawlLoop(web, baseUrl, maxPages, CrawlState(toVisit, visited, discovered)) == target
        decreases maxPages - |visited|, |toVisit|
      {
        ghost var s := CrawlState(toVisit, visited, discovered);
        var current := toVisit[0];
        toVisit := toVisit[1..];
        if current in visited {
          assert CrawlState(toVisit, visited, discovered) == Step(web, baseUrl, s);
          continue;
        }
        visited := visited + {current};
        discovered := discovered + [current];
        var links := GetLinks(current);
        ghost var rest := toVisit;
        for j := 0 to |links|
          invariant EnqueueNew(toVisit, visited, links[j..]) == EnqueueNew(rest, visited, links)
        {
          var link := links[j];
          if link !in visited && link !in toVisit {
            toVisit := toVisit + [link];
          }
          assert links[j..][1..] == links[j + 1..];
        }
        assert CrawlState(toVisit, visited, discovered) == Step(web, baseUrl, s);
      }
    }

    /** `check_security_headers(url)`. */
    method CheckSecurityHeaders(url: string) returns (findings: seq<Finding>)
      ensures findings == HeaderAudit(web, url)
    {
      findings := [];
      var resp := Get(web, url);
      if resp.None? {
        return;
      }
      var headers := LowerNames(resp.value.headerNames);
      var required := REQUIRED_HEADERS;
      for i := 0 to |required|
        invariant findings == MissingHeaders(url, headers, required[..i])
      {
        var h := required[i];
        if h !in headers {
          findings := findings + [MissingHeader(url, h)];
        }
        assert required[..i + 1][..i] == required[..i];
      }
      assert required[..|required|] == required;
    }

    /** One attempt, the body of the `try`: substitute `payload` for parameter
        `p`, request, inspect. A failed substitution or request reports nothing.
        `sent` holds the request issued, if any. */
    method Attempt(url: string, params: ParamMap, check: Check, payload: string, p: string)
      returns (findings: seq<Finding>, ghost sent: seq<Request>)
      ensures findings == Probe(web, url, params, check, payload, p)
      ensures sent == Sent(url, params, [(payload, p)])
    {
      findings, sent := [], [];
      var query := Substitute(params, p, payload);
      if query.None? {
        return;
      }
      sent := [Request(url, query.value)];
      var resp := web.fetch(Request(url, query.value));
      if resp.Some? && Trips(check, payload, resp.value.body) {
        findings := [Report(check, resp.value.url, p, payload)];
      }
    }

    /** The loop shared by both injection testers: for each payload, for each
        parameter, one attempt. `sent` is the log of the requests issued. */
    method RunInjection(url: string, check: Check, payloads: seq<string>)
      returns (findings: seq<Finding>, ghost sent: seq<Request>)
      ensures findings == InjectionFindings(web, url, check, payloads)
      ensures sent == InjectionRequests(web, url, payloads)
    {
      findings, sent := [], [];
      var params := web.extractParams(url);
      if params == [] {
        return;
      }
      var keys := Keys(params);
      for i := 0 to |payloads|
        invariant findings == ProbeAll(web, url, params, check, Attempts(payloads[..i], keys))
        invariant sent == Sent(url, params, Attempts(payloads[..i], keys))
      {
        var payload := payloads[i];
        ghost var done := Attempts(payloads[..i], keys);
        assert done + Row(payload, keys[..0]) == done;
        for j := 0 to |keys|
          invariant findings == ProbeAll(web, url, params, check, done + Row(payload, keys[..j]))
          invariant sent == Sent(url, params, done + Row(payload, keys[..j]))
        {
          var fs;
          ghost var req;
          fs, req := Attempt(url, params, check, payload, keys[j]);
          ghost var before := done + Row(payload, keys[..j]);
          ghost var a := (payload, keys[j]);
          RowStep(done, payload, keys, j);
          ProbeAllSnoc(web, url, params, check, before, a);
          assert done + Row(payload, keys[..j + 1]) == before + [a];
          findings, sent := findings + fs, sent + req;
        }
        AttemptsStep(payloads, keys, i);
      }
      assert payloads[..|payloads|] == payloads;
    }

    /** `test_reflected_xss(url)`. */
    method TestReflectedXss(url: string) returns (findings: seq<Finding>, ghost sent: seq<Request>)
      ensures findings == InjectionFindings(web, url, ReflectedXss, xssPayloads)
      ensures sent == InjectionRequests(web, url, xssPayloads)
    {
      findings, sent := RunInjection(url, ReflectedXss, xssPayloads);
    }

    /** `test_basic_sqli(url)`. */
    method TestBasicSqli(url: string) returns (findings: seq<Finding>, ghost sent: seq<Request>)
      ensures findings == InjectionFindings(web, url, ErrorBasedSqli, sqliPayloads)
      ensures sent == InjectionRequests(web, url, sqliPayloads)
    {
      findings, sent := RunInjection(url, ErrorBasedSqli, sqliPayloads);
    }

    /** `scan()`: crawl, then for each discovered URL its header findings and,
        when it has query parameters, its XSS and SQLi findings. */
    method Scan() returns (allFindings: seq<Finding>)
      modifies this
      ensures allFindings == Scanning.Scan(web, baseUrl, maxPages, old(visited), xssPayloads, sqliPayloads)
      ensures visited == Crawling.Crawl(web, baseUrl, maxPages, old(visited)).visited
    {
      var urls := Crawl();
      ghost var crawled := visited;
      allFindings := [];
      for i := 0 to |urls|
        invariant visited == crawled
        invariant allFindings == ScanAll(web, urls[..i], xssPayloads, sqliPayloads)
      {
        var url := urls[i];
        var urlFindings := CheckSecurityHeaders(url);
        if web.extractParams(url) != [] {
          ghost var sent;
          var xss, sqli;
          xss, sent := TestReflectedXss(url);
          sqli, sent := TestBasicSqli(url);
          urlFindings := urlFindings + xss + sqli;
        }
        assert urlFindings == UrlFindings(web, url, xssPayloads, sqliPayloads);
        ScanAllStep(web, urls, i, xssPayloads, sqliPayloads);
        allFindings := allFindings + urlFindings;
      }
      assert urls[..|urls|] == urls;
    }
  }

  // ---------------------------------------------------------------------
  // One-step unfoldings used by the loops above
  // ---------------------------------------------------------------------

  lemma RowStep(done: seq<(string, string)>, payload: string, keys: seq<string>, j: int)
    requires 0 <= j < |keys|
    ensures done + Row(payload, keys[..j + 1]) == (done + Row(payload, keys[..j])) + [(payload, keys[j])]
    ensures j + 1 == |keys| ==> Row(payload, keys[..j + 1]) == Row(payload, keys)
  {
    assert Row(payload, keys[..j + 1]) == Row(payload, keys[..j]) + [(payload, keys[j])];
  }

  lemma ProbeAllSnoc(web: Web, url: string, params: ParamMap, check: Check, attempts: seq<(string, string)>, a: (string, string))
    ensures ProbeAll(web, url, params, check, attempts + [a])
      == ProbeAll(web, url, params, check, attempts) + Probe(web, url, params, check, a.0, a.1)
    ensures Sent(url, params, attempts + [a]) == Sent(url, params, attempts) + Sent(url, params, [a])
  {
    assert (attempts + [a])[..|attempts|] == attempts;
    assert [a][..0] == [];
  }

  lemma AttemptsStep(payloads: seq<string>, keys: seq<string>, i: int)
    requires 0 <= i < |payloads|
    ensures Attempts(payloads[..i + 1], keys) == Attempts(payloads[..i], keys) + Row(payloads[i], keys[..|keys|])
  {
    assert payloads[..i + 1][..i] == payloads[..i];
    assert keys[..|keys|] == keys;
  }

  lemma ScanAllStep(web: Web, urls: seq<string>, i: int, xssPayloads: seq<string>, sqliPayloads: seq<string>)
    requires 0 <= i < |urls|
    ensures ScanAll(web, urls[..i + 1], xssPayloads, sqliPayloads)
      == ScanAll(web, urls[..i], xssPayloads, sqliPayloads) + UrlFindings(web, urls[i], xssPayloads, sqliPayloads)
  {
    assert urls[..i + 1][..i] == urls[..i];
  }
}
