/** Link extraction and the breadth-first crawl of `SimpleWebScanner`, as
    functions of the web oracle. The scanner's methods are proved equal to
    these functions, and the crawl's properties are proved about them. */
module Crawling {
  import opened Wrappers
  import opened Text
  import opened Seqs
  import opened Urls
  import opened Http

  // ---------------------------------------------------------------------
  // get_links
  // ---------------------------------------------------------------------

  /** The links `get_links` keeps from the given hrefs of the page at `url`:
      each href resolved against `url`, kept when same-domain, with its
      fragment cut, in href order. */
  function KeepLinks(web: Web, baseUrl: string, url: string, hrefs: seq<string>): (links: seq<string>)
    ensures |links| <= |hrefs|
    decreases |hrefs|
  {
    if hrefs == [] then []
    else
      var full := web.join(url, hrefs[|hrefs| - 1]);
      KeepLinks(web, baseUrl, url, hrefs[..|hrefs| - 1])
        + (if SameDomain(baseUrl, full) then [StripFragment(full)] else [])
  }

  /** `get_links(url)`: no links when the request fails. */
  function LinksOf(web: Web, baseUrl: string, url: string): seq<string> {
    match Get(web, url)
    case None => []
    case Some(resp) => KeepLinks(web, baseUrl, url, resp.hrefs)
  }

  /** The href h of the page at `url` yields the link l. */
  predicate Yields(web: Web, baseUrl: string, url: string, h: string, l: string) {
    SameDomain(baseUrl, web.join(url, h)) && l == StripFragment(web.join(url, h))
  }

  /** A link is kept exactly when some href resolves to a same-domain URL whose
      fragment-free form it is. */
  lemma {:induction false} KeepLinksSpec(web: Web, baseUrl: string, url: string, hrefs: seq<string>)
    ensures forall l :: l in KeepLinks(web, baseUrl, url, hrefs) <==>
      exists h :: h in hrefs && Yields(web, baseUrl, url, h, l)
    decreases |hrefs|
  {
    if hrefs != [] {
      var n := |hrefs| - 1;
      var init, last := hrefs[..n], hrefs[n];
      KeepLinksSpec(web, baseUrl, url, init);
      var full := web.join(url, last);
      var extra := if SameDomain(baseUrl, full) then [StripFragment(full)] else [];
      assert KeepLinks(web, baseUrl, url, hrefs) == KeepLinks(web, baseUrl, url, init) + extra;
      assert hrefs == init + [last];
      forall l ensures l in KeepLinks(web, baseUrl, url, hrefs) <==>
        exists h :: h in hrefs && Yields(web, baseUrl, url, h, l)
      {
        assert l in extra <==> Yields(web, baseUrl, url, last, l);
        if exists h :: h in hrefs && Yields(web, baseUrl, url, h, l) {
          var h :| h in hrefs && Yields(web, baseUrl, url, h, l);
          assert h in init || h == last;
        }
      }
    }
  }

  /** Every link `get_links` returns is same-domain with the base URL and has no
      fragment; a page whose request fails yields no links. */
  lemma LinksOfSpec(web: Web, baseUrl: string, url: string)
    ensures forall l :: l in LinksOf(web, baseUrl, url) ==> SameDomain(baseUrl, l) && '#' !in l
    ensures Get(web, url).None? ==> LinksOf(web, baseUrl, url) == []
  {
    if Get(web, url).Some? {
      var hrefs := Get(web, url).value.hrefs;
      KeepLinksSpec(web, baseUrl, url, hrefs);
      forall l | l in LinksOf(web, baseUrl, url) ensures SameDomain(baseUrl, l) && '#' !in l {
        var h :| h in hrefs && Yields(web, baseUrl, url, h, l);
        StripFragmentSameDomain(baseUrl, web.join(url, h));
      }
    }
  }

  // ---------------------------------------------------------------------
  // crawl
  // ---------------------------------------------------------------------

  /** The crawl's variables: the FIFO `to_visit`, the `visited` field and the
      `discovered` list. */
  datatype CrawlState = CrawlState(toVisit: seq<string>, visited: set<string>, discovered: seq<string>)

  /** The inner loop of `crawl`: append each link that is neither visited nor
      already queued, checking against the queue as it grows. */
  function EnqueueNew(queue: seq<string>, visited: set<string>, links: seq<string>): seq<string>
    decreases |links|
  {
    if links == [] then queue
    else
      var l := links[0];
      EnqueueNew(if l !in visited && l !in queue then queue + [l] else queue, visited, links[1..])
  }

  /** The queue only grows at its end, by unvisited links; nothing is queued
      twice; and every unvisited link ends up queued. */
  lemma {:induction false} EnqueueNewSpec(queue: seq<string>, visited: set<string>, links: seq<string>)
    ensures var r := EnqueueNew(queue, visited, links);
      && |queue| <= |r| && r[..|queue|] == queue
      && (forall x :: x in r ==> x in queue || (x in links && x !in visited))
      && (forall x :: x in links && x !in visited ==> x in r)
      && (NoDuplicates(queue) ==> NoDuplicates(r))
    decreases |links|
  {
    if links != [] {
      var l := links[0];
      var q := if l !in visited && l !in queue then queue + [l] else queue;
      EnqueueNewSpec(q, visited, links[1..]);
      var r := EnqueueNew(queue, visited, links);
      assert r[..|queue|] == q[..|q|][..|queue|];
      assert l in q || l in visited;
      assert forall x :: x in links[1..] ==> x in links;
      forall x | x in links && x !in visited ensures x in r {
        if x != l {
          assert x in links[1..];
        }
      }
    }
  }

  /** One iteration of the `while` loop of `crawl`: pop the front URL; skip it
      if visited; otherwise mark it visited, record it and queue its links. */
  function Step(web: Web, baseUrl: string, s: CrawlState): (r: CrawlState)
    requires s.toVisit != []
    ensures (r.visited == s.visited && |r.toVisit| < |s.toVisit|) || |r.visited| == |s.visited| + 1
  {
    var current := s.toVisit[0];
    var rest := s.toVisit[1..];
    if current in s.visited then CrawlState(rest, s.visited, s.discovered)
    else
      var visited := s.visited + {current};
      CrawlState(EnqueueNew(rest, visited, LinksOf(web, baseUrl, current)), visited, s.discovered + [current])
  }

  /** The `while` loop of `crawl`: it runs while the queue is non-empty and
      fewer than `maxPages` URLs are visited. Each iteration either shrinks the
      queue or grows the visited set toward `maxPages`, so it terminates. */
  function CrawlLoop(web: Web, baseUrl: string, maxPages: int, s: CrawlState): CrawlState
    decreases maxPages - |s.visited|, |s.toVisit|
  {
    if s.toVisit != [] && |s.visited| < maxPages then CrawlLoop(web, baseUrl, maxPages, Step(web, baseUrl, s))
    else s
  }

  /** `crawl()` from the scanner's current `visited` set. */
  function Crawl(web: Web, baseUrl: string, maxPages: int, visited0: set<string>): CrawlState {
    CrawlLoop(web, baseUrl, maxPages, CrawlState([baseUrl], visited0, []))
  }

  /** What the loop keeps about `discovered` and `visited`: the URLs discovered
      so far are new, distinct, and exactly what was added to `visited`. */
  ghost predicate Bookkeeping(visited0: set<string>, s: CrawlState) {
    && NoDuplicates(s.discovered)
    && (forall x :: x in s.discovered ==> x !in visited0)
    && s.visited == visited0 + Elements(s.discovered)
    && |s.visited| == |visited0| + |s.discovered|
  }

  /** The queue has no URL twice and none already visited. */
  ghost predicate QueueSound(s: CrawlState) {
    NoDuplicates(s.toVisit) && forall x :: x in s.toVisit ==> x !in s.visited
  }

  /** Each URL was the seed or a link of a page discovered before it. */
  ghost predicate Discoverable(web: Web, baseUrl: string, discovered: seq<string>, u: string) {
    u == baseUrl || exists j :: 0 <= j < |discovered| && u in LinksOf(web, baseUrl, discovered[j])
  }

  ghost predicate Reached(web: Web, baseUrl: string, s: CrawlState) {
    && (forall i :: 0 <= i < |s.discovered| ==> Discoverable(web, baseUrl, s.discovered[..i], s.discovered[i]))
    && (forall u :: u in s.toVisit ==> Discoverable(web, baseUrl, s.discovered, u))
  }

  lemma DiscoverableExtend(web: Web, baseUrl: string, d: seq<string>, c: string, u: string)
    requires Discoverable(web, baseUrl, d, u)
    ensures Discoverable(web, baseUrl, d + [c], u)
  {
    if u != baseUrl {
      var j :| 0 <= j < |d| && u in LinksOf(web, baseUrl, d[j]);
      assert (d + [c])[j] == d[j];
    }
  }

  /** An iteration keeps the bookkeeping and only appends to `discovered`. */
  lemma StepBookkeeping(web: Web, baseUrl: string, visited0: set<string>, s: CrawlState)
    requires s.toVisit != [] && Bookkeeping(visited0, s)
    ensures Bookkeeping(visited0, Step(web, baseUrl, s))
    ensures s.discovered <= Step(web, baseUrl, s).discovered
  {
    var c := s.toVisit[0];
    if c !in s.visited {
      var d := s.discovered;
      var r := Step(web, baseUrl, s);
      assert r.discovered == d + [c] && r.visited == s.visited + {c};
      assert Elements(d + [c]) == Elements(d) + {c};
      assert c !in Elements(d);
      forall i, j | 0 <= i < j < |d| + 1 ensures (d + [c])[i] != (d + [c])[j] {
        if j == |d| {
          assert d[i] in Elements(d);
        }
      }
    }
  }

  /** An iteration keeps every discovered and every queued URL reachable. */
  lemma StepReached(web: Web, baseUrl: string, s: CrawlState)
    requires s.toVisit != [] && Reached(web, baseUrl, s)
    ensures Reached(web, baseUrl, Step(web, baseUrl, s))
  {
    var c := s.toVisit[0];
    if c !in s.visited {
      var r := Step(web, baseUrl, s);
      var d := s.discovered;
      var links := LinksOf(web, baseUrl, c);
      assert r.discovered == d + [c];
      EnqueueNewSpec(s.toVisit[1..], s.visited + {c}, links);
      forall i | 0 <= i < |r.discovered|
        ensures Discoverable(web, baseUrl, r.discovered[..i], r.discovered[i])
      {
        if i < |d| {
          assert r.discovered[..i] == d[..i];
        } else {
          assert r.discovered[..i] == d;
        }
      }
      forall u | u in r.toVisit ensures Discoverable(web, baseUrl, r.discovered, u) {
        if u in s.toVisit[1..] {
          DiscoverableExtend(web, baseUrl, d, c, u);
        } else {
          assert u in links;
          assert r.discovered[|d|] == c;
        }
      }
    }
  }

  /** A sound queue is preserved by an iteration, and from a sound queue an
      iteration always discovers the URL it pops. */
  lemma StepKeepsQueueSound(web: Web, baseUrl: string, s: CrawlState)
    requires s.toVisit != [] && QueueSound(s)
    ensures QueueSound(Step(web, baseUrl, s))
    ensures Step(web, baseUrl, s).discovered == s.discovered + [s.toVisit[0]]
    ensures Step(web, baseUrl, s).visited == s.visited + {s.toVisit[0]}
  {
    var c := s.toVisit[0];
    var rest := s.toVisit[1..];
    assert c !in rest by {
      assert forall i :: 0 < i < |s.toVisit| ==> s.toVisit[i] != s.toVisit[0];
    }
    EnqueueNewSpec(rest, s.visited + {c}, LinksOf(web, baseUrl, c));
  }

  /** A page whose request fails is still discovered and queues nothing. */
  lemma FailedPageDiscovered(web: Web, baseUrl: string, s: CrawlState)
    requires s.toVisit != [] && s.toVisit[0] !in s.visited && Get(web, s.toVisit[0]).None?
    ensures Step(web, baseUrl, s) == CrawlState(s.toVisit[1..], s.visited + {s.toVisit[0]}, s.discovered + [s.toVisit[0]])
  {
    LinksOfSpec(web, baseUrl, s.toVisit[0]);
  }

  /** The loop keeps the bookkeeping and reachability, only appends to
      `discovered`, and never lets `visited` pass `maxPages` unless it already had. */
  lemma {:induction false} CrawlLoopInvariant(web: Web, baseUrl: string, maxPages: int, visited0: set<string>, s: CrawlState)
    requires Bookkeeping(visited0, s) && Reached(web, baseUrl, s)
    ensures var r := CrawlLoop(web, baseUrl, maxPages, s);
      && Bookkeeping(visited0, r) && Reached(web, baseUrl, r)
      && s.discovered <= r.discovered
      && (|s.visited| <= maxPages ==> |r.visited| <= maxPages)
      && (|s.visited| >= maxPages ==> r == s)
    decreases maxPages - |s.visited|, |s.toVisit|
  {
    if s.toVisit != [] && |s.visited| < maxPages {
      var s' := Step(web, baseUrl, s);
      StepBookkeeping(web, baseUrl, visited0, s);
      StepReached(web, baseUrl, s);
      CrawlLoopInvariant(web, baseUrl, maxPages, visited0, s');
    }
  }

  /** Every iteration the loop still runs pops a URL not yet visited: the
      `continue` branch is never taken. */
  ghost predicate NeverSkips(web: Web, baseUrl: string, maxPages: int, s: CrawlState)
    decreases maxPages - |s.visited|, |s.toVisit|
  {
    s.toVisit != [] && |s.visited| < maxPages ==>
      s.toVisit[0] !in s.visited && NeverSkips(web, baseUrl, maxPages, Step(web, baseUrl, s))
  }

  /** From a queue with no URL twice and none visited, the loop keeps the queue
      that way to its end and never skips a popped URL. */
  lemma {:induction false} CrawlLoopQueueSound(web: Web, baseUrl: string, maxPages: int, s: CrawlState)
    requires QueueSound(s)
    ensures QueueSound(CrawlLoop(web, baseUrl, maxPages, s))
    ensures NeverSkips(web, baseUrl, maxPages, s)
    decreases maxPages - |s.visited|, |s.toVisit|
  {
    if s.toVisit != [] && |s.visited| < maxPages {
      StepKeepsQueueSound(web, baseUrl, s);
      CrawlLoopQueueSound(web, baseUrl, maxPages, Step(web, baseUrl, s));
    }
  }

  /** When the base URL is not visited yet, the seed queue is sound, so the
      whole crawl keeps its queue duplicate-free and disjoint from `visited`,
      and the skip in the loop never fires. */
  lemma CrawlQueueSound(web: Web, baseUrl: string, maxPages: int, visited0: set<string>)
    requires baseUrl !in visited0
    ensures QueueSound(CrawlState([baseUrl], visited0, []))
    ensures QueueSound(Crawl(web, baseUrl, maxPages, visited0))
    ensures NeverSkips(web, baseUrl, maxPages, CrawlState([baseUrl], visited0, []))
  {
    var s := CrawlState([baseUrl], visited0, []);
    assert QueueSound(s);
    CrawlLoopQueueSound(web, baseUrl, maxPages, s);
  }

  /** `crawl()` returns distinct URLs that were not visited before the call; the
      `visited` field grows by exactly these; and at most `maxPages` URLs are
      visited in all, unless more were visited before. */
  lemma CrawlSpec(web: Web, baseUrl: string, maxPages: int, visited0: set<string>)
    ensures var r := Crawl(web, baseUrl, maxPages, visited0);
      && NoDuplicates(r.discovered)
      && (forall x :: x in r.discovered ==> x !in visited0)
      && r.visited == visited0 + Elements(r.discovered)
      && |r.discovered| <= (if |visited0| < maxPages then maxPages - |visited0| else 0)
  {
    var s := CrawlState([baseUrl], visited0, []);
    assert Elements(s.discovered) == {};
    CrawlLoopInvariant(web, baseUrl, maxPages, visited0, s);
  }

  /** On a fresh scanner the first iteration discovers the base URL. */
  lemma FreshFirstStep(web: Web, baseUrl: string, maxPages: int)
    requires maxPages > 0
    ensures var s := CrawlState([baseUrl], {}, []);
      && Crawl(web, baseUrl, maxPages, {}) == CrawlLoop(web, baseUrl, maxPages, Step(web, baseUrl, s))
      && Step(web, baseUrl, s).discovered == [baseUrl]
  {
  }

  /** On a fresh scanner, `crawl()` returns at most `maxPages` URLs, starting with
      the base URL (when `maxPages > 0`); every URL it returns after the first is
      a link of a page returned before it. */
  lemma CrawlFromFresh(web: Web, baseUrl: string, maxPages: int)
    ensures var d := Crawl(web, baseUrl, maxPages, {}).discovered;
      && |d| <= (if maxPages > 0 then maxPages else 0)
      && (maxPages > 0 ==> |d| > 0 && d[0] == baseUrl)
      && (forall i :: 0 < i < |d| ==> exists j :: 0 <= j < i && d[i] in LinksOf(web, baseUrl, d[j]))
  {
    var s := CrawlState([baseUrl], {}, []);
    var r := Crawl(web, baseUrl, maxPages, {});
    CrawlSpec(web, baseUrl, maxPages, {});
    CrawlLoopInvariant(web, baseUrl, maxPages, {}, s);
    var d := r.discovered;
    if maxPages > 0 {
      FreshFirstStep(web, baseUrl, maxPages);
      var s' := Step(web, baseUrl, s);
      StepBookkeeping(web, baseUrl, {}, s);
      StepReached(web, baseUrl, s);
      CrawlLoopInvariant(web, baseUrl, maxPages, {}, s');
      assert [baseUrl] <= d;
    }
    SeedLinked(web, baseUrl, d);
  }

  /** A duplicate-free list that starts at the seed, each entry discoverable
      from the entries before it: every entry after the first is a link of an
      earlier one. */
  lemma SeedLinked(web: Web, baseUrl: string, d: seq<string>)
    requires |d| > 0 ==> d[0] == baseUrl
    requires NoDuplicates(d)
    requires forall i :: 0 <= i < |d| ==> Discoverable(web, baseUrl, d[..i], d[i])
    ensures forall i :: 0 < i < |d| ==> exists j :: 0 <= j < i && d[i] in LinksOf(web, baseUrl, d[j])
  {
    forall i | 0 < i < |d| ensures exists j :: 0 <= j < i && d[i] in LinksOf(web, baseUrl, d[j]) {
      assert Discoverable(web, baseUrl, d[..i], d[i]);
      assert d[i] != d[0];
      var j :| 0 <= j < i && d[i] in LinksOf(web, baseUrl, d[..i][j]);
      assert d[..i][j] == d[j];
    }
  }

  /** Every URL a fresh `crawl()` returns is same-domain with the base URL. */
  lemma CrawlStaysOnSite(web: Web, baseUrl: string, maxPages: int)
    ensures forall u :: u in Crawl(web, baseUrl, maxPages, {}).discovered ==> SameDomain(baseUrl, u)
  {
    var d := Crawl(web, baseUrl, maxPages, {}).discovered;
    CrawlFromFresh(web, baseUrl, maxPages);
    forall u | u in d ensures SameDomain(baseUrl, u) {
      var i :| 0 <= i < |d| && d[i] == u;
      if i > 0 {
        var j :| 0 <= j < i && u in LinksOf(web, baseUrl, d[j]);
        LinksOfSpec(web, baseUrl, d[j]);
      }
    }
  }

  /** The `visited` field persists across calls: once the base URL is visited,
      a further `crawl()` discovers nothing and leaves `visited` as it is. */
  lemma CrawlAgainFindsNothing(web: Web, baseUrl: string, maxPages: int, visited0: set<string>)
    requires baseUrl in visited0
    ensures Crawl(web, baseUrl, maxPages, visited0).discovered == []
    ensures Crawl(web, baseUrl, maxPages, visited0).visited == visited0
  {
    var s := CrawlState([baseUrl], visited0, []);
    if |visited0| < maxPages {
      assert Step(web, baseUrl, s) == CrawlState([], visited0, []);
      assert Crawl(web, baseUrl, maxPages, visited0) == CrawlLoop(web, baseUrl, maxPages, CrawlState([], visited0, []));
    }
  }

  /** A seed that yields no link (its request failed, or none of its links is
      same-domain): a fresh crawl discovers only the seed. */
  lemma CrawlIsolatedSeed(web: Web, baseUrl: string, maxPages: int)
    requires maxPages > 0 && LinksOf(web, baseUrl, baseUrl) == []
    ensures Crawl(web, baseUrl, maxPages, {}).discovered == [baseUrl]
    ensures Crawl(web, baseUrl, maxPages, {}).visited == {baseUrl}
  {
    var s := CrawlState([baseUrl], {}, []);
    var s' := CrawlState([], {baseUrl}, [baseUrl]);
    assert Step(web, baseUrl, s) == s';
    assert Crawl(web, baseUrl, maxPages, {}) == CrawlLoop(web, baseUrl, maxPages, s');
  }
}
