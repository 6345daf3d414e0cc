/** The URL handling of the scanner: normalising the base URL, the network
    location of a URL (as Python's `urllib.parse.urlsplit` finds it), the
    same-domain test and fragment stripping. */
module Urls {
  import opened Text

  // ---------------------------------------------------------------------
  // Base URL normalisation (SimpleWebScanner.__init__)
  // ---------------------------------------------------------------------

  /** A target without a leading "http" gets the "http://" scheme; then every
      trailing '/' is removed. */
  function NormalizeBaseUrl(target: string): string {
    var withScheme := if IsPrefix("http", target) then target else "http://" + target;
    RStrip(withScheme, '/')
  }

  /** The normalised base URL starts with "http", has no trailing '/', and is
      the scheme-completed target with only trailing '/' characters removed. */
  lemma NormalizeBaseUrlSpec(target: string)
    ensures var b := NormalizeBaseUrl(target);
      var full := if IsPrefix("http", target) then target else "http://" + target;
      && IsPrefix("http", b)
      && (b == [] || b[|b| - 1] != '/')
      && IsPrefix(b, full)
      && (forall j :: |b| <= j < |full| ==> full[j] == '/')
  {
    var full := if IsPrefix("http", target) then target else "http://" + target;
    assert IsPrefix("http", full);
    RStripKeepsPrefix(full, '/', "http");
  }

  /** Normalising an already normalised base URL changes nothing. */
  lemma NormalizeBaseUrlIdempotent(target: string)
    ensures NormalizeBaseUrl(NormalizeBaseUrl(target)) == NormalizeBaseUrl(target)
  {
    NormalizeBaseUrlSpec(target);
  }

  // ---------------------------------------------------------------------
  // Network location, after urllib.parse.urlsplit
  // ---------------------------------------------------------------------

  predicate IsAsciiLetter(c: char) {
    'a' <= c <= 'z' || 'A' <= c <= 'Z'
  }

  /** The characters urlsplit accepts in a scheme. */
  predicate IsSchemeChar(c: char) {
    IsAsciiLetter(c) || '0' <= c <= '9' || c == '+' || c == '-' || c == '.'
  }

  /** urlsplit recognises a scheme when the first ':' is preceded by a non-empty
      run of scheme characters starting with a letter. */
  predicate HasScheme(url: string) {
    var i := IndexOf(url, ':');
    0 < i < |url| && IsAsciiLetter(url[0]) && forall j :: 0 <= j < i ==> IsSchemeChar(url[j])
  }

  /** What urlsplit has left after removing the scheme and its ':'. */
  function AfterScheme(url: string): string {
    if HasScheme(url) then url[IndexOf(url, ':') + 1..] else url
  }

  predicate IsNetlocEnd(c: char) {
    c == '/' || c == '?' || c == '#'
  }

  /** Index of the first '/', '?' or '#' of s, or |s|. */
  function NetlocEnd(s: string): (k: nat)
    ensures k <= |s|
    ensures forall j :: 0 <= j < k ==> !IsNetlocEnd(s[j])
    ensures k < |s| ==> IsNetlocEnd(s[k])
  {
    if s == [] then 0
    else if IsNetlocEnd(s[0]) then 0
    else 1 + NetlocEnd(s[1..])
  }

  /** `urlparse(url).netloc`: after "//", everything up to the first '/', '?' or
      '#'; the empty string when the rest does not start with "//". */
  function Netloc(url: string): (n: string)
    ensures forall i :: 0 <= i < |n| ==> !IsNetlocEnd(n[i])
  {
    var rest := AfterScheme(url);
    if |rest| >= 2 && rest[..2] == "//" then
      var tail := rest[2..];
      tail[..NetlocEnd(tail)]
    else ""
  }

  // ---------------------------------------------------------------------
  // same_domain and fragment stripping
  // ---------------------------------------------------------------------

  /** `same_domain`: the URL's netloc is the base URL's, or it has none. */
  predicate SameDomain(baseUrl: string, url: string) {
    Netloc(baseUrl) == Netloc(url) || Netloc(url) == ""
  }

  /** `url.split("#")[0]`: the part before the first '#'. */
  function StripFragment(url: string): (r: string)
    ensures '#' !in r
    ensures IsPrefix(r, url)
    ensures |r| < |url| ==> url[|r|] == '#'
  {
    url[..IndexOf(url, '#')]
  }

  /** The netloc end found in a prefix is the one of the whole string when it
      lies inside the prefix. */
  lemma {:induction false} NetlocEndPrefix(s: string, n: nat)
    requires NetlocEnd(s) <= n <= |s|
    ensures NetlocEnd(s[..n]) == NetlocEnd(s)
    decreases |s|
  {
    if s != [] && !IsNetlocEnd(s[0]) {
      assert s[..n][1..] == s[1..][..n - 1];
      NetlocEndPrefix(s[1..], n - 1);
    }
  }

  /** A scheme holds no '#', so its ':' comes before the first '#'. */
  lemma SchemeBeforeFragment(url: string)
    requires HasScheme(url)
    ensures IndexOf(url, ':') < IndexOf(url, '#')
  {
    var i := IndexOf(url, ':');
    assert forall j :: 0 <= j < i ==> url[j] != '#' by {
      assert forall j :: 0 <= j < i ==> IsSchemeChar(url[j]);
    }
    assert url[i] == ':';
  }

  /** Cutting at the first '#' keeps the scheme, and its ':', exactly when there
      is one. */
  lemma StripFragmentScheme(url: string)
    ensures HasScheme(StripFragment(url)) == HasScheme(url)
    ensures HasScheme(url) ==> IndexOf(StripFragment(url), ':') == IndexOf(url, ':')
  {
    var k := IndexOf(url, '#');
    var t := url[..k];
    IndexOfPrefix(url, ':', k);
    assert forall j :: 0 <= j < |t| ==> t[j] == url[j];
    if HasScheme(url) {
      SchemeBeforeFragment(url);
    }
  }

  /** Cutting a string at its first '#' commutes with removing the scheme. */
  lemma AfterSchemeStripFragment(url: string)
    ensures AfterScheme(StripFragment(url)) == StripFragment(AfterScheme(url))
  {
    StripFragmentScheme(url);
    if HasScheme(url) {
      var k := IndexOf(url, '#');
      var i := IndexOf(url, ':');
      SchemeBeforeFragment(url);
      var rest := url[i + 1..];
      assert forall j :: 0 <= j < k - i - 1 ==> rest[j] == url[i + 1 + j];
      assert IndexOf(rest, '#') == k - i - 1 by {
        if k < |url| {
          assert rest[k - i - 1] == '#';
        }
      }
      assert url[..k][i + 1..] == rest[..k - i - 1];
    }
  }

  /** Stripping the fragment never changes the netloc. */
  lemma StripFragmentKeepsNetloc(url: string)
    ensures Netloc(StripFragment(url)) == Netloc(url)
  {
    AfterSchemeStripFragment(url);
    var rest := AfterScheme(url);
    var m := IndexOf(rest, '#');
    var restT := rest[..m];
    assert AfterScheme(StripFragment(url)) == restT;
    if |rest| >= 2 && rest[..2] == "//" {
      assert m >= 2 by {
        assert rest[0] == '/' && rest[1] == '/';
      }
      assert restT[..2] == "//";
      var tail := rest[2..];
      var e := NetlocEnd(tail);
      assert restT[2..] == tail[..m - 2];
      assert e <= m - 2 by {
        if m < |rest| {
          assert tail[m - 2] == '#';
        }
      }
      NetlocEndPrefix(tail, m - 2);
      assert tail[..m - 2][..e] == tail[..e];
    }
  }

  /** A link kept by the crawler is same-domain even after its fragment is cut. */
  lemma StripFragmentSameDomain(baseUrl: string, url: string)
    requires SameDomain(baseUrl, url)
    ensures SameDomain(baseUrl, StripFragment(url))
  {
    StripFragmentKeepsNetloc(url);
  }
}
