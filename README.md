# A verified model of SimpleWebScanner and SeverityModel

This project models the core of a small educational web-vulnerability
scanner, in Dafny.

`SimpleWebScanner` works in stages:
- It normalises a target URL.
- It crawls the target breadth-first over same-domain `<a href>` links, up to
  a page cap.
- For every page it finds, it reports:
  - which of four security headers are missing;
  - for URLs with query parameters, reflected-XSS and error-based SQL
    injection findings, found by substituting fixed payloads into one
    parameter at a time.

`SeverityModel` turns a finding into a four-component feature vector. It
builds a seven-row synthetic training set and picks the most probable class
from a classifier's probabilities. It then names that class.

The outside world is a value of type `Http.Web`. It holds three oracles:
- `fetch`: the network (a request that raised is `None`);
- `join`: `urljoin`;
- `extractParams`: `parse_qs` of the query.

Everything the scanner computes is then a function of that value. These are
the modules:

| module | models |
|---|---|
| `Text` | `str.lower`, `startswith`, `in` on strings, `rstrip`, `find` |
| `Seqs` | duplicate-freedom and subsequences, used to state order |
| `Urls` | base-URL normalisation, `urlparse(..).netloc`, `same_domain`, `split("#")[0]` |
| `Http` | requests, responses, parameter maps, the oracles, the finding record |
| `Crawling` | `get_links` and the `crawl` loop as functions, with their invariants |
| `SecurityHeaders` | `check_security_headers` as a function |
| `Injection` | the substitution, the per-attempt rule and the attempt order of `test_reflected_xss` / `test_basic_sqli` |
| `Scanning` | `scan` as a function |
| `Scanner` | the class `SimpleWebScanner`: its state (`visited`) and its methods, each proved equal to the function above |
| `Severity` | `SeverityModel`'s encoders, features, training table, argmax and labels |

The class methods are imperative, like the source: loops that append,
a FIFO queue and an in-place `visited` set. Each method's postcondition
ties its result and its new state to a specification function. The lemmas
beside those functions state what the source promises.

Two points follow the code:
- The `visited` set is a field. The code never clears it, so it persists
  from one `crawl()` or `scan()` call to the next. A second call on the same
  scanner therefore discovers nothing (`Crawling.CrawlAgainFindsNothing`,
  `Scanning.ScanAgainFindsNothing`).
- `requests` raises nothing on an HTTP error status. A page answered with
  status 500 is therefore an ordinary response whose links are followed.
  "A seed that answers 500 yields only itself" holds when that page has no
  same-domain link (`Crawling.CrawlIsolatedSeed`).

## Model

| member | source | states |
|---|---|---|
| `Scanner.SimpleWebScanner.constructor` | src/scanner_core.py:19-31 | the base URL is the normalised target, the page cap defaults to 20 and the timeout to 5, nothing is visited, the payload lists are the fixed ones |
| `Urls.NormalizeBaseUrl` | src/scanner_core.py:20-22 | the base URL of a target; what it is, is stated by `Urls.NormalizeBaseUrlSpec` |
| `Urls.NormalizeBaseUrlSpec` | src/scanner_core.py:20-22 | the base URL starts with "http", has no trailing '/', and is the scheme-completed target minus trailing '/' characters only |
| `Urls.NormalizeBaseUrlIdempotent` | src/scanner_core.py:20-22 | normalising a normalised base URL changes nothing |
| `Urls.Netloc` | src/scanner_core.py:34-35 | the netloc `urlparse` gives: what follows the scheme's "//" up to the first '/', '?' or '#', so it contains none of them; empty without "//" |
| `Urls.SameDomain` | src/scanner_core.py:33-36 | a URL is same-domain when its netloc equals the base URL's or it has none; it survives the fragment cut (`Urls.StripFragmentSameDomain`) |
| `Text.Lower` | src/scanner_core.py:86 | the lower-cased string has the same length and no upper-case letter; each upper-case letter becomes its lower-case partner and every other character stays |
| `Urls.StripFragment` | src/scanner_core.py:50 | the cut URL has no '#', is a prefix of the URL, and is followed in it by '#' unless it is the whole URL |
| `Urls.StripFragmentKeepsNetloc` | src/scanner_core.py:33-36 | cutting the fragment never changes the netloc |
| `Urls.AfterSchemeStripFragment` | src/scanner_core.py:33-36 | cutting at the first '#' commutes with removing the scheme |
| `Urls.StripFragmentSameDomain` | src/scanner_core.py:49-50 | a link that passed the same-domain test still passes it after its fragment is cut |
| `Scanner.SimpleWebScanner.GetLinks` | src/scanner_core.py:38-51 | the method returns exactly the link list of the page, none when the request fails |
| `Crawling.KeepLinks` | src/scanner_core.py:46-51 | each href gives at most one link; which links, is stated by `Crawling.KeepLinksSpec` |
| `Crawling.LinksOf` | src/scanner_core.py:38-51 | the links of a page, none when its request fails; its properties are `Crawling.LinksOfSpec` |
| `Crawling.KeepLinksSpec` | src/scanner_core.py:46-51 | a URL is returned exactly when some href resolves to a same-domain URL whose fragment-free form it is |
| `Crawling.LinksOfSpec` | src/scanner_core.py:38-51 | every returned link is same-domain and has no fragment; a failed request gives no links |
| `Scanner.SimpleWebScanner.Crawl` | src/scanner_core.py:53-70 | the loop computes the crawl function from the current `visited`; the result has no duplicates and no URL visited before; `visited` grows by exactly the result |
| `Crawling.EnqueueNew` | src/scanner_core.py:66-68 | the queue after the links of one page are offered; its properties are `Crawling.EnqueueNewSpec` |
| `Crawling.CrawlLoop` | src/scanner_core.py:60-68 | the `while` loop run to its end; what it keeps is stated by `Crawling.CrawlLoopInvariant` and `Crawling.CrawlLoopQueueSound` |
| `Crawling.Crawl` | src/scanner_core.py:53-70 | `crawl()` from a given `visited` set; its properties are `Crawling.CrawlSpec` and the lemmas after it |
| `Crawling.EnqueueNewSpec` | src/scanner_core.py:66-68 | the queue only grows at its end, by unvisited links, never holds a URL twice, and receives every unvisited link |
| `Crawling.Step` | src/scanner_core.py:60-68 | each iteration either shrinks the queue with `visited` unchanged or grows `visited` by one, so the loop terminates |
| `Crawling.StepBookkeeping` | src/scanner_core.py:62-65 | an iteration keeps `discovered` duplicate-free, new, and equal to what was added to `visited` |
| `Crawling.StepReached` | src/scanner_core.py:61-68 | an iteration keeps every discovered and queued URL reachable from the seed through links |
| `Crawling.StepKeepsQueueSound` | src/scanner_core.py:61-68 | from a duplicate-free queue of unvisited URLs, an iteration keeps that property and always discovers the URL it pops |
| `Crawling.FailedPageDiscovered` | src/scanner_core.py:39-42 | a page whose request fails is still visited and discovered and queues nothing |
| `Crawling.CrawlLoopInvariant` | src/scanner_core.py:60-68 | the loop preserves bookkeeping and reachability, only appends to `discovered`, and never takes `visited` past the page cap |
| `Crawling.CrawlLoopQueueSound` | src/scanner_core.py:60-68 | from a queue with no URL twice and none visited, the queue stays that way through the whole loop, and every iteration pops an unvisited URL |
| `Crawling.CrawlQueueSound` | src/scanner_core.py:57-68 | when the base URL is not visited yet, the queue stays duplicate-free and disjoint from `visited` throughout the crawl, and the skip at the `continue` never fires |
| `Crawling.CrawlSpec` | src/scanner_core.py:53-70 | the crawl returns distinct URLs not visited before, `visited` becomes old `visited` plus them, and at most cap minus old size are returned |
| `Crawling.CrawlFromFresh` | src/scanner_core.py:57-70 | a fresh crawl returns at most `max_pages` URLs, the seed first, and each later URL is a link of an earlier one |
| `Crawling.CrawlStaysOnSite` | src/scanner_core.py:49-50 | every URL a fresh crawl returns is same-domain with the base URL |
| `Crawling.CrawlAgainFindsNothing` | src/scanner_core.py:57-64 | once the base URL is visited, a crawl returns nothing and leaves `visited` as it is |
| `Crawling.CrawlIsolatedSeed` | src/scanner_core.py:57-70 | a seed without same-domain links, or whose request fails, gives a crawl of exactly the seed and a visited set of size one |
| `Scanner.SimpleWebScanner.CheckSecurityHeaders` | src/scanner_core.py:76-103 | the loop computes exactly the header-audit function |
| `SecurityHeaders.LowerNames` | src/scanner_core.py:86 | the set of lower-cased header names of a response; the audit tests membership in it |
| `SecurityHeaders.MissingHeaders` | src/scanner_core.py:95-102 | at most one finding per required name; which ones, is stated by the three lemmas below |
| `SecurityHeaders.HeaderAudit` | src/scanner_core.py:76-103 | at most four findings; the full statement is `SecurityHeaders.HeaderAuditSpec` |
| `SecurityHeaders.MissingHeadersMembers` | src/scanner_core.py:95-102 | a finding is reported exactly for each required name not present |
| `SecurityHeaders.MissingHeadersOrder` | src/scanner_core.py:88-102 | the reported header names follow the order of the required list |
| `SecurityHeaders.MissingHeadersCount` | src/scanner_core.py:95-102 | for distinct required names there is one finding per absent name |
| `SecurityHeaders.RequiredHeadersDistinct` | src/scanner_core.py:88-93 | the four required names are distinct |
| `SecurityHeaders.HeaderAuditSpec` | src/scanner_core.py:80-103 | a failed request gives no finding; otherwise exactly one `missing_header` finding with the audited URL for each required name absent after lower-casing, in list order, each once |
| `SecurityHeaders.NoSecurityHeaders` | src/scanner_core.py:86-103 | a response with none of the four headers gets exactly four findings, in the fixed order |
| `Injection.Substitute` | src/scanner_core.py:118 | the substituted query succeeds exactly when every other parameter has a value; it keeps the keys in order, holds the payload at the tested key and the first value elsewhere |
| `Http.Keys` | src/scanner_core.py:115 | one name per parameter, exactly the parameters' names, each once since `parse_qs` keys are unique |
| `Injection.Trips` | src/scanner_core.py:141-155 | the XSS rule is that the payload occurs in the body; the SQLi rule is that some listed error signature occurs in the lower-cased body |
| `Injection.Probe` | src/scanner_core.py:116-129 | the finding of one attempt; its meaning is stated by `Injection.ProbeSpec` |
| `Scanner.SimpleWebScanner.Attempt` | src/scanner_core.py:116-129 | one attempt reports exactly the probe function's finding and issues one request exactly when substitution succeeds |
| `Injection.ProbeSpec` | src/scanner_core.py:116-129 | an attempt reports at most one finding, exactly when substitution, request and detection rule all succeed; that finding is the check's report at the response URL |
| `Injection.AttemptsSpec` | src/scanner_core.py:114-115 | there are payloads × parameters attempts, exactly the pairs of a payload and a parameter |
| `Injection.ProbeAll` | src/scanner_core.py:114-129 | at most one finding per attempt, in attempt order; membership is `Injection.ProbeAllMembers` |
| `Injection.ProbeAllOrder` | src/scanner_core.py:114-129 | findings come in payload-outer, parameter-inner attempt order |
| `Injection.ProbeAllMembers` | src/scanner_core.py:114-129 | an attempt is reported exactly when its probe reports; every finding has the check's type and names a parameter and payload |
| `Injection.SentBound` | src/scanner_core.py:114-119 | at most one request per attempt |
| `Injection.InjectionFindings` | src/scanner_core.py:109-130 | a tester's findings, none without parameters; its properties are `Injection.InjectionBounds` and `Injection.InjectionMembers` |
| `Injection.NoParamsNoProbes` | src/scanner_core.py:110-112 | a URL without parameters gets no finding and no request |
| `Injection.InjectionBounds` | src/scanner_core.py:109-130 | at most payloads × parameters requests and findings, in attempt order |
| `Injection.InjectionMembers` | src/scanner_core.py:149-164 | a (payload, parameter) pair is reported exactly when the payload is listed, the parameter is the URL's and that attempt trips the rule |
| `Injection.ReflectedPayloadReported` | src/scanner_core.py:118-127 | a page echoing an XSS payload sent in one of its parameters gets an `xss_reflected` finding naming that parameter and payload |
| `Scanner.SimpleWebScanner.RunInjection` | src/scanner_core.py:109-130 | the nested loops compute the tester function and issue exactly its request list |
| `Scanner.SimpleWebScanner.TestReflectedXss` | src/scanner_core.py:105-130 | the XSS tester with the fixed XSS payloads |
| `Scanner.SimpleWebScanner.TestBasicSqli` | src/scanner_core.py:132-165 | the SQLi tester with the fixed SQLi payloads and signatures |
| `Scanner.SimpleWebScanner.Scan` | src/scanner_core.py:167-182 | the loop computes the scan function from the current `visited`, and leaves `visited` as the crawl does |
| `Scanning.UrlFindings` | src/scanner_core.py:173-180 | the findings of one URL; their split by type is `Scanning.UrlFindingsByKind` |
| `Scanning.ScanAll` | src/scanner_core.py:171-182 | the findings of a URL list, concatenated in order; membership is `Scanning.ScanAllMembers` |
| `Scanning.Scan` | src/scanner_core.py:167-182 | `scan()` from a given `visited` set: the findings of the URLs the crawl returns |
| `Scanning.UrlFindingsUnguarded` | src/scanner_core.py:177-180 | the guard on parameters is redundant: the testers already report nothing without parameters |
| `Scanning.UrlFindingsByKind` | src/scanner_core.py:173-180 | a URL's findings split by type into exactly its header audit, its XSS test and its SQLi test, with no other type |
| `Scanning.ScanAllMembers` | src/scanner_core.py:171-182 | a finding is in the scan exactly when it is a finding of a crawled URL |
| `Scanning.ScanHeaderFindingsOnSite` | src/scanner_core.py:172-175 | on a fresh scanner every `missing_header` finding is about a same-domain page |
| `Scanning.ScanAgainFindsNothing` | src/scanner_core.py:171-173 | once the base URL is visited, a scan reports nothing |
| `Scanning.ScanBarePage` | src/scanner_core.py:171-182 | a single page without links, parameters or security headers is scanned as exactly four `missing_header` findings for the base URL |
| `Scanning.ScanUnreachableSeed` | src/scanner_core.py:171-182 | an unreachable seed without parameters gives an empty scan |
| `Severity.EncodeType` | src/ml_model.py:17-24 | the code is 2 exactly for the two injection types and 1 exactly for `missing_header`, otherwise 0 |
| `Severity.EncodeHeaderName` | src/ml_model.py:26-39 | the score lies in 0..2 and is 0 without a header |
| `Severity.HeaderScoreSpec` | src/ml_model.py:30-39 | the score is 2 exactly when the lower-cased name contains the CSP or HSTS name, and positive exactly when it contains a required header name |
| `Severity.HeaderScoreCaseInsensitive` | src/ml_model.py:30 | header names are scored case-insensitively |
| `Severity.RequiredHeaderScores` | src/ml_model.py:31-38 | the four required names score 2, 1, 1, 2 |
| `Severity.UrlLengthNorm` | src/ml_model.py:53-54 | the URL feature lies in [0,1], is 0 for a missing or empty URL, length/200 up to 200 and 1 beyond |
| `Severity.Features` | src/ml_model.py:41-56 | four features, each in its range {0,1,2}, {0,1}, {0,1,2}, [0,1], whatever keys are missing |
| `Severity.ScannerFindingFeatures` | src/ml_model.py:50-56 | the scanner's findings map to [1, 0, header score, URL] and [2, payload non-empty, 0, URL] |
| `Severity.BuildTrainingSet` | src/ml_model.py:76-78 | the loop builds one feature row and one label per exemplar, in order |
| `Severity.TrainingSetValues` | src/ml_model.py:66-78 | the labels are 2,2,1,1,2,1,0 and the feature rows are the listed numbers, with 8/200 for the URL |
| `Severity.Argmax` | src/ml_model.py:92 | the index of a maximal entry with every earlier entry strictly smaller |
| `Severity.ArgmaxUnique` | src/ml_model.py:92 | an index whose entry is maximal, with every earlier entry strictly smaller, is the index chosen |
| `Severity.PredictSeverity` | src/ml_model.py:85-94 | the class is the first most probable index of the classifier's probabilities and the confidence its probability |
| `Severity.LabelFromClass` | src/ml_model.py:96-99 | the label is "desconhecido" exactly for indices outside 0..2 |
| `Severity.ClassLabels` | src/ml_model.py:97-99 | classes 0, 1, 2 are "baixo", "médio", "alto", all different |
| `Severity.PredictedLabelKnown` | src/ml_model.py:91-99 | with a three-class classifier the predicted class always has a known label |

## Left out

- The HTTP layer is the oracle `Web.fetch`. This covers `requests.Session`, disabled TLS verification, urllib3 warning suppression, encoding of `params=`, redirects and the computation of `resp.url`. The oracle is deterministic: the same request always gets the same answer.
- `timeout` is stored on the scanner but has no effect: the model has no clock, and a timed-out request is one that returned `None`.
- BeautifulSoup parsing is not modelled. A response carries the `href` values of its `<a href>` elements in document order.
- `urljoin` is the oracle `Web.join`.
- `Web.join` and `Web.extractParams` are total. In the source, `urljoin` and `urlparse` can raise `ValueError` on a malformed URL. They are called outside any `try`: in `get_links`, and in `extract_params` as `scan` and both testers call it. Such an error aborts the whole `crawl()` or `scan()`, and the model does not capture that abort.
- `parse_qs(urlparse(url).query)` is the oracle `Web.extractParams`, so `extract_params` has no member of its own. Its result is a list of distinct keys with their value lists, in first-occurrence order.
- `Urls.Netloc` follows `urlsplit`'s scheme and netloc rules. It does not model stripping of whitespace and control characters, or the `ValueError` for malformed IPv6 brackets.
- `Text.Lower` lower-cases ASCII letters only. Python's `str.lower` also lower-cases other alphabets, so header names with non-ASCII capitals compare differently.
- A finding dictionary is the `Http.Finding` record, with `kind` standing for the `type` key. For the severity model it is a `Severity.Record` of optional strings, so non-string values under those keys are not modelled.
- The injection methods return their request log as a ghost value. It exists to state that no request is issued without parameters.
- `Severity.PredictSeverity` requires a non-empty probability vector. `np.argmax` raises on an empty one, and a fitted three-class model never returns one.
- `LogisticRegression` construction, `fit` and `predict_proba` are not modelled: the classifier is a parameter. The class a given finding receives is therefore not proved, only how it is chosen from the probabilities.
- Floating point is modelled as exact reals. `len(url) / 200.0` has no rounding, and NaN probabilities in `argmax` are not modelled.
- `main.py` (agent orchestration, API keys, shell calls) is not part of this model.
