/** The injection tester (`test_reflected_xss`, `test_basic_sqli`) as
    functions of the web oracle: the parameter substitution, the detection
    rule of each check, and the findings of all (payload, parameter) attempts
    taken payload-outer, parameter-inner. */
module Injection {
  import opened Wrappers
  import opened Text
  import opened Seqs
  import opened Http

  const XSS_PAYLOADS: seq<string> := ["\"><script>alert(1)</script>", "'><img src=x onerror=alert(1)>"]

  const SQLI_PAYLOADS: seq<string> := ["'", "' OR '1'='1", "\" OR \"1\"=\"1", "';--"]

  const SQL_ERROR_SIGNATURES: seq<string> := [
    "you have an error in your sql syntax",
    "warning: mysql",
    "unclosed quotation mark after the character string",
    "sql syntax",
    "odbc sql server driver"
  ]

  /** The two checks built on the shared substitution strategy. */
  datatype Check = ReflectedXss | ErrorBasedSqli

  /** Some listed SQL error signature occurs in the lower-cased body. */
  predicate HasSqlErrorSignature(body: string) {
    exists sig :: sig in SQL_ERROR_SIGNATURES && Contains(Lower(body), sig)
  }

  /** Whether the response body to an attempt with `payload` is reported. */
  predicate Trips(check: Check, payload: string, body: string) {
    match check
    case ReflectedXss => Contains(body, payload)
    case ErrorBasedSqli => HasSqlErrorSignature(body)
  }

  /** The finding a check reports. */
  function Report(check: Check, url: string, param: string, payload: string): Finding {
    match check
    case ReflectedXss => XssReflected(url, param, payload)
    case ErrorBasedSqli => SqliErrorBased(url, param, payload)
  }

  /** The `type` tag of the findings of a check. */
  function KindOf(check: Check): string {
    match check
    case ReflectedXss => XSS_REFLECTED
    case ErrorBasedSqli => SQLI_ERROR_BASED
  }

  /** The query of one attempt: every parameter keeps its name and position;
      the tested one carries the payload, each other one its first value.
      Taking the first value of an empty value list raises inside the `try`,
      which the testers catch and skip: that is `None`. */
  function Substitute(params: seq<(string, seq<string>)>, p: string, payload: string): (r: Option<seq<(string, string)>>)
    ensures r.Some? <==> forall i :: 0 <= i < |params| && params[i].0 != p ==> |params[i].1| > 0
    ensures r.Some? ==> |r.value| == |params| && forall i :: 0 <= i < |params| ==> r.value[i].0 == params[i].0
    ensures r.Some? ==> forall i :: 0 <= i < |params| && params[i].0 == p ==> r.value[i].1 == payload
    ensures r.Some? ==> forall i :: 0 <= i < |params| && params[i].0 != p ==> r.value[i].1 == params[i].1[0]
    decreases |params|
  {
    if params == [] then Some([])
    else
      var k, v := params[0].0, params[0].1;
      if k != p && |v| == 0 then None
      else
        match Substitute(params[1..], p, payload)
        case None => None
        case Some(rest) => Some([(k, if k == p then payload else v[0])] + rest)
  }

  /** One attempt: substitute, request, inspect. A failed substitution or
      request reports nothing. */
  function Probe(web: Web, url: string, params: ParamMap, check: Check, payload: string, p: string): seq<Finding> {
    match Substitute(params, p, payload)
    case None => []
    case Some(query) =>
      match web.fetch(Request(url, query))
      case None => []
      case Some(resp) => if Trips(check, payload, resp.body) then [Report(check, resp.url, p, payload)] else []
  }

  /** The attempts for one payload, one per parameter name, in order. */
  function Row(payload: string, keys: seq<string>): (r: seq<(string, string)>)
    ensures |r| == |keys|
  {
    seq(|keys|, j requires 0 <= j < |keys| => (payload, keys[j]))
  }

  /** All (payload, parameter) attempts: payload-outer, parameter-inner. */
  function Attempts(payloads: seq<string>, keys: seq<string>): seq<(string, string)>
    decreases |payloads|
  {
    if payloads == [] then []
    else Attempts(payloads[..|payloads| - 1], keys) + Row(payloads[|payloads| - 1], keys)
  }

  /** The findings of a run of attempts, in order. */
  function ProbeAll(web: Web, url: string, params: ParamMap, check: Check, attempts: seq<(string, string)>): (r: seq<Finding>)
    ensures |r| <= |attempts|
    decreases |attempts|
  {
    if attempts == [] then []
    else
      var a := attempts[|attempts| - 1];
      ProbeAll(web, url, params, check, attempts[..|attempts| - 1]) + Probe(web, url, params, check, a.0, a.1)
  }

  /** The requests a run of attempts issues: one per successful substitution,
      whatever the responses. */
  function Sent(url: string, params: ParamMap, attempts: seq<(string, string)>): seq<Request>
    decreases |attempts|
  {
    if attempts == [] then []
    else
      var a := attempts[|attempts| - 1];
      Sent(url, params, attempts[..|attempts| - 1])
        + (match Substitute(params, a.1, a.0) case None => [] case Some(q) => [Request(url, q)])
  }

  /** `test_reflected_xss(url)` / `test_basic_sqli(url)`: nothing at all for a URL
      without parameters. */
  function InjectionFindings(web: Web, url: string, check: Check, payloads: seq<string>): seq<Finding> {
    var params := web.extractParams(url);
    if params == [] then [] else ProbeAll(web, url, params, check, Attempts(payloads, Keys(params)))
  }

  /** The requests the same call issues. */
  function InjectionRequests(web: Web, url: string, payloads: seq<string>): seq<Request> {
    var params := web.extractParams(url);
    if params == [] then [] else Sent(url, params, Attempts(payloads, Keys(params)))
  }

  /** The (payload, parameter) pair a finding reports. */
  function Tag(f: Finding): (string, string) {
    (f.payload.GetOr(""), f.param.GetOr(""))
  }

  function Tags(fs: seq<Finding>): (ts: seq<(string, string)>)
    ensures |ts| == |fs|
  {
    seq(|fs|, i requires 0 <= i < |fs| => Tag(fs[i]))
  }

  // ---------------------------------------------------------------------
  // Properties
  // ---------------------------------------------------------------------

  /** An attempt reports at most one finding, exactly when the substitution
      succeeds, the request succeeds and the body trips the check; that finding
      is the check's report for the attempt's parameter and payload, at the
      response's URL. */
  lemma ProbeSpec(web: Web, url: string, params: ParamMap, check: Check, payload: string, p: string)
    ensures var r := Probe(web, url, params, check, payload, p);
      && |r| <= 1
      && (r != [] <==> exists q, resp :: Substitute(params, p, payload) == Some(q)
                         && web.fetch(Request(url, q)) == Some(resp) && Trips(check, payload, resp.body))
      && (forall f :: f in r ==>
            exists q, resp :: Substitute(params, p, payload) == Some(q)
              && web.fetch(Request(url, q)) == Some(resp) && f == Report(check, resp.url, p, payload))
      && Tags(r) == (if r == [] then [] else [(payload, p)])
      && (forall f :: f in r ==> f.kind == KindOf(check))
  {
  }

  /** The tags of one attempt's findings: its own pair, or nothing. */
  lemma ProbeTags(web: Web, url: string, params: ParamMap, check: Check, payload: string, p: string)
    ensures var r := Probe(web, url, params, check, payload, p);
      && |r| <= 1
      && Tags(r) == (if r == [] then [] else [(payload, p)])
      && (forall f :: f in r ==> f.kind == KindOf(check) && f.param.Some? && f.payload.Some?)
  {
  }

  /** There are |payloads| × |keys| attempts, exactly the pairs of a payload and
      a key. */
  lemma {:induction false} AttemptsSpec(payloads: seq<string>, keys: seq<string>)
    ensures |Attempts(payloads, keys)| == |payloads| * |keys|
    ensures forall x, k :: (x, k) in Attempts(payloads, keys) <==> x in payloads && k in keys
    decreases |payloads|
  {
    if payloads != [] {
      var n := |payloads| - 1;
      var init := payloads[..n];
      AttemptsSpec(init, keys);
      assert |Attempts(payloads, keys)| == n * |keys| + |keys|;
      assert payloads == init + [payloads[n]];
      forall x, k ensures (x, k) in Attempts(payloads, keys) <==> x in payloads && k in keys {
        var row := Row(payloads[n], keys);
        if (x, k) in row {
          var j :| 0 <= j < |row| && row[j] == (x, k);
        }
        if x == payloads[n] && k in keys {
          var j :| 0 <= j < |keys| && keys[j] == k;
          assert row[j] == (x, k);
        }
      }
    }
  }

  /** The tags of a run's findings follow the order of the attempts. */
  lemma {:induction false} ProbeAllOrder(web: Web, url: string, params: ParamMap, check: Check, attempts: seq<(string, string)>)
    ensures IsSubsequence(Tags(ProbeAll(web, url, params, check, attempts)), attempts)
    decreases |attempts|
  {
    if attempts != [] {
      var n := |attempts| - 1;
      var init, a := attempts[..n], attempts[n];
      var r0 := ProbeAll(web, url, params, check, init);
      var pr := Probe(web, url, params, check, a.0, a.1);
      ProbeAllOrder(web, url, params, check, init);
      ProbeTags(web, url, params, check, a.0, a.1);
      assert ProbeAll(web, url, params, check, attempts) == r0 + pr;
      assert Tags(r0 + pr) == Tags(r0) + Tags(pr);
      assert IsSubsequence(Tags(pr), [a]) by {
        if pr != [] {
          assert Tags(pr)[1..] == [] && [a][1..] == [];
        }
      }
      SubsequenceConcat(Tags(r0), init, Tags(pr), [a]);
      assert attempts == init + [a];
    }
  }

  /** A run reports an attempt exactly when that attempt's probe reports, and
      every finding is of the check's type. */
  lemma {:induction false} ProbeAllMembers(web: Web, url: string, params: ParamMap, check: Check, attempts: seq<(string, string)>)
    ensures forall a :: a in Tags(ProbeAll(web, url, params, check, attempts)) <==>
      a in attempts && Probe(web, url, params, check, a.0, a.1) != []
    ensures forall f :: f in ProbeAll(web, url, params, check, attempts) ==>
      f.kind == KindOf(check) && f.param.Some? && f.payload.Some?
    decreases |attempts|
  {
    if attempts != [] {
      var n := |attempts| - 1;
      var init, a := attempts[..n], attempts[n];
      var r0 := ProbeAll(web, url, params, check, init);
      var pr := Probe(web, url, params, check, a.0, a.1);
      ProbeAllMembers(web, url, params, check, init);
      ProbeTags(web, url, params, check, a.0, a.1);
      assert ProbeAll(web, url, params, check, attempts) == r0 + pr;
      assert Tags(r0 + pr) == Tags(r0) + Tags(pr);
      assert attempts == init + [a];
      forall b ensures b in Tags(r0 + pr) <==> b in attempts && Probe(web, url, params, check, b.0, b.1) != [] {
        assert b in attempts <==> b in init || b == a;
      }
    }
  }

  /** A run issues at most one request per attempt. */
  lemma {:induction false} SentBound(url: string, params: ParamMap, attempts: seq<(string, string)>)
    ensures |Sent(url, params, attempts)| <= |attempts|
    decreases |attempts|
  {
    if attempts != [] {
      SentBound(url, params, attempts[..|attempts| - 1]);
    }
  }

  /** A URL without parameters gets no finding and no request. */
  lemma NoParamsNoProbes(web: Web, url: string, check: Check, payloads: seq<string>)
    requires web.extractParams(url) == []
    ensures InjectionFindings(web, url, check, payloads) == []
    ensures InjectionRequests(web, url, payloads) == []
  {
  }

  /** A tester issues at most |payloads| × |params| requests and reports at most
      as many findings, in payload-outer, parameter-inner order. */
  lemma InjectionBounds(web: Web, url: string, check: Check, payloads: seq<string>)
    ensures var params := web.extractParams(url);
      var r := InjectionFindings(web, url, check, payloads);
      && |InjectionRequests(web, url, payloads)| <= |payloads| * |params|
      && |r| <= |payloads| * |params|
      && IsSubsequence(Tags(r), Attempts(payloads, Keys(params)))
  {
    var params := web.extractParams(url);
    var attempts := Attempts(payloads, Keys(params));
    var r := InjectionFindings(web, url, check, payloads);
    AttemptsSpec(payloads, Keys(params));
    if params != [] {
      ProbeAllOrder(web, url, params, check, attempts);
      SentBound(url, params, attempts);
      SubsequenceBounds(Tags(r), attempts);
    } else {
      assert Tags(r) == [];
    }
  }

  /** A tester reports a (payload, parameter) pair exactly when the payload is
      in its list, the parameter is one of the URL's and that attempt trips;
      every finding is of the check's type. */
  lemma InjectionMembers(web: Web, url: string, check: Check, payloads: seq<string>)
    ensures var params := web.extractParams(url);
      var r := InjectionFindings(web, url, check, payloads);
      && (forall f :: f in r ==> f.kind == KindOf(check) && f.param.Some? && f.payload.Some?)
      && (forall x, k :: (x, k) in Tags(r) <==>
            x in payloads && k in Keys(params) && Probe(web, url, params, check, x, k) != [])
  {
    var params := web.extractParams(url);
    var attempts := Attempts(payloads, Keys(params));
    AttemptsSpec(payloads, Keys(params));
    if params != [] {
      ProbeAllMembers(web, url, params, check, attempts);
    } else {
      assert Keys(params) == [];
    }
  }

  /** A page that echoes an XSS payload sent in one of its parameters gets an
      `xss_reflected` finding naming that parameter and payload. */
  lemma ReflectedPayloadReported(web: Web, url: string, payloads: seq<string>, x: string, k: string, resp: Response)
    requires x in payloads && k in Keys(web.extractParams(url))
    requires Substitute(web.extractParams(url), k, x).Some?
    requires web.fetch(Request(url, Substitute(web.extractParams(url), k, x).value)) == Some(resp)
    requires Contains(resp.body, x)
    ensures exists f ::
      f in InjectionFindings(web, url, ReflectedXss, payloads)
      && f.kind == XSS_REFLECTED && f.param == Some(k) && f.payload == Some(x)
  {
    var r := InjectionFindings(web, url, ReflectedXss, payloads);
    InjectionMembers(web, url, ReflectedXss, payloads);
    assert (x, k) in Tags(r);
    var i :| 0 <= i < |r| && Tags(r)[i] == (x, k);
    assert r[i] in r;
  }
}
