/** The header auditor (`check_security_headers`) as a function of the web
    oracle, and what it reports. */
module SecurityHeaders {
  import opened Wrappers
  import opened Text
  import opened Seqs
  import opened Http

  /** The four headers the auditor requires, in the order it checks them. */
  const REQUIRED_HEADERS: seq<string> := [
    "content-security-policy",
    "x-frame-options",
    "x-content-type-options",
    "strict-transport-security"
  ]

  /** The response's header names, lower-cased, as a set: the keys of the
      dictionary the audit builds from the headers. */
  function LowerNames(names: seq<string>): set<string> {
    set n | n in names :: Lower(n)
  }

  /** The findings of the loop over `required`: one for each name not present. */
  function MissingHeaders(url: string, present: set<string>, required: seq<string>): (r: seq<Finding>)
    ensures |r| <= |required|
    decreases |required|
  {
    if required == [] then []
    else
      var h := required[|required| - 1];
      MissingHeaders(url, present, required[..|required| - 1])
        + (if h in present then [] else [MissingHeader(url, h)])
  }

  /** `check_security_headers(url)`: nothing when the request fails. */
  function HeaderAudit(web: Web, url: string): (r: seq<Finding>)
    ensures |r| <= |REQUIRED_HEADERS|
  {
    match Get(web, url)
    case None => []
    case Some(resp) => MissingHeaders(url, LowerNames(resp.headerNames), REQUIRED_HEADERS)
  }

  /** The header names of a list of findings, in order. */
  function HeaderNames(fs: seq<Finding>): (hs: seq<string>)
    ensures |hs| == |fs|
  {
    seq(|fs|, i requires 0 <= i < |fs| => fs[i].header.GetOr(""))
  }

  /** The names required but not present. */
  ghost function Absent(present: set<string>, required: seq<string>): set<string> {
    Elements(required) - present
  }

  /** Each finding is the `missing_header` finding for an absent required name,
      and every absent name has one. */
  lemma {:induction false} MissingHeadersMembers(url: string, present: set<string>, required: seq<string>)
    ensures forall f :: f in MissingHeaders(url, present, required) <==>
      exists h :: h in required && h !in present && f == MissingHeader(url, h)
    decreases |required|
  {
    if required != [] {
      var n := |required| - 1;
      var init, h := required[..n], required[n];
      var extra := if h in present then [] else [MissingHeader(url, h)];
      MissingHeadersMembers(url, present, init);
      assert MissingHeaders(url, present, required) == MissingHeaders(url, present, init) + extra;
      assert required == init + [h];
      forall f ensures f in MissingHeaders(url, present, required) <==>
        exists h' :: h' in required && h' !in present && f == MissingHeader(url, h')
      {
        if exists h' :: h' in required && h' !in present && f == MissingHeader(url, h') {
          var h' :| h' in required && h' !in present && f == MissingHeader(url, h');
          assert h' in init || h' == h;
        }
      }
    }
  }

  /** The header names of the findings follow the order of `required`. */
  lemma {:induction false} MissingHeadersOrder(url: string, present: set<string>, required: seq<string>)
    ensures IsSubsequence(HeaderNames(MissingHeaders(url, present, required)), required)
    decreases |required|
  {
    if required != [] {
      var n := |required| - 1;
      var init, h := required[..n], required[n];
      var r0 := MissingHeaders(url, present, init);
      MissingHeadersOrder(url, present, init);
      var extraNames := if h in present then [] else [h];
      assert HeaderNames(MissingHeaders(url, present, required)) == HeaderNames(r0) + extraNames;
      assert IsSubsequence(extraNames, [h]) by {
        if h !in present {
          assert extraNames[1..] == [] && [h][1..] == [];
        }
      }
      SubsequenceConcat(HeaderNames(r0), init, extraNames, [h]);
      assert required == init + [h];
    }
  }

  /** Adding a name not yet listed adds one absent name exactly when it is not present. */
  lemma AbsentAppend(present: set<string>, init: seq<string>, h: string)
    requires h !in init
    ensures |Absent(present, init + [h])| == |Absent(present, init)| + (if h in present then 0 else 1)
  {
    var a0 := Absent(present, init);
    assert Elements(init + [h]) == Elements(init) + {h};
    if h in present {
      assert Absent(present, init + [h]) == a0;
    } else {
      assert Absent(present, init + [h]) == a0 + {h};
    }
  }

  /** For a list of distinct names there is exactly one finding per absent name. */
  lemma {:induction false} MissingHeadersCount(url: string, present: set<string>, required: seq<string>)
    requires NoDuplicates(required)
    ensures |MissingHeaders(url, present, required)| == |Absent(present, required)|
    decreases |required|
  {
    if required == [] {
      assert Absent(present, required) == {};
    } else {
      var n := |required| - 1;
      var init, h := required[..n], required[n];
      NoDuplicatesSplit(required, n);
      MissingHeadersCount(url, present, init);
      assert required == init + [h];
      AbsentAppend(present, init, h);
    }
  }

  /** The four required names are distinct (their lengths already differ). */
  lemma RequiredHeadersDistinct()
    ensures NoDuplicates(REQUIRED_HEADERS)
  {
    var r := REQUIRED_HEADERS;
    assert |r[0]| == 23 && |r[1]| == 15 && |r[2]| == 22 && |r[3]| == 25;
  }

  /** A failed request yields no finding. Otherwise there is one `missing_header`
      finding, carrying the audited URL, for every required name that no
      response header matches after lower-casing, and no other; the names come
      in the fixed order of the required list, each once. */
  lemma HeaderAuditSpec(web: Web, url: string)
    ensures Get(web, url).None? ==> HeaderAudit(web, url) == []
    ensures Get(web, url).Some? ==>
      var present := LowerNames(Get(web, url).value.headerNames);
      var r := HeaderAudit(web, url);
      && (forall f :: f in r <==> exists h :: h in REQUIRED_HEADERS && h !in present && f == MissingHeader(url, h))
      && (forall f :: f in r ==> f.kind == MISSING_HEADER && f.url == url)
      && IsSubsequence(HeaderNames(r), REQUIRED_HEADERS)
      && NoDuplicates(HeaderNames(r))
      && |r| == |Absent(present, REQUIRED_HEADERS)|
  {
    if Get(web, url).Some? {
      var present := LowerNames(Get(web, url).value.headerNames);
      var r := HeaderAudit(web, url);
      MissingHeadersMembers(url, present, REQUIRED_HEADERS);
      MissingHeadersOrder(url, present, REQUIRED_HEADERS);
      RequiredHeadersDistinct();
      MissingHeadersCount(url, present, REQUIRED_HEADERS);
      SubsequenceNoDuplicates(HeaderNames(r), REQUIRED_HEADERS);
    }
  }

  /** A response that sends none of the four headers gets exactly the four
      findings, in the order of the required list. */
  lemma NoSecurityHeaders(web: Web, url: string)
    requires Get(web, url).Some?
    requires forall n :: n in Get(web, url).value.headerNames ==> Lower(n) !in REQUIRED_HEADERS
    ensures HeaderAudit(web, url) == [
      MissingHeader(url, "content-security-policy"),
      MissingHeader(url, "x-frame-options"),
      MissingHeader(url, "x-content-type-options"),
      MissingHeader(url, "strict-transport-security")]
  {
    var present := LowerNames(Get(web, url).value.headerNames);
    var req := REQUIRED_HEADERS;
    assert forall h :: h in req ==> h !in present;
    assert req[..3][..2][..1][..0] == [];
    assert MissingHeaders(url, present, req[..3][..2][..1]) == [MissingHeader(url, req[0])];
    assert MissingHeaders(url, present, req[..3][..2]) == [MissingHeader(url, req[0]), MissingHeader(url, req[1])];
    assert MissingHeaders(url, present, req[..3])
      == [MissingHeader(url, req[0]), MissingHeader(url, req[1]), MissingHeader(url, req[2])];
  }
}
