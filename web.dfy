/** The web-facing values the tracker handlers work with: URLs as records, the
    requests they send and the responses and parsed pages they get back.
    HTTP, HTML parsing and the URL library are not modelled: responses come from
    an oracle, and a parsed page is reduced to the parts of it the handlers read. */
module Web {
  import opened Common

  /** A URL split as `scheme://host` followed by the rest (path, query and fragment). */
  datatype Url = Url(scheme: string, host: string, rest: string)

  function Show(u: Url): string {
    u.scheme + "://" + u.host + u.rest
  }

  /** `extract_domain`: the network location of the URL. */
  function ExtractDomain(u: Url): (d: string)
    ensures ReplaceDomain(u, d) == u
  {
    u.host
  }

  /** `replace_domain`: the same URL on another host. */
  function ReplaceDomain(u: Url, domain: string): (r: Url)
    ensures r.host == domain && r.scheme == u.scheme && r.rest == u.rest
  {
    u.(host := domain)
  }

  /** The first index at which `sub` occurs in `s` at or after `k`. */
  function FindFrom(s: string, sub: string, k: nat): (r: Option<nat>)
    ensures r.Some? ==> k <= r.value && OccursAt(s, sub, r.value)
    ensures r.Some? ==> forall j :: k <= j < r.value ==> !OccursAt(s, sub, j)
    ensures r.None? ==> forall j :: k <= j ==> !OccursAt(s, sub, j)
    decreases |s| - k
  {
    if k + |sub| > |s| then None
    else if s[k..k + |sub|] == sub then Some(k)
    else FindFrom(s, sub, k + 1)
  }

  predicate HostStop(c: char) {
    c == '/' || c == '?' || c == '#'
  }

  /** Where the host ends: the first '/', '?' or '#', or the end of the string. */
  function HostEnd(s: string): (k: nat)
    ensures k <= |s|
    ensures forall j :: 0 <= j < k ==> !HostStop(s[j])
    ensures k == |s| || HostStop(s[k])
  {
    if s == [] || HostStop(s[0]) then 0 else 1 + HostEnd(s[1..])
  }

  /** A URL string as a record: the scheme before the first "://", the host up to
      the next '/', '?' or '#', and the rest. A string without "://" is all rest. */
  function ParseUrl(s: string): (u: Url)
    ensures Contains(s, "://") ==> Show(u) == s
    ensures Contains(s, "://") ==> !Contains(u.scheme, "://") && forall j :: 0 <= j < |u.host| ==> !HostStop(u.host[j])
    ensures Contains(s, "://") ==> u.rest == [] || HostStop(u.rest[0])
  {
    match FindFrom(s, "://", 0)
    case None => Url("", "", s)
    case Some(i) =>
      var after := s[i + 3..];
      var e := HostEnd(after);
      SplitAtSeparator(s, i, e);
      Url(s[..i], after[..e], after[e..])
  }

  /** Cutting a URL string at its first "://" and at the end of the host: the
      pieces join back to the string, and the scheme holds no "://". */
  lemma SplitAtSeparator(s: string, i: nat, e: nat)
    requires OccursAt(s, "://", i) && forall j :: 0 <= j < i ==> !OccursAt(s, "://", j)
    requires e <= |s| - (i + 3)
    ensures s == s[..i] + "://" + s[i + 3..][..e] + s[i + 3..][e..]
    ensures !Contains(s[..i], "://")
  {
    var after := s[i + 3..];
    assert s == s[..i] + "://" + after[..e] + after[e..];
    forall j | 0 <= j <= i - 3 ensures !OccursAt(s[..i], "://", j) {
      assert !OccursAt(s, "://", j);
      assert s[..i][j..j + 3] == s[j..j + 3];
    }
  }

  /** A host that `ParseUrl` reads back whole: no '/', '?' or '#' in it. */
  predicate PlainHost(h: string) {
    forall j :: 0 <= j < |h| ==> !HostStop(h[j])
  }

  /** A URL record whose string form parses back to it: a scheme without ':',
      a plain host, and a rest that starts where the host must end. */
  predicate Canonical(u: Url) {
    ':' !in u.scheme && PlainHost(u.host) && (u.rest == [] || HostStop(u.rest[0]))
  }

  /** Parsing the string form of a canonical URL gives the URL back. */
  lemma {:induction false} ParseShow(u: Url)
    requires Canonical(u)
    ensures ParseUrl(Show(u)) == u
  {
    var s := Show(u);
    var n := |u.scheme|;
    SeparatorAfterScheme(u);
    FirstOccurrence(s, "://", n);
    var after := s[n + 3..];
    assert after == u.host + u.rest;
    HostEndAt(after, |u.host|);
    ParseAt(s, n);
    assert s[..n] == u.scheme;
    assert after[..|u.host|] == u.host && after[|u.host|..] == u.rest;
  }

  /** The parse once the separator is found. */
  lemma ParseAt(s: string, n: nat)
    requires FindFrom(s, "://", 0) == Some(n)
    ensures var after := s[n + 3..];
      ParseUrl(s) == Url(s[..n], after[..HostEnd(after)], after[HostEnd(after)..])
  {
  }

  /** In the string form of a URL whose scheme has no ':', the first "://" is the
      one after the scheme. */
  lemma SeparatorAfterScheme(u: Url)
    requires ':' !in u.scheme
    ensures OccursAt(Show(u), "://", |u.scheme|)
    ensures forall j :: 0 <= j < |u.scheme| ==> !OccursAt(Show(u), "://", j)
  {
    var s := Show(u);
    var n := |u.scheme|;
    assert s[n..n + 3] == "://";
    forall j | 0 <= j < n ensures !OccursAt(s, "://", j) {
      assert s[j] == u.scheme[j];
      if OccursAt(s, "://", j) { SeparatorStartsWithColon(s, j); }
    }
  }

  /** The search finds the first occurrence. */
  lemma FirstOccurrence(s: string, sub: string, n: nat)
    requires OccursAt(s, sub, n)
    requires forall j :: 0 <= j < n ==> !OccursAt(s, sub, j)
    ensures FindFrom(s, sub, 0) == Some(n)
  {
  }

  lemma SeparatorStartsWithColon(s: string, j: int)
    requires OccursAt(s, "://", j)
    ensures s[j] == ':'
  {
    assert s[j..j + 3][0] == s[j];
  }

  /** `HostEnd` ends at the first stop character. */
  lemma {:induction false} HostEndAt(s: string, k: nat)
    requires k <= |s|
    requires forall j :: 0 <= j < k ==> !HostStop(s[j])
    requires k == |s| || HostStop(s[k])
    ensures HostEnd(s) == k
  {
    if k > 0 {
      HostEndAt(s[1..], k - 1);
    }
  }

  /** The query component of the rest of a URL: after the first '?', before any '#'. */
  function QueryOf(rest: string): string {
    var noFragment := if '#' in rest then rest[..IndexOf(rest, '#')] else rest;
    if '?' in noFragment then noFragment[IndexOf(noFragment, '?') + 1..] else ""
  }

  /** The name of a `name=value` pair: everything before its first '='. */
  function PairKey(p: string): string {
    if '=' in p then p[..IndexOf(p, '=')] else p
  }

  /** The value of a `name=value` pair: everything after its first '=', or "". */
  function PairValue(p: string): string {
    if '=' in p then p[IndexOf(p, '=') + 1..] else ""
  }

  /** The first pair of `pairs` called `name` is `pairs[i]`. */
  predicate FirstPairAt(pairs: seq<string>, name: string, i: int) {
    0 <= i < |pairs| && PairKey(pairs[i]) == name && forall j :: 0 <= j < i ==> PairKey(pairs[j]) != name
  }

  /** The value of the first `name=value` pair called `name`. */
  function ArgIn(pairs: seq<string>, name: string): (r: Option<string>)
    ensures r.None? <==> forall i :: 0 <= i < |pairs| ==> PairKey(pairs[i]) != name
    ensures r.Some? ==> exists i :: FirstPairAt(pairs, name, i) && r.value == PairValue(pairs[i])
  {
    if pairs == [] then None
    else if PairKey(pairs[0]) == name then
      assert FirstPairAt(pairs, name, 0);
      Some(PairValue(pairs[0]))
    else
      var r := ArgIn(pairs[1..], name);
      FirstPairShift(pairs, name);
      r
  }

  /** Past a pair with another name, the first pair called `name` of the tail is
      the first of the whole sequence. */
  lemma FirstPairShift(pairs: seq<string>, name: string)
    requires pairs != [] && PairKey(pairs[0]) != name
    ensures forall i :: 1 <= i < |pairs| ==> pairs[i] == pairs[1..][i - 1]
    ensures forall i :: FirstPairAt(pairs[1..], name, i) ==> FirstPairAt(pairs, name, i + 1)
  {
    forall i | FirstPairAt(pairs[1..], name, i) ensures FirstPairAt(pairs, name, i + 1) {
      assert pairs[i + 1] == pairs[1..][i];
      forall j | 0 <= j < i + 1 ensures PairKey(pairs[j]) != name {
        if j > 0 { assert pairs[j] == pairs[1..][j - 1]; }
      }
    }
  }

  /** The `name=value` pairs of a URL's query string. */
  function QueryPairs(u: Url): seq<string> {
    Split(QueryOf(u.rest), '&')
  }

  /** `furl(url).args.get(name)`, without percent-decoding: the value of the
      first query pair called `name`. */
  function QueryArg(u: Url, name: string): (r: Option<string>)
    ensures r.None? <==> forall i :: 0 <= i < |QueryPairs(u)| ==> PairKey(QueryPairs(u)[i]) != name
    ensures r.Some? ==> exists i :: FirstPairAt(QueryPairs(u), name, i) && r.value == PairValue(QueryPairs(u)[i])
  {
    ArgIn(QueryPairs(u), name)
  }

  /** A class-level login URL with its `%(domain)s` marker standing for the host. */
  datatype UrlTemplate = UrlTemplate(scheme: string, rest: string)

  function Fill(t: UrlTemplate, domain: string): Url {
    Url(t.scheme, domain, t.rest)
  }

  type Cookies = map<string, string>

  /** Form fields of a POST request. */
  type Form = map<string, string>

  /** What the handlers hand to the HTTP client: a POST request when there is a
      non-empty form; without a form, or with an empty one, the client sends a GET. */
  datatype Request = Request(url: string, form: Option<Form>, allowRedirects: bool, referer: Option<string>, cookies: Option<Cookies>)

  /** A parsed HTML page, reduced to what the handlers read: the text of its
      `<title>` if any, every `href` attribute in document order, and the text
      of every `<li>` element that holds a single string. */
  datatype Soup = Soup(title: Option<string>, hrefs: seq<string>, items: seq<string>)

  /** An HTTP response. `ok` is the truth value of the response (status below 400);
      `query` holds the first value of each query parameter of the final URL
      after redirects, as `parse_qs` reports it. */
  datatype Response = Response(ok: bool, page: Soup, content: seq<byte>, cookies: Cookies, query: map<string, string>)
}
