/** The tracker handler layer as a state machine: every operation of a handler
    object is a function from the handler's state before the call to its state
    after the call and its result. The network is an oracle from requests to
    responses; the state logs every request sent and every mirror attempted so
    that the number and order of fetches can be stated. The class in module
    Handlers carries the same state in fields and runs these operations step by
    step; its methods are proved equal to the functions here. */
module BaseTracker {
  import opened Common
  import opened Web
  import opened Utils
  import Kinozal
  import TestTracker

  // ---------------------------------------------------------------------------
  // Tracker classes
  // ---------------------------------------------------------------------------

  /** The concrete handler classes; each overrides the site-specific methods. */
  datatype Site = KinozalSite | TestSite

  /** The class attributes of a private tracker. */
  datatype PrivateAttrs = PrivateAttrs(loginUrl: Option<UrlTemplate>, authCookieName: Option<string>, authQsParamName: Option<string>)

  /** The class attributes the generic handler code reads. */
  datatype TrackerClass = TrackerClass(alias: string, mirrors: seq<string>, private: Option<PrivateAttrs>)

  function ClassOf(site: Site): (c: TrackerClass)
    ensures c.private.Some? <==> site == KinozalSite
    ensures c.private.Some? ==> c.private.value.loginUrl.Some?
  {
    match site
    case KinozalSite =>
      TrackerClass(Kinozal.Alias, Kinozal.Mirrors,
        Some(PrivateAttrs(Some(Kinozal.LoginUrl), Some(Kinozal.AuthCookieName), None)))
    case TestSite => TrackerClass(TestTracker.Alias, [], None)
  }

  /** The outside world a handler talks to: the HTTP client, the torrent file
      parser and `urljoin`. */
  datatype Env = Env(net: Request -> Option<Response>, parse: seq<byte> -> Option<Parsed>, join: (string, string) -> string)

  /** What a handler object is built with and never changes. */
  datatype Handler = Handler(site: Site, username: Option<string>, password: Option<string>, env: Env)

  /** The fields of a handler object, with the log of requests it sent and of
      the mirror URLs its fallback loops tried. */
  datatype State = State(
    cookies: Cookies, queryString: Option<string>,
    pageUrl: string, page: Option<Soup>,
    loggedIn: bool, loginCounter: nat,
    requests: seq<Request>, attempts: seq<string>)

  /** A freshly constructed handler: no cookies unless given, an empty page cache,
      not logged in. */
  function Initial(cookies: Option<Cookies>, queryString: Option<string>): State {
    State(cookies.GetOr(map[]), queryString, "", None, false, 0, [], [])
  }

  /** The state after an operation, and its result. */
  datatype Out<+T> = Out(st: State, val: T)

  /** Why an operation raised. */
  datatype Failure =
    | NoLoginUrl          // a private tracker without `login_url`
    | ConsecutiveLogin    // `login` on a handler that is logged in already
    | AuthParamMissing    // a login redirect with a query string that lacks the auth parameter
    | NoLinkId            // `get_id_from_link` on a URL without '='
    | NoPage              // a page was needed but none was fetched
    | HashPatternMismatch // the element found does not start with the pattern's text

  /** A magnet, represented by what it is built from. */
  datatype Magnet = InfoHash(hash: string) | MagnetLink(uri: string)

  // ---------------------------------------------------------------------------
  // Routing and mirrors
  // ---------------------------------------------------------------------------

  function AnyIn(domains: seq<string>, s: string): (r: bool)
    ensures r <==> exists k :: 0 <= k < |domains| && Contains(s, domains[k])
  {
    if domains == [] then false
    else if Contains(s, domains[0]) then true
    else
      var r := AnyIn(domains[1..], s);
      assert forall k :: 1 <= k < |domains| ==> domains[k] == domains[1..][k - 1];
      r
  }

  /** `can_handle`: the alias or a mirror of the class occurs in `s`. */
  function CanHandle(c: TrackerClass, s: string): (r: bool)
    ensures r <==> Contains(s, c.alias) || exists k :: 0 <= k < |c.mirrors| && Contains(s, c.mirrors[k])
  {
    var domains := [c.alias] + c.mirrors;
    assert forall k :: 0 <= k < |c.mirrors| ==> c.mirrors[k] == domains[k + 1];
    AnyIn(domains, s)
  }

  /** The index of the first occurrence of `x` in `xs`. */
  function Position(xs: seq<string>, x: string): (i: nat)
    requires x in xs
    ensures i < |xs| && xs[i] == x && x !in xs[..i]
  {
    if xs[0] == x then 0 else 1 + Position(xs[1..], x)
  }

  /** Removing `x` past a different head is removing it from the tail. */
  lemma RemoveFirstStep(xs: seq<string>, x: string, t: seq<string>)
    requires xs != [] && xs[0] != x
    requires x !in xs[1..] ==> t == xs[1..]
    requires x in xs[1..] ==> t == xs[1..][..Position(xs[1..], x)] + xs[1..][Position(xs[1..], x) + 1..]
    ensures x !in xs ==> [xs[0]] + t == xs
    ensures x in xs ==> [xs[0]] + t == xs[..Position(xs, x)] + xs[Position(xs, x) + 1..]
  {
    assert xs == [xs[0]] + xs[1..];
    if x in xs {
      var p := Position(xs[1..], x);
      assert Position(xs, x) == 1 + p;
      assert xs[..1 + p] == [xs[0]] + xs[1..][..p];
      assert xs[1 + p + 1..] == xs[1..][p + 1..];
    }
  }

  /** `list.remove(x)` when `x` is in the list; the list itself otherwise. */
  function RemoveFirst(xs: seq<string>, x: string): (r: seq<string>)
    ensures x !in xs ==> r == xs
    ensures x in xs ==> r == xs[..Position(xs, x)] + xs[Position(xs, x) + 1..]
  {
    if xs == [] then []
    else if xs[0] == x then xs[1..]
    else
      var t := RemoveFirst(xs[1..], x);
      RemoveFirstStep(xs, x, t);
      [xs[0]] + t
  }

  /** `get_mirrors`: the host of `url` first, then the alias and the mirrors in
      their configured order, without the host once more. */
  function GetMirrors(c: TrackerClass, url: string): (r: seq<string>)
    ensures |r| >= 1 && r[0] == ExtractDomain(ParseUrl(url))
    ensures var listed := [c.alias] + c.mirrors; var d := r[0];
      (d !in listed ==> r[1..] == listed)
      && (d in listed ==> r[1..] == listed[..Position(listed, d)] + listed[Position(listed, d) + 1..])
  {
    var d := ExtractDomain(ParseUrl(url));
    [d] + RemoveFirst([c.alias] + c.mirrors, d)
  }

  predicate Distinct(xs: seq<string>) {
    forall i, j :: 0 <= i < j < |xs| ==> xs[i] != xs[j]
  }

  /** Removing an element keeps a list distinct and leaves the element out. */
  lemma {:induction false} RemoveFirstDistinct(xs: seq<string>, x: string)
    requires Distinct(xs)
    ensures Distinct(RemoveFirst(xs, x)) && x !in RemoveFirst(xs, x)
    ensures forall y :: y in RemoveFirst(xs, x) ==> y in xs
  {
    if xs != [] && xs[0] != x {
      assert Distinct(xs[1..]) by {
        forall i, j | 0 <= i < j < |xs[1..]| ensures xs[1..][i] != xs[1..][j] {
          assert xs[1..][i] == xs[i + 1] && xs[1..][j] == xs[j + 1];
        }
      }
      RemoveFirstDistinct(xs[1..], x);
      var t := RemoveFirst(xs[1..], x);
      assert xs[0] !in t by {
        forall k | 0 <= k < |xs[1..]| ensures xs[1..][k] != xs[0] {
          assert xs[1..][k] == xs[k + 1];
        }
      }
      assert RemoveFirst(xs, x) == [xs[0]] + t;
      DistinctCons(xs[0], t);
    } else if xs != [] {
      forall k | 0 <= k < |xs[1..]| ensures xs[1..][k] != x {
        assert xs[1..][k] == xs[k + 1];
      }
      assert Distinct(xs[1..]) by {
        forall i, j | 0 <= i < j < |xs[1..]| ensures xs[1..][i] != xs[1..][j] {
          assert xs[1..][i] == xs[i + 1] && xs[1..][j] == xs[j + 1];
        }
      }
    }
  }

  lemma DistinctCons(y: string, t: seq<string>)
    requires Distinct(t) && y !in t
    ensures Distinct([y] + t)
  {
    var l := [y] + t;
    forall i, j | 0 <= i < j < |l| ensures l[i] != l[j] {
      assert l[j] == t[j - 1];
      if i > 0 { assert l[i] == t[i - 1]; }
    }
  }

  /** With distinct configured domains, no domain is tried twice. */
  lemma {:induction false} MirrorsDistinct(c: TrackerClass, url: string)
    requires Distinct([c.alias] + c.mirrors)
    ensures Distinct(GetMirrors(c, url))
  {
    var d := ExtractDomain(ParseUrl(url));
    RemoveFirstDistinct([c.alias] + c.mirrors, d);
    DistinctCons(d, RemoveFirst([c.alias] + c.mirrors, d));
  }

  /** For a thread on kinozal.me the mirrors are tried in the order
      kinozal.me, kinozal.tv, kinozal-tv.appspot.com. */
  lemma KinozalMirrorOrder(url: string)
    requires ExtractDomain(ParseUrl(url)) == "kinozal.me"
    ensures GetMirrors(ClassOf(KinozalSite), url) == ["kinozal.me", "kinozal.tv", "kinozal-tv.appspot.com"]
  {
    var listed := [Kinozal.Alias] + Kinozal.Mirrors;
    assert listed[2] == "kinozal.me" && listed[0] != "kinozal.me" && listed[1] != "kinozal.me";
    assert Position(listed, "kinozal.me") == 2;
  }

  /** `iter_mirrors`: `url` with its host replaced by each mirror domain in turn. */
  function IterMirrors(c: TrackerClass, url: string): (r: seq<string>)
    ensures var ms := GetMirrors(c, url);
      |r| == |ms| && forall i :: 0 <= i < |r| ==> r[i] == Show(ReplaceDomain(ParseUrl(url), ms[i]))
  {
    var ms := GetMirrors(c, url);
    seq(|ms|, i requires 0 <= i < |ms| => Show(ReplaceDomain(ParseUrl(url), ms[i])))
  }

  /** Each mirror URL is the original URL with only its host changed, and the
      first one is the original URL itself. */
  lemma {:induction false} MirrorUrls(c: TrackerClass, url: string)
    requires Contains(url, "://") && ':' !in ParseUrl(url).scheme
    requires forall k :: 0 <= k < |c.mirrors| ==> PlainHost(c.mirrors[k])
    requires PlainHost(c.alias)
    ensures IterMirrors(c, url)[0] == url
    ensures forall i :: 0 <= i < |IterMirrors(c, url)| ==>
      ParseUrl(IterMirrors(c, url)[i]) == ParseUrl(url).(host := GetMirrors(c, url)[i])
  {
    var u := ParseUrl(url);
    var ms := GetMirrors(c, url);
    var r := IterMirrors(c, url);
    assert ms[0] == u.host;
    assert u.(host := u.host) == u;
    MirrorsPlain(c, url);
    forall i | 0 <= i < |r| ensures ParseUrl(r[i]) == u.(host := ms[i]) {
      ParseShow(u.(host := ms[i]));
    }
  }

  /** Every domain `get_mirrors` yields is a plain host name. */
  lemma MirrorsPlain(c: TrackerClass, url: string)
    requires Contains(url, "://")
    requires forall k :: 0 <= k < |c.mirrors| ==> PlainHost(c.mirrors[k])
    requires PlainHost(c.alias)
    ensures forall i :: 0 <= i < |GetMirrors(c, url)| ==> PlainHost(GetMirrors(c, url)[i])
  {
    var listed := [c.alias] + c.mirrors;
    var d := ExtractDomain(ParseUrl(url));
    var rest := RemoveFirst(listed, d);
    forall y | y in listed ensures PlainHost(y) {
      var k :| 0 <= k < |listed| && listed[k] == y;
      if k > 0 { assert listed[k] == c.mirrors[k - 1]; }
    }
    RemoveFirstKeeps(listed, d);
    var ms := GetMirrors(c, url);
    assert ms == [d] + rest;
    forall i | 0 <= i < |ms| ensures PlainHost(ms[i]) {
      if i > 0 { assert ms[i] == rest[i - 1]; }
    }
  }

  /** `list.remove` only drops elements. */
  lemma RemoveFirstKeeps(xs: seq<string>, x: string)
    ensures forall y :: y in RemoveFirst(xs, x) ==> y in xs
  {
    if x in xs {
      var p := Position(xs, x);
      var r := RemoveFirst(xs, x);
      forall y | y in r ensures y in xs {
        var k :| 0 <= k < |r| && r[k] == y;
        if k < p { assert r[k] == xs[k]; } else { assert r[k] == xs[k + 1]; }
      }
    }
  }

  // ---------------------------------------------------------------------------
  // Requests, the query string and the page cache
  // ---------------------------------------------------------------------------

  /** `get_response`'s URL: a non-empty query string is appended after '?', or
      after '&' when the URL has a query already. */
  function WithQueryString(url: string, qs: Option<string>): (r: string)
    ensures !Common.Truthy(qs) ==> r == url
    ensures Common.Truthy(qs) ==> r == url + (if '?' in url then "&" else "?") + qs.value
  {
    if Common.Truthy(qs) then url + (if '?' in url then "&" else "?") + qs.value else url
  }

  /** Appending a second query string chains it with '&': the first one has
      put a '?' into the URL. */
  lemma QueryStringsChain(url: string, first: Option<string>, second: Option<string>)
    requires Common.Truthy(first) && Common.Truthy(second)
    ensures WithQueryString(WithQueryString(url, first), second) == WithQueryString(url, first) + "&" + second.value
  {
    var u := WithQueryString(url, first);
    if '?' in url {
      var k := IndexOf(url, '?');
      assert u[k] == '?';
    } else {
      assert u[|url|] == '?';
    }
  }

  /** The public trackers' `get_id_from_link`: the text after the last '/'. */
  function PublicIdFromLink(url: string): (r: string)
    ensures '/' !in r && |r| <= |url| && r == url[|url| - |r|..]
    ensures |r| < |url| ==> url[|url| - |r| - 1] == '/'
    ensures '/' !in url ==> r == url
  {
    var parts := Split(url, '/');
    JoinLast(parts, '/');
    parts[|parts| - 1]
  }

  /** `get_query_string`: a private tracker with an auth query parameter sends
      `name=value`; every other handler sends its stored query string. */
  function GetQueryString(c: TrackerClass, queryString: Option<string>): (r: Option<string>)
    ensures c.private.Some? && Common.Truthy(c.private.value.authQsParamName) ==>
      r == Some(c.private.value.authQsParamName.value + "=" + PyStr(queryString))
    ensures !(c.private.Some? && Common.Truthy(c.private.value.authQsParamName)) ==> r == queryString
  {
    match c.private
    case Some(PrivateAttrs(_, _, Some(name))) =>
      if name != "" then Some(name + "=" + PyStr(queryString)) else queryString
    case _ => queryString
  }

  /** `get_response`: sends one request and logs it. */
  function GetResponse(h: Handler, st: State, url: string, form: Option<Form>, allowRedirects: bool,
                       referer: Option<string>, cookies: Option<Cookies>, qs: Option<string>): (o: Out<Option<Response>>)
    ensures |o.st.requests| == |st.requests| + 1 && o.st == st.(requests := o.st.requests)
    ensures o.st.requests[..|st.requests|] == st.requests
    ensures o.st.requests[|st.requests|] == Request(WithQueryString(url, qs), form, allowRedirects, referer, cookies)
    ensures o.val == h.env.net(o.st.requests[|st.requests|])
  {
    var req := Request(WithQueryString(url, qs), form, allowRedirects, referer, cookies);
    Out(st.(requests := st.requests + [req]), h.env.net(req))
  }

  /** A response read as a page: only a truthy response gives one. */
  function AsSoup(resp: Option<Response>): Option<Soup> {
    if resp.Some? && resp.value.ok then Some(resp.value.page) else None
  }

  /** The request `get_torrent_page` sends for `url`. */
  function PageRequest(h: Handler, st: State, url: string): Request {
    Request(WithQueryString(url, GetQueryString(ClassOf(h.site), st.queryString)), None, true, Some(url), Some(st.cookies))
  }

  /** `get_torrent_page`: the page is fetched when the URL is not the cached one,
      when the cache is to be dropped, or when the cached page is empty; the
      cache then holds the URL and what was fetched. */
  function GetTorrentPage(h: Handler, st: State, url: string, dropCache: bool): (o: Out<Option<Soup>>)
    ensures o.st.pageUrl == url && o.st.page == o.val
    ensures dropCache || url != st.pageUrl || st.page.None? ==>
      o.st == st.(requests := st.requests + [PageRequest(h, st, url)], pageUrl := url, page := AsSoup(h.env.net(PageRequest(h, st, url))))
    ensures !(dropCache || url != st.pageUrl || st.page.None?) ==> o == Out(st, st.page)
  {
    var drop := dropCache || url != st.pageUrl;
    if drop || st.page.None? then
      var r := GetResponse(h, st, url, None, true, Some(url), Some(st.cookies), GetQueryString(ClassOf(h.site), st.queryString));
      var page := AsSoup(r.val);
      Out(r.st.(page := page, pageUrl := url), page)
    else Out(st, st.page)
  }

  /** Asking twice for the same page, the first time with success, fetches at
      most once, and both calls give the same page. */
  lemma PageFetchedOnce(h: Handler, st: State, url: string)
    requires GetTorrentPage(h, st, url, false).val.Some?
    ensures var o1 := GetTorrentPage(h, st, url, false);
      var o2 := GetTorrentPage(h, o1.st, url, false);
      o2 == o1 && |o2.st.requests| <= |st.requests| + 1
  {
  }

  /** `extract_page_title`: the text of the cached page's title, or "". */
  function ExtractPageTitle(page: Option<Soup>): (t: string)
    ensures t != "" ==> page.Some? && page.value.title == Some(t)
    ensures page.Some? && page.value.title.Some? ==> t == page.value.title.value
  {
    if page.None? then "" else page.value.title.GetOr("")
  }

  /** `extract_page_data`: the title, and empty cover and update date. */
  function ExtractPageData(page: Option<Soup>): (d: PageData)
    ensures d.title == ExtractPageTitle(page) && d.cover == "" && d.dateUpdated == ""
    ensures page.None? ==> d == PageData("", "", "")
  {
    PageData(ExtractPageTitle(page), "", "")
  }

  // ---------------------------------------------------------------------------
  // Links on a page
  // ---------------------------------------------------------------------------

  const MagnetPrefix: string := "magnet:?xt=urn:btih:"

  /** The regular expressions the handlers look for in `href` attributes. */
  datatype Pattern = Signup | KinozalDownload(id: string) | TorrentFile | MagnetUri

  predicate Matches(p: Pattern, href: string) {
    match p
    case Signup => Contains(href, "signup")
    case KinozalDownload(id) => Kinozal.DownloadHref(href, id)
    case TorrentFile => TestTracker.TorrentHref(href)
    case MagnetUri => Contains(href, MagnetPrefix)
  }

  /** The index of the first `href` from `i` on that the pattern matches. */
  function FirstHref(hrefs: seq<string>, p: Pattern, i: nat): (r: Option<nat>)
    requires i <= |hrefs|
    ensures r.Some? ==> i <= r.value < |hrefs| && Matches(p, hrefs[r.value])
    ensures r.Some? ==> forall j :: i <= j < r.value ==> !Matches(p, hrefs[j])
    ensures r.None? ==> forall j :: i <= j < |hrefs| ==> !Matches(p, hrefs[j])
    decreases |hrefs| - i
  {
    if i == |hrefs| then None
    else if Matches(p, hrefs[i]) then Some(i)
    else FirstHref(hrefs, p, i + 1)
  }

  /** `expand_link`: a link not starting with "http" is resolved against the page URL. */
  function ExpandLink(env: Env, base: string, link: string): (r: string)
    ensures StartsWith(link, "http") ==> r == link
    ensures !StartsWith(link, "http") ==> r == env.join(base, link)
  {
    if StartsWith(link, "http") then link else env.join(base, link)
  }

  /** `find_links` with a definite pattern: the first matching link of the page,
      expanded; none when there is no page or no link matches. */
  function FindLink(env: Env, url: string, page: Option<Soup>, p: Pattern): (r: Option<string>)
    ensures page.None? ==> r.None?
    ensures page.Some? ==> (r.None? <==> forall j :: 0 <= j < |page.value.hrefs| ==> !Matches(p, page.value.hrefs[j]))
    ensures r.Some? ==> exists j :: (0 <= j < |page.value.hrefs| && Matches(p, page.value.hrefs[j])
      && (forall k :: 0 <= k < j ==> !Matches(p, page.value.hrefs[k]))
      && r.value == ExpandLink(env, url, page.value.hrefs[j]))
  {
    if page.None? then None
    else match FirstHref(page.value.hrefs, p, 0)
      case None => None
      case Some(j) => Some(ExpandLink(env, url, page.value.hrefs[j]))
  }

  // ---------------------------------------------------------------------------
  // Login of a private tracker
  // ---------------------------------------------------------------------------

  /** The generic private tracker's login form. */
  function GenericLoginFormData(login: string, password: string): (f: Form)
    ensures f.Keys == {"username", "password"} && f["username"] == login && f["password"] == password
  {
    map["username" := login, "password" := password]
  }

  function LoginFormData(site: Site, login: string, password: string): Form {
    match site
    case KinozalSite => Kinozal.LoginFormData(login, password)
    case TestSite => GenericLoginFormData(login, password)
  }

  /** The login response shows success: the auth cookie was set, or the final
      URL carries the auth query parameter. */
  predicate LoginSucceeded(attrs: PrivateAttrs, resp: Response) {
    (attrs.authCookieName.Some? && attrs.authCookieName.value in resp.cookies)
    || (attrs.authQsParamName.Some? && attrs.authQsParamName.value in resp.query)
  }

  /** The request `login` posts. */
  function LoginRequest(attrs: PrivateAttrs, h: Handler, st: State, domain: string): Request
    requires attrs.loginUrl.Some? && h.username.Some? && h.password.Some?
  {
    Request(Show(Fill(attrs.loginUrl.value, domain)), Some(LoginFormData(h.site, h.username.value, h.password.value)),
      Common.Truthy(attrs.authQsParamName), None, Some(st.cookies))
  }

  /** The login form `req` drew a truthy response that passes the success check. */
  predicate LoginAccepted(attrs: PrivateAttrs, h: Handler, req: Request) {
    var resp := h.env.net(req);
    resp.Some? && resp.value.ok && LoginSucceeded(attrs, resp.value)
  }

  /** `login(domain)` of a private tracker class with the attributes `attrs`. */
  function LoginWith(attrs: PrivateAttrs, h: Handler, st: State, domain: string): (o: Out<Result<bool, Failure>>)
    // A class without a login URL cannot build the URL.
    ensures attrs.loginUrl.None? ==> o == Out(st, Err(NoLoginUrl))
    // A handler that is logged in already refuses.
    ensures attrs.loginUrl.Some? && st.loggedIn ==> o == Out(st, Err(ConsecutiveLogin))
    // Without a user name or a password nothing happens, the counter included.
    ensures attrs.loginUrl.Some? && !st.loggedIn && (!Common.Truthy(h.username) || h.password.None?) ==> o == Out(st, Ok(false))
    // Once a login has been counted, the counter still goes up but no request is sent.
    ensures st.loginCounter >= 1 ==> o.st.requests == st.requests
    ensures attrs.loginUrl.Some? && !st.loggedIn && Common.Truthy(h.username) && h.password.Some? && st.loginCounter >= 1 ==>
      o == Out(st.(loginCounter := st.loginCounter + 1), Ok(false))
    // At most one request, the login form, following redirects iff there is an auth query parameter.
    ensures o.st.requests == st.requests ||
      (attrs.loginUrl.Some? && !st.loggedIn && Common.Truthy(h.username) && h.password.Some?
       && o.st.requests == st.requests + [LoginRequest(attrs, h, st, domain)]
       && LoginRequest(attrs, h, st, domain).allowRedirects == Common.Truthy(attrs.authQsParamName))
    // Success: a truthy response that shows success, whose cookies the handler keeps.
    ensures o.val == Ok(true) ==> (o.st.loggedIn && |o.st.requests| == |st.requests| + 1
      && var resp := h.env.net(o.st.requests[|st.requests|]);
      resp.Some? && resp.value.ok && LoginSucceeded(attrs, resp.value)
      && o.st.cookies == resp.value.cookies
      // A redirect with a query string hands over the session id it carries.
      && (resp.value.query == map[] ==> o.st.queryString == st.queryString)
      && (resp.value.query != map[] ==>
            (attrs.authQsParamName.Some? && attrs.authQsParamName.value in resp.value.query
             && o.st.queryString == Some(resp.value.query[attrs.authQsParamName.value]))))
    // A truthy response decides by the success check alone.
    ensures o.st.requests != st.requests && o.val.Ok? ==>
      var resp := h.env.net(o.st.requests[|st.requests|]);
      (resp.Some? && resp.value.ok ==> (o.val.value <==> LoginSucceeded(attrs, resp.value)))
    // No response, a falsy one, or one that fails the success check: False, with
    // only the counter and the request log changed.
    ensures o.st.requests != st.requests && !LoginAccepted(attrs, h, o.st.requests[|st.requests|]) ==>
      o == Out(st.(loginCounter := 1, requests := o.st.requests), Ok(false))
    // Only the three conditions above raise.
    ensures o.val.Err? ==> o.val.error == NoLoginUrl || o.val.error == ConsecutiveLogin || o.val.error == AuthParamMissing
    // The return value is the login state.
    ensures o.val.Ok? ==> o.val.value == o.st.loggedIn
    // A redirect that lacks the auth parameter raises with the handler marked as
    // logged in and its old cookies and query string kept.
    ensures o.val == Err(AuthParamMissing) ==>
      o.st.loggedIn && o.st.cookies == st.cookies && o.st.queryString == st.queryString && o.st.requests != st.requests
    ensures o.st.requests != st.requests ==> o.st.loginCounter == 1
    ensures o.st.attempts == st.attempts && o.st.pageUrl == st.pageUrl && o.st.page == st.page
  {
    if attrs.loginUrl.None? then Out(st, Err(NoLoginUrl))
    else if st.loggedIn then Out(st, Err(ConsecutiveLogin))
    else if !Common.Truthy(h.username) || h.password.None? then Out(st, Ok(false))
    else
      var st1 := st.(loginCounter := st.loginCounter + 1);
      if st1.loginCounter > 1 then Out(st1, Ok(false))
      else
        var form := LoginFormData(h.site, h.username.value, h.password.value);
        var r := GetResponse(h, st1, Show(Fill(attrs.loginUrl.value, domain)), Some(form),
          Common.Truthy(attrs.authQsParamName), None, Some(st1.cookies), None);
        assert r.st.requests == st.requests + [LoginRequest(attrs, h, st, domain)];
        if r.val.None? || !r.val.value.ok then Out(r.st, Ok(false))
        else
          var resp := r.val.value;
          if LoginSucceeded(attrs, resp) then
            var st2 := r.st.(loggedIn := true);
            if resp.query == map[] then Out(st2.(cookies := resp.cookies), Ok(true))
            else if attrs.authQsParamName.Some? && attrs.authQsParamName.value in resp.query then
              Out(st2.(queryString := Some(resp.query[attrs.authQsParamName.value]), cookies := resp.cookies), Ok(true))
            else Out(st2, Err(AuthParamMissing))
          else Out(r.st, Ok(false))
  }

  /** `login(domain)` of the handler's own class. */
  function Login(h: Handler, st: State, domain: string): Out<Result<bool, Failure>>
    requires ClassOf(h.site).private.Some?
  {
    LoginWith(ClassOf(h.site).private.value, h, st, domain)
  }

  /** However often `login` is called, it sends its form at most once in the
      lifetime of a handler: the counter is never reset. */
  lemma LoginAtMostOnce(h: Handler, st: State, d1: string, d2: string)
    requires ClassOf(h.site).private.Some? && st.loginCounter == 0
    ensures var o1 := Login(h, st, d1);
      |Login(h, o1.st, d2).st.requests| <= |st.requests| + 1
  {
  }

  /** `test_configuration`: a private tracker tries to log in at its alias; a
      public one has nothing to test. */
  function TestConfiguration(h: Handler, st: State): (o: Out<Result<bool, Failure>>)
    ensures ClassOf(h.site).private.None? ==> o == Out(st, Ok(true))
    ensures ClassOf(h.site).private.Some? ==> o == Login(h, st, ClassOf(h.site).alias)
  {
    if ClassOf(h.site).private.Some? then Login(h, st, ClassOf(h.site).alias) else Out(st, Ok(true))
  }

  // ---------------------------------------------------------------------------
  // Downloads
  // ---------------------------------------------------------------------------

  /** `download_torrent`: one GET request; a private tracker sends its cookies and
      query string. The body of any response comes back, truthy or not. */
  function DownloadTorrent(h: Handler, st: State, url: string, referer: Option<string>): (o: Out<Option<seq<byte>>>)
    ensures |o.st.requests| == |st.requests| + 1 && o.st == st.(requests := o.st.requests)
    ensures o.st.requests[..|st.requests|] == st.requests
    ensures var req := o.st.requests[|st.requests|];
      req.form.None? && req.referer == referer && req.allowRedirects
      && (ClassOf(h.site).private.Some? <==> req.cookies.Some?)
      && (ClassOf(h.site).private.Some? ==>
            req == Request(WithQueryString(url, GetQueryString(ClassOf(h.site), st.queryString)), None, true, referer, Some(st.cookies)))
      && (ClassOf(h.site).private.None? ==> req.url == url)
      && (o.val.Some? <==> h.env.net(req).Some?)
      && (o.val.Some? ==> o.val.value == h.env.net(req).value.content)
  {
    var c := ClassOf(h.site);
    var r := if c.private.Some?
      then GetResponse(h, st, url, None, true, referer, Some(st.cookies), GetQueryString(c, st.queryString))
      else GetResponse(h, st, url, None, true, referer, None, None);
    assert r.st.requests[..|st.requests|] == st.requests;
    Out(r.st, if r.val.Some? then Some(r.val.value.content) else None)
  }

  // ---------------------------------------------------------------------------
  // Site-specific download links
  // ---------------------------------------------------------------------------

  /** The end of kinozal's `get_download_link`: the download link for the
      thread id of `url` on the page, or "". */
  function KinozalFind(h: Handler, o: Out<Option<Soup>>, url: string): Out<Result<string, Failure>> {
    match Kinozal.IdFromLink(url)
    case None => Out(o.st, Err(NoLinkId))
    case Some(id) => Out(o.st, Ok(FindLink(h.env, url, o.val, KinozalDownload(id)).GetOr("")))
  }

  /** kinozal's `get_download_link`: an anonymous page (one with a signup link)
      triggers a login at the URL's own host and a fresh fetch of the page. */
  function KinozalDownloadLink(h: Handler, st: State, url: string): (o: Out<Result<string, Failure>>)
    requires h.site == KinozalSite
    ensures o.st.attempts == st.attempts
  {
    var o1 := GetTorrentPage(h, st, url, false);
    if FindLink(h.env, url, o1.val, Signup).Some? then
      var l := Login(h, o1.st, ExtractDomain(ParseUrl(url)));
      if l.val.Err? then Out(l.st, Err(l.val.error))
      else KinozalFind(h, GetTorrentPage(h, l.st, url, true), url)
    else KinozalFind(h, o1, url)
  }

  /** A page without a signup link: no login, and the link is read off the
      (possibly cached) page; "" when it has no matching link. */
  lemma KinozalSignedIn(h: Handler, st: State, url: string)
    requires h.site == KinozalSite
    requires FindLink(h.env, url, GetTorrentPage(h, st, url, false).val, Signup).None?
    ensures var o1 := GetTorrentPage(h, st, url, false);
      var o := KinozalDownloadLink(h, st, url);
      o.st == o1.st && o.st.loggedIn == st.loggedIn && o.st.loginCounter == st.loginCounter
      && ('=' !in url <==> o.val == Err(NoLinkId))
      && ('=' in url ==> o.val == Ok(FindLink(h.env, url, o1.val, KinozalDownload(Kinozal.IdFromLink(url).value)).GetOr("")))
  {
  }

  /** A page with a signup link: a login at the URL's host, then the page is
      fetched again whatever the cache holds, and the link is read off it. */
  lemma KinozalAnonymous(h: Handler, st: State, url: string)
    requires h.site == KinozalSite
    requires FindLink(h.env, url, GetTorrentPage(h, st, url, false).val, Signup).Some?
    ensures var o1 := GetTorrentPage(h, st, url, false);
      var l := Login(h, o1.st, ExtractDomain(ParseUrl(url)));
      var o := KinozalDownloadLink(h, st, url);
      (l.val.Err? ==> o == Out(l.st, Err(l.val.error)))
      && (l.val.Ok? ==> (o.st == GetTorrentPage(h, l.st, url, true).st
          && o.st.requests == l.st.requests + [PageRequest(h, l.st, url)] && o.st.pageUrl == url
          && o.st.page == AsSoup(h.env.net(PageRequest(h, l.st, url)))
          // What the login set survives the refetch.
          && o.st.cookies == l.st.cookies && o.st.loggedIn == l.st.loggedIn
          && o.st.queryString == l.st.queryString && o.st.loginCounter == l.st.loginCounter
          && ('=' !in url <==> o.val == Err(NoLinkId))
          && ('=' in url ==> o.val == Ok(FindLink(h.env, url, o.st.page, KinozalDownload(Kinozal.IdFromLink(url).value)).GetOr("")))))
  {
  }

  /** test tracker's `get_download_link`: the first `.torrent` link of the
      (possibly cached) page, or "". */
  function TestDownloadLink(h: Handler, st: State, url: string): (o: Out<Result<string, Failure>>)
    ensures o.st == GetTorrentPage(h, st, url, false).st
    ensures o.val == Ok(FindLink(h.env, url, GetTorrentPage(h, st, url, false).val, TorrentFile).GetOr(""))
  {
    var o1 := GetTorrentPage(h, st, url, false);
    Out(o1.st, Ok(FindLink(h.env, url, o1.val, TorrentFile).GetOr("")))
  }

  /** `get_download_link`, as each class overrides it. */
  function GetDownloadLink(h: Handler, st: State, url: string): (o: Out<Result<string, Failure>>)
    ensures o.st.attempts == st.attempts
  {
    match h.site
    case KinozalSite => KinozalDownloadLink(h, st, url)
    case TestSite => TestDownloadLink(h, st, url)
  }

  // ---------------------------------------------------------------------------
  // Site-specific magnets
  // ---------------------------------------------------------------------------

  /** The details page kinozal is asked for the info hash of the thread at `url`. */
  function KinozalHashUrl(url: string): string {
    var u := ParseUrl(url);
    Kinozal.MagnetInfoUrl(ExtractDomain(u), QueryArg(u, "id"))
  }

  /** kinozal's `get_torrent_magnet`: the details page is always fetched and
      replaces the cached page; the hash is read off its list items. */
  function KinozalMagnet(h: Handler, st: State, url: string): (o: Out<Result<Option<Magnet>, Failure>>)
    ensures var hashUrl := KinozalHashUrl(url);
      o.st == st.(requests := st.requests + [PageRequest(h, st, hashUrl)], pageUrl := hashUrl,
                  page := AsSoup(h.env.net(PageRequest(h, st, hashUrl))))
    ensures o.val.Ok? && o.val.value.Some? ==> o.val.value.value.InfoHash? && NoUpper(o.val.value.value.hash)
    ensures o.val == Err(NoPage) <==> o.st.page.None?
    // A page is read by the hash pattern: no item, a mismatch, or the hash.
    ensures o.st.page.Some? ==>
      match Kinozal.ReadHash(o.st.page.value.items)
      case NoItem => o.val == Ok(None)
      case Mismatch => o.val == Err(HashPatternMismatch)
      case Found(x) => o.val == Ok(Some(InfoHash(x)))
  {
    var o1 := GetTorrentPage(h, st, KinozalHashUrl(url), true);
    if o1.val.None? then Out(o1.st, Err(NoPage))
    else match Kinozal.ReadHash(o1.val.value.items)
      case NoItem => Out(o1.st, Ok(None))
      case Mismatch => Out(o1.st, Err(HashPatternMismatch))
      case Found(hash) => Out(o1.st, Ok(Some(InfoHash(hash))))
  }

  /** The public trackers' `get_torrent_magnet`: the first link that mentions a
      magnet on the freshly fetched page, up to the end of its line. */
  function PublicMagnet(h: Handler, st: State, url: string): (o: Out<Result<Option<Magnet>, Failure>>)
    ensures o.st == GetTorrentPage(h, st, url, true).st
    ensures var page := o.st.page;
      (page.None? <==> o.val == Err(NoPage))
      && (page.Some? && (forall j :: 0 <= j < |page.value.hrefs| ==> !Matches(MagnetUri, page.value.hrefs[j])) ==> o.val == Ok(None))
    ensures o.val.Ok? && o.val.value.Some? ==> (o.val.value.value.MagnetLink?
      && StartsWith(o.val.value.value.uri, MagnetPrefix) && '\n' !in o.val.value.value.uri)
    // The first href matching the pattern gives its first line as the magnet,
    // or fails the match when it does not start with the pattern's text.
    ensures o.st.page.Some? ==>
      var hrefs := o.st.page.value.hrefs;
      match FirstHref(hrefs, MagnetUri, 0)
      case None => o.val == Ok(None)
      case Some(j) =>
        (StartsWith(hrefs[j], MagnetPrefix) ==> o.val == Ok(Some(MagnetLink(UpToNewline(hrefs[j])))))
        && (!StartsWith(hrefs[j], MagnetPrefix) ==> o.val == Err(HashPatternMismatch))
  {
    var o1 := GetTorrentPage(h, st, url, true);
    if o1.val.None? then Out(o1.st, Err(NoPage))
    else
      var hrefs := o1.val.value.hrefs;
      match FirstHref(hrefs, MagnetUri, 0)
      case None => Out(o1.st, Ok(None))
      case Some(j) =>
        if StartsWith(hrefs[j], MagnetPrefix) then
          var uri := UpToNewline(hrefs[j]);
          assert uri[..|MagnetPrefix|] == hrefs[j][..|MagnetPrefix|] by {
            assert '\n' !in MagnetPrefix;
            PrefixWithoutNewline(hrefs[j], MagnetPrefix);
          }
          Out(o1.st, Ok(Some(MagnetLink(uri))))
        else Out(o1.st, Err(HashPatternMismatch))
  }

  /** `hrefs[j]` is the first href in document order that matches `p`. */
  predicate FirstMatchAt(hrefs: seq<string>, p: Pattern, j: int) {
    0 <= j < |hrefs| && Matches(p, hrefs[j]) && forall i :: 0 <= i < j ==> !Matches(p, hrefs[i])
  }

  /** On kinozal a fetched details page gives no magnet exactly when no item
      mentions the info hash; otherwise the first item that does decides: the
      lower-cased rest of its first line when it starts with the marker, a
      failed match when it does not. */
  lemma KinozalMagnetSpec(h: Handler, st: State, url: string)
    ensures var o := KinozalMagnet(h, st, url);
      o.st.page.Some? ==> var items := o.st.page.value.items;
        (o.val == Ok(None) <==> forall k :: 0 <= k < |items| ==> !Contains(items[k], Kinozal.HashMarker))
        && (o.val.Ok? && o.val.value.Some? ==> exists k :: (Kinozal.FirstMarkedAt(items, k)
              && StartsWith(items[k], Kinozal.HashMarker)
              && o.val.value.value == InfoHash(Lower(UpToNewline(items[k][|Kinozal.HashMarker|..])))))
        && (o.val == Err(HashPatternMismatch) <==>
              exists k :: Kinozal.FirstMarkedAt(items, k) && !StartsWith(items[k], Kinozal.HashMarker))
  {
    var o := KinozalMagnet(h, st, url);
    if o.st.page.Some? {
      var items := o.st.page.value.items;
      match Kinozal.ReadHash(items)
      case NoItem =>
      case Mismatch =>
      case Found(x) =>
        var k :| Kinozal.FirstMarkedAt(items, k) && StartsWith(items[k], Kinozal.HashMarker);
        FirstMarkedUnique(items, k);
    }
  }

  /** Only one item is the first to mention the marker. */
  lemma FirstMarkedUnique(items: seq<string>, k: int)
    requires Kinozal.FirstMarkedAt(items, k)
    ensures forall i :: Kinozal.FirstMarkedAt(items, i) ==> i == k
  {
  }

  /** A public tracker's fetched page gives no magnet exactly when no href
      mentions a magnet; otherwise the first href that does decides: its first
      line when it starts with the magnet prefix, a failed match when not. */
  lemma PublicMagnetSpec(h: Handler, st: State, url: string)
    ensures var o := PublicMagnet(h, st, url);
      o.st.page.Some? ==> var hrefs := o.st.page.value.hrefs;
        (o.val == Ok(None) <==> forall j :: 0 <= j < |hrefs| ==> !Matches(MagnetUri, hrefs[j]))
        && (o.val.Ok? && o.val.value.Some? ==> exists j :: (FirstMatchAt(hrefs, MagnetUri, j)
              && StartsWith(hrefs[j], MagnetPrefix) && o.val.value.value == MagnetLink(UpToNewline(hrefs[j]))))
        && (o.val == Err(HashPatternMismatch) <==>
              exists j :: FirstMatchAt(hrefs, MagnetUri, j) && !StartsWith(hrefs[j], MagnetPrefix))
  {
    var o := PublicMagnet(h, st, url);
    if o.st.page.Some? {
      var hrefs := o.st.page.value.hrefs;
      match FirstHref(hrefs, MagnetUri, 0)
      case None =>
      case Some(j) =>
        assert FirstMatchAt(hrefs, MagnetUri, j);
    }
  }

  /** A prefix without a newline lies inside the first line. */
  lemma PrefixWithoutNewline(s: string, p: string)
    requires StartsWith(s, p) && '\n' !in p
    ensures |p| <= |UpToNewline(s)| && UpToNewline(s)[..|p|] == s[..|p|]
  {
  }

  /** `get_torrent_magnet`, as each class provides it. */
  function GetTorrentMagnet(h: Handler, st: State, url: string): (o: Out<Result<Option<Magnet>, Failure>>)
    ensures o.st.attempts == st.attempts
  {
    match h.site
    case KinozalSite => KinozalMagnet(h, st, url)
    case TestSite => PublicMagnet(h, st, url)
  }

  // ---------------------------------------------------------------------------
  // The mirror fallback loops
  // ---------------------------------------------------------------------------

  /** One mirror of `get_torrent`: find the download link, read the page data,
      download and parse. Any exception or empty outcome makes the mirror fail. */
  function TorrentStep(h: Handler, st: State, url: string, mirror: string): (o: Out<Option<TorrentData>>)
    ensures o.st.attempts == st.attempts
    // No link, or an empty one: the mirror fails right after the lookup.
    ensures var l := GetDownloadLink(h, st, mirror);
      (l.val.Err? || l.val.value == "") ==> o == Out(l.st, None)
    // With a link: one download, and success iff bytes arrive that parse; the
    // record then holds exactly those bytes.
    ensures var l := GetDownloadLink(h, st, mirror);
      l.val.Ok? && l.val.value != "" ==>
        var d := DownloadTorrent(h, l.st, l.val.value, Some(mirror));
        o.st == d.st
        && (o.val.Some? <==> d.val.Some? && h.env.parse(d.val.value).Some?)
        && (o.val.Some? ==> o.val.value.raw == d.val.value)
    ensures o.val.Some? ==> var t := o.val.value; (
      t.url == url && t.hashField == "" && t.nameField == "" && t.downloadTo.None?
      && t.parsed.Some? && t.page.Some?
      && var link := GetDownloadLink(h, st, mirror);
      link.val == Ok(t.urlFile) && t.urlFile != ""
      && t.parsed == h.env.parse(t.raw)
      && t.page == Some(ExtractPageData(link.st.page)))
  {
    var o1 := GetDownloadLink(h, st, mirror);
    if o1.val.Err? || o1.val.value == "" then Out(o1.st, None)
    else
      var link := o1.val.value;
      var pageData := ExtractPageData(o1.st.page);
      var o2 := DownloadTorrent(h, o1.st, link, Some(mirror));
      if o2.val.None? then Out(o2.st, None)
      else match h.env.parse(o2.val.value)
        case None => Out(o2.st, None)
        case Some(parsed) =>
          Out(o2.st, Some(TorrentData("", "", url, link, o2.val.value, Some(pageData), Some(parsed), None)))
  }

  /** One mirror of `get_magnet`: a magnet, or the mirror fails. */
  function MagnetStep(h: Handler, st: State, mirror: string): (o: Out<Option<Magnet>>)
    ensures var m := GetTorrentMagnet(h, st, mirror);
      o.st == m.st && (o.val.Some? <==> m.val.Ok? && m.val.value.Some?)
      && (o.val.Some? ==> o.val == m.val.value)
  {
    var m := GetTorrentMagnet(h, st, mirror);
    if m.val.Ok? && m.val.value.Some? then Out(m.st, m.val.value) else Out(m.st, None)
  }

  /** One mirror of `get_download_url`: a non-empty download link, or the mirror fails. */
  function UrlStep(h: Handler, st: State, mirror: string): (o: Out<Option<string>>)
    ensures var l := GetDownloadLink(h, st, mirror);
      o.st == l.st && (o.val.Some? <==> l.val.Ok? && l.val.value != "")
      && (o.val.Some? ==> l.val == Ok(o.val.value))
  {
    var l := GetDownloadLink(h, st, mirror);
    if l.val.Ok? && l.val.value != "" then Out(l.st, Some(l.val.value)) else Out(l.st, None)
  }

  /** The state with one more mirror attempt logged. */
  function Attempt(st: State, mirror: string): State {
    st.(attempts := st.attempts + [mirror])
  }

  /** The fallback loop: each mirror in turn, until one succeeds. */
  function FirstSuccess<T>(step: (State, string) -> Out<Option<T>>, st: State, mirrors: seq<string>): Out<Option<T>>
    decreases |mirrors|
  {
    if mirrors == [] then Out(st, None)
    else
      var o := step(Attempt(st, mirrors[0]), mirrors[0]);
      if o.val.Some? then o else FirstSuccess(step, o.st, mirrors[1..])
  }

  /** One turn of the fallback loop: the first mirror's outcome decides whether
      the loop stops or goes on with the rest. */
  lemma FirstSuccessCons<T>(step: (State, string) -> Out<Option<T>>, st: State, ms: seq<string>, o: Out<Option<T>>)
    requires |ms| >= 1 && o == step(Attempt(st, ms[0]), ms[0])
    ensures o.val.Some? ==> FirstSuccess(step, st, ms) == o
    ensures o.val.None? ==> FirstSuccess(step, st, ms) == FirstSuccess(step, o.st, ms[1..])
  {
  }

  /** The state after every mirror of `ms` was tried and failed, one after the other. */
  function After<T>(step: (State, string) -> Out<Option<T>>, st: State, ms: seq<string>): State
    decreases |ms|
  {
    if ms == [] then st
    else
      var m := ms[|ms| - 1];
      step(Attempt(After(step, st, ms[..|ms| - 1]), m), m).st
  }

  /** What trying mirror `k` gives once the mirrors before it have failed. */
  function StepAt<T>(step: (State, string) -> Out<Option<T>>, st: State, ms: seq<string>, k: nat): Out<Option<T>>
    requires k < |ms|
  {
    step(Attempt(After(step, st, ms[..k]), ms[k]), ms[k])
  }

  /** Every mirror of `ms` fails, each tried after the ones before it failed. */
  ghost predicate AllFail<T>(step: (State, string) -> Out<Option<T>>, st: State, ms: seq<string>) {
    forall k :: 0 <= k < |ms| ==> StepAt(step, st, ms, k).val.None?
  }

  /** The mirrors of `ms` before the `k`-th all fail. */
  ghost predicate FailBefore<T>(step: (State, string) -> Out<Option<T>>, st: State, ms: seq<string>, k: nat)
    requires k <= |ms|
  {
    forall j :: 0 <= j < k ==> StepAt(step, st, ms, j).val.None?
  }

  /** A step leaves the attempt log alone. */
  ghost predicate KeepsAttempts<T>(step: (State, string) -> Out<Option<T>>) {
    forall s, m :: step(s, m).st.attempts == s.attempts
  }

  lemma {:induction false} AfterFirst<T>(step: (State, string) -> Out<Option<T>>, st: State, ms: seq<string>)
    requires |ms| >= 1
    ensures After(step, st, ms) == After(step, step(Attempt(st, ms[0]), ms[0]).st, ms[1..])
    decreases |ms|
  {
    if |ms| > 1 {
      var init := ms[..|ms| - 1];
      assert init[0] == ms[0];
      AfterFirst(step, st, init);
      assert init[1..] == ms[1..][..|ms[1..]| - 1];
    }
  }

  lemma {:induction false} AfterAttempts<T>(step: (State, string) -> Out<Option<T>>, st: State, ms: seq<string>)
    requires KeepsAttempts(step)
    ensures After(step, st, ms).attempts == st.attempts + ms
    decreases |ms|
  {
    if ms != [] {
      AfterAttempts(step, st, ms[..|ms| - 1]);
      assert ms[..|ms| - 1] + [ms[|ms| - 1]] == ms;
    }
  }

  /** Once the first mirror has failed, trying mirror `k + 1` of `ms` is trying
      mirror `k` of the rest from the state the first one left. */
  lemma StepAtShift<T>(step: (State, string) -> Out<Option<T>>, st: State, ms: seq<string>, k: nat)
    requires k + 1 < |ms|
    ensures StepAt(step, st, ms, k + 1) == StepAt(step, step(Attempt(st, ms[0]), ms[0]).st, ms[1..], k)
  {
    assert ms[..k + 1][0] == ms[0] && ms[..k + 1][1..] == ms[1..][..k];
    AfterFirst(step, st, ms[..k + 1]);
    assert ms[k + 1] == ms[1..][k];
  }

  /** The first mirror is tried from the initial state. */
  lemma StepAtFirst<T>(step: (State, string) -> Out<Option<T>>, st: State, ms: seq<string>)
    requires |ms| >= 1
    ensures StepAt(step, st, ms, 0) == step(Attempt(st, ms[0]), ms[0])
  {
    assert ms[..0] == [];
  }

  /** The loop gives nothing exactly when every mirror fails, and then leaves
      the state every failed attempt in turn has made. */
  lemma {:induction false} FirstSuccessNone<T>(step: (State, string) -> Out<Option<T>>, st: State, ms: seq<string>)
    ensures var o := FirstSuccess(step, st, ms);
      (o.val.None? <==> forall k :: 0 <= k < |ms| ==> StepAt(step, st, ms, k).val.None?)
      && (o.val.None? ==> o.st == After(step, st, ms))
    decreases |ms|
  {
    var o := FirstSuccess(step, st, ms);
    if ms != [] {
      var first := step(Attempt(st, ms[0]), ms[0]);
      StepAtFirst(step, st, ms);
      if first.val.None? {
        var rest := ms[1..];
        FirstSuccessNone(step, first.st, rest);
        forall k | 0 <= k < |rest| ensures StepAt(step, st, ms, k + 1) == StepAt(step, first.st, rest, k) {
          StepAtShift(step, st, ms, k);
        }
        if o.val.None? {
          AfterFirst(step, st, ms);
          forall k | 0 <= k < |ms| ensures StepAt(step, st, ms, k).val.None? {
            if k > 0 { assert StepAt(step, st, ms, k) == StepAt(step, first.st, rest, k - 1); }
          }
        } else {
          var k :| 0 <= k < |rest| && StepAt(step, first.st, rest, k).val.Some?;
          assert StepAt(step, st, ms, k + 1).val.Some?;
        }
      }
    } else {
      assert o.st == After(step, st, ms);
    }
  }

  /** A success is the outcome of the first mirror that does not fail. */
  lemma {:induction false} FirstSuccessSome<T>(step: (State, string) -> Out<Option<T>>, st: State, ms: seq<string>)
    ensures var o := FirstSuccess(step, st, ms);
      o.val.Some? ==> exists k :: (0 <= k < |ms| && (forall j :: 0 <= j < k ==> StepAt(step, st, ms, j).val.None?)
        && o == StepAt(step, st, ms, k))
    decreases |ms|
  {
    var o := FirstSuccess(step, st, ms);
    if ms != [] {
      var first := step(Attempt(st, ms[0]), ms[0]);
      StepAtFirst(step, st, ms);
      if first.val.None? && o.val.Some? {
        var rest := ms[1..];
        FirstSuccessSome(step, first.st, rest);
        var k :| 0 <= k < |rest| && (forall j :: 0 <= j < k ==> StepAt(step, first.st, rest, j).val.None?)
          && o == StepAt(step, first.st, rest, k);
        StepAtShift(step, st, ms, k);
        forall j | 0 <= j < k + 1 ensures StepAt(step, st, ms, j).val.None? {
          if j > 0 { StepAtShift(step, st, ms, j - 1); }
        }
      }
    }
  }

  /** The fallback loops try the mirrors strictly in order, stop at the first one
      that succeeds and return what it gave, and give nothing if every mirror fails;
      no mirror after the successful one is tried. */
  lemma {:induction false} FirstSuccessSpec<T>(step: (State, string) -> Out<Option<T>>, st: State, ms: seq<string>)
    requires KeepsAttempts(step)
    ensures var o := FirstSuccess(step, st, ms);
      (o.val.None? <==> AllFail(step, st, ms))
      && (o.val.None? ==> o.st == After(step, st, ms) && o.st.attempts == st.attempts + ms)
      && (o.val.Some? ==> exists k :: (0 <= k < |ms| && FailBefore(step, st, ms, k)
            && o == StepAt(step, st, ms, k) && o.st.attempts == st.attempts + ms[..k + 1]))
  {
    var o := FirstSuccess(step, st, ms);
    FirstSuccessNone(step, st, ms);
    FirstSuccessSome(step, st, ms);
    if o.val.None? {
      AfterAttempts(step, st, ms);
    } else {
      var k :| 0 <= k < |ms| && (forall j :: 0 <= j < k ==> StepAt(step, st, ms, j).val.None?)
        && o == StepAt(step, st, ms, k);
      assert FailBefore(step, st, ms, k);
      StepAtAttempts(step, st, ms, k);
    }
  }

  /** Trying mirror `k` logs the mirrors up to and including it. */
  lemma StepAtAttempts<T>(step: (State, string) -> Out<Option<T>>, st: State, ms: seq<string>, k: nat)
    requires KeepsAttempts(step) && k < |ms|
    ensures StepAt(step, st, ms, k).st.attempts == st.attempts + ms[..k + 1]
  {
    AfterAttempts(step, st, ms[..k]);
    TakeOneMore(ms, k);
  }

  lemma TakeOneMore(ms: seq<string>, k: nat)
    requires k < |ms|
    ensures ms[..k] + [ms[k]] == ms[..k + 1]
  {
  }

  function TorrentStepFn(h: Handler, url: string): (State, string) -> Out<Option<TorrentData>> {
    (s: State, m: string) => TorrentStep(h, s, url, m)
  }

  function MagnetStepFn(h: Handler): (State, string) -> Out<Option<Magnet>> {
    (s: State, m: string) => MagnetStep(h, s, m)
  }

  function UrlStepFn(h: Handler): (State, string) -> Out<Option<string>> {
    (s: State, m: string) => UrlStep(h, s, m)
  }

  lemma TorrentStepApply(h: Handler, url: string, s: State, m: string)
    ensures TorrentStepFn(h, url)(s, m) == TorrentStep(h, s, url, m)
  {
  }

  lemma MagnetStepApply(h: Handler, s: State, m: string)
    ensures MagnetStepFn(h)(s, m) == MagnetStep(h, s, m)
  {
  }

  lemma UrlStepApply(h: Handler, s: State, m: string)
    ensures UrlStepFn(h)(s, m) == UrlStep(h, s, m)
  {
  }

  /** `get_torrent`. */
  function GetTorrent(h: Handler, st: State, url: string): Out<Option<TorrentData>> {
    FirstSuccess(TorrentStepFn(h, url), st, IterMirrors(ClassOf(h.site), url))
  }

  /** `get_magnet`. */
  function GetMagnet(h: Handler, st: State, url: string): Out<Option<Magnet>> {
    FirstSuccess(MagnetStepFn(h), st, IterMirrors(ClassOf(h.site), url))
  }

  /** `get_download_url`. */
  function GetDownloadUrl(h: Handler, st: State, url: string): Out<Option<string>> {
    FirstSuccess(UrlStepFn(h), st, IterMirrors(ClassOf(h.site), url))
  }

  /** None of the per-mirror steps touches the attempt log. */
  lemma StepsKeepAttempts(h: Handler, url: string)
    ensures KeepsAttempts(TorrentStepFn(h, url)) && KeepsAttempts(MagnetStepFn(h)) && KeepsAttempts(UrlStepFn(h))
  {
  }

  /** The record `t` is what mirror `mirror` gives from state `st`: the asked-for
      URL, the non-empty link found there, and exactly the bytes downloaded from
      that link, which parse. */
  ghost predicate DownloadedFrom(h: Handler, st: State, url: string, mirror: string, t: TorrentData) {
    var l := GetDownloadLink(h, st, mirror);
    l.val == Ok(t.urlFile) && t.urlFile != "" && t.url == url
    && DownloadTorrent(h, l.st, t.urlFile, Some(mirror)).val == Some(t.raw)
    && t.parsed.Some? && t.parsed == h.env.parse(t.raw)
  }

  /** `get_torrent` tries the mirror URLs in the order `iter_mirrors` yields them
      and stops at the first one that gives a parsed torrent; what it returns is
      the record that mirror gives, downloaded from it once the mirrors before
      it have failed. It returns nothing exactly when every mirror fails, after
      trying all of them. */
  lemma GetTorrentSpec(h: Handler, st: State, url: string)
    ensures var o := GetTorrent(h, st, url); var ms := IterMirrors(ClassOf(h.site), url);
      (o.val.None? <==> AllFail(TorrentStepFn(h, url), st, ms))
      && (o.val.None? ==> o.st.attempts == st.attempts + ms)
      && (o.val.Some? ==> exists k :: (0 <= k < |ms| && o.st.attempts == st.attempts + ms[..k + 1]
            && FailBefore(TorrentStepFn(h, url), st, ms, k)
            && DownloadedFrom(h, Attempt(After(TorrentStepFn(h, url), st, ms[..k]), ms[k]), url, ms[k], o.val.value)))
  {
    var ms := IterMirrors(ClassOf(h.site), url);
    var step := TorrentStepFn(h, url);
    StepsKeepAttempts(h, url);
    FirstSuccessSpec(step, st, ms);
    var o := GetTorrent(h, st, url);
    if o.val.Some? {
      var k :| 0 <= k < |ms| && FailBefore(step, st, ms, k)
        && o == StepAt(step, st, ms, k) && o.st.attempts == st.attempts + ms[..k + 1];
      var before := Attempt(After(step, st, ms[..k]), ms[k]);
      assert o == TorrentStep(h, before, url, ms[k]);
      TorrentStepDownloaded(h, before, url, ms[k]);
    }
  }

  /** A successful torrent step gives the record its mirror downloads. */
  lemma TorrentStepDownloaded(h: Handler, st: State, url: string, mirror: string)
    ensures var o := TorrentStep(h, st, url, mirror);
      o.val.Some? ==> DownloadedFrom(h, st, url, mirror, o.val.value)
  {
  }

  /** `get_magnet` gives the magnet of the first mirror that gives one. */
  lemma GetMagnetSpec(h: Handler, st: State, url: string)
    ensures var o := GetMagnet(h, st, url); var ms := IterMirrors(ClassOf(h.site), url);
      (o.val.None? <==> AllFail(MagnetStepFn(h), st, ms))
      && (o.val.None? ==> o.st.attempts == st.attempts + ms)
      && (o.val.Some? ==> exists k :: (0 <= k < |ms| && o.st.attempts == st.attempts + ms[..k + 1]
            && FailBefore(MagnetStepFn(h), st, ms, k)
            && GetTorrentMagnet(h, Attempt(After(MagnetStepFn(h), st, ms[..k]), ms[k]), ms[k]).val == Ok(o.val)))
  {
    var ms := IterMirrors(ClassOf(h.site), url);
    var step := MagnetStepFn(h);
    StepsKeepAttempts(h, url);
    FirstSuccessSpec(step, st, ms);
    var o := GetMagnet(h, st, url);
    if o.val.Some? {
      var k :| 0 <= k < |ms| && FailBefore(step, st, ms, k)
        && o == StepAt(step, st, ms, k) && o.st.attempts == st.attempts + ms[..k + 1];
      var before := Attempt(After(step, st, ms[..k]), ms[k]);
      assert o == MagnetStep(h, before, ms[k]);
    }
  }

  /** `get_download_url` gives the first non-empty download link of the mirrors. */
  lemma GetDownloadUrlSpec(h: Handler, st: State, url: string)
    ensures var o := GetDownloadUrl(h, st, url); var ms := IterMirrors(ClassOf(h.site), url);
      (o.val.None? <==> AllFail(UrlStepFn(h), st, ms))
      && (o.val.None? ==> o.st.attempts == st.attempts + ms)
      && (o.val.Some? ==> exists k :: (0 <= k < |ms| && o.st.attempts == st.attempts + ms[..k + 1]
            && FailBefore(UrlStepFn(h), st, ms, k)
            && o.val.value != "" && GetDownloadLink(h, Attempt(After(UrlStepFn(h), st, ms[..k]), ms[k]), ms[k]).val == Ok(o.val.value)))
  {
    var ms := IterMirrors(ClassOf(h.site), url);
    var step := UrlStepFn(h);
    StepsKeepAttempts(h, url);
    FirstSuccessSpec(step, st, ms);
  }
}
