/** A tracker handler object: the fields the handler code updates in place and
    the methods that update them, each proved to do what the state machine in
    module BaseTracker says. The log of requests sent and mirrors tried is
    ghost: the program keeps no such record. */
module Handlers {
  import opened Common
  import opened Web
  import opened Utils
  import B = BaseTracker
  import Kinozal

  class Tracker {
    const handler: B.Handler
    var cookies: Cookies
    var queryString: Option<string>
    var pageUrl: string
    var page: Option<Soup>
    var loggedIn: bool
    var loginCounter: nat
    ghost var requests: seq<Request>
    ghost var attempts: seq<string>

    /** The fields as a state of the handler state machine. */
    ghost function Model(): B.State
      reads this
    {
      B.State(cookies, queryString, pageUrl, page, loggedIn, loginCounter, requests, attempts)
    }

    /** `__init__`: the cookies default to none, the page cache is empty and
        nobody is logged in. */
    constructor(handler: B.Handler, cookies: Option<Cookies>, queryString: Option<string>)
      ensures this.handler == handler && Model() == B.Initial(cookies, queryString)
    {
      this.handler := handler;
      this.cookies := cookies.GetOr(map[]);
      this.queryString := queryString;
      pageUrl := "";
      page := None;
      loggedIn := false;
      loginCounter := 0;
      requests := [];
      attempts := [];
    }

    /** `get_response`: one request through the HTTP client. */
    method GetResponse(url: string, form: Option<Form>, allowRedirects: bool, referer: Option<string>,
                       withCookies: Option<Cookies>, qs: Option<string>) returns (r: Option<Response>)
      modifies this
      ensures B.Out(Model(), r) == B.GetResponse(handler, old(Model()), url, form, allowRedirects, referer, withCookies, qs)
    {
      var req := Request(B.WithQueryString(url, qs), form, allowRedirects, referer, withCookies);
      requests := requests + [req];
      r := handler.env.net(req);
    }

    /** `get_torrent_page`. */
    method GetTorrentPage(url: string, dropCache: bool) returns (r: Option<Soup>)
      modifies this
      ensures B.Out(Model(), r) == B.GetTorrentPage(handler, old(Model()), url, dropCache)
    {
      var drop := dropCache;
      if url != pageUrl {
        drop := true;
      }
      if drop || page.None? {
        var resp := GetResponse(url, None, true, Some(url), Some(cookies), B.GetQueryString(B.ClassOf(handler.site), queryString));
        page := B.AsSoup(resp);
        pageUrl := url;
      }
      r := page;
    }

    /** `login` with the class attributes `attrs`. */
    method LoginWith(attrs: B.PrivateAttrs, domain: string) returns (r: Result<bool, B.Failure>)
      modifies this
      ensures B.Out(Model(), r) == B.LoginWith(attrs, handler, old(Model()), domain)
    {
      if attrs.loginUrl.None? {
        return Err(B.NoLoginUrl);
      }
      if loggedIn {
        return Err(B.ConsecutiveLogin);
      }
      if !Common.Truthy(handler.username) || handler.password.None? {
        return Ok(false);
      }
      loginCounter := loginCounter + 1;
      if loginCounter > 1 {
        return Ok(false);
      }
      var allowRedirects := false;
      if Common.Truthy(attrs.authQsParamName) {
        allowRedirects := true;
      }
      var form := B.LoginFormData(handler.site, handler.username.value, handler.password.value);
      var resp := GetResponse(Show(Fill(attrs.loginUrl.value, domain)), Some(form), allowRedirects, None, Some(cookies), None);
      if resp.None? || !resp.value.ok {
        return Ok(false);
      }
      var parsedQs := resp.value.query;
      if B.LoginSucceeded(attrs, resp.value) {
        loggedIn := true;
        if parsedQs != map[] {
          if attrs.authQsParamName.None? || attrs.authQsParamName.value !in parsedQs {
            return Err(B.AuthParamMissing);
          }
          queryString := Some(parsedQs[attrs.authQsParamName.value]);
        }
        cookies := resp.value.cookies;
      }
      r := Ok(loggedIn);
    }

    /** `login(domain)`. */
    method Login(domain: string) returns (r: Result<bool, B.Failure>)
      requires B.ClassOf(handler.site).private.Some?
      modifies this
      ensures B.Out(Model(), r) == B.Login(handler, old(Model()), domain)
    {
      r := LoginWith(B.ClassOf(handler.site).private.value, domain);
    }

    /** `test_configuration`. */
    method TestConfiguration() returns (r: Result<bool, B.Failure>)
      modifies this
      ensures B.Out(Model(), r) == B.TestConfiguration(handler, old(Model()))
    {
      var c := B.ClassOf(handler.site);
      if c.private.Some? {
        r := Login(c.alias);
      } else {
        r := Ok(true);
      }
    }

    /** `download_torrent`. */
    method DownloadTorrent(url: string, referer: Option<string>) returns (r: Option<seq<byte>>)
      modifies this
      ensures B.Out(Model(), r) == B.DownloadTorrent(handler, old(Model()), url, referer)
    {
      var c := B.ClassOf(handler.site);
      var resp;
      if c.private.Some? {
        resp := GetResponse(url, None, true, referer, Some(cookies), B.GetQueryString(c, queryString));
      } else {
        resp := GetResponse(url, None, true, referer, None, None);
      }
      r := if resp.Some? then Some(resp.value.content) else None;
    }

    /** kinozal's `get_download_link`. */
    method KinozalDownloadLink(url: string) returns (r: Result<string, B.Failure>)
      requires handler.site == B.KinozalSite
      modifies this
      ensures B.Out(Model(), r) == B.KinozalDownloadLink(handler, old(Model()), url)
    {
      var soup := GetTorrentPage(url, false);
      if B.FindLink(handler.env, url, soup, B.Signup).Some? {
        var l := Login(ExtractDomain(ParseUrl(url)));
        if l.Err? {
          return Err(l.error);
        }
        soup := GetTorrentPage(url, true);
      }
      var id := Kinozal.IdFromLink(url);
      if id.None? {
        return Err(B.NoLinkId);
      }
      r := Ok(B.FindLink(handler.env, url, soup, B.KinozalDownload(id.value)).GetOr(""));
    }

    /** test tracker's `get_download_link`. */
    method TestDownloadLink(url: string) returns (r: Result<string, B.Failure>)
      modifies this
      ensures B.Out(Model(), r) == B.TestDownloadLink(handler, old(Model()), url)
    {
      var soup := GetTorrentPage(url, false);
      r := Ok(B.FindLink(handler.env, url, soup, B.TorrentFile).GetOr(""));
    }

    /** `get_download_link`, dispatched on the handler class. */
    method GetDownloadLink(url: string) returns (r: Result<string, B.Failure>)
      modifies this
      ensures B.Out(Model(), r) == B.GetDownloadLink(handler, old(Model()), url)
    {
      if handler.site == B.KinozalSite {
        r := KinozalDownloadLink(url);
      } else {
        r := TestDownloadLink(url);
      }
    }

    /** kinozal's `get_torrent_magnet`. */
    method KinozalMagnet(url: string) returns (r: Result<Option<B.Magnet>, B.Failure>)
      modifies this
      ensures B.Out(Model(), r) == B.KinozalMagnet(handler, old(Model()), url)
    {
      var soup := GetTorrentPage(B.KinozalHashUrl(url), true);
      if soup.None? {
        return Err(B.NoPage);
      }
      match Kinozal.ReadHash(soup.value.items)
      case NoItem => r := Ok(None);
      case Mismatch => r := Err(B.HashPatternMismatch);
      case Found(hash) => r := Ok(Some(B.InfoHash(hash)));
    }

    /** The public trackers' `get_torrent_magnet`. */
    method PublicMagnet(url: string) returns (r: Result<Option<B.Magnet>, B.Failure>)
      modifies this
      ensures B.Out(Model(), r) == B.PublicMagnet(handler, old(Model()), url)
    {
      var soup := GetTorrentPage(url, true);
      if soup.None? {
        return Err(B.NoPage);
      }
      var hrefs := soup.value.hrefs;
      var j := B.FirstHref(hrefs, B.MagnetUri, 0);
      if j.None? {
        return Ok(None);
      }
      if StartsWith(hrefs[j.value], B.MagnetPrefix) {
        r := Ok(Some(B.MagnetLink(UpToNewline(hrefs[j.value]))));
      } else {
        r := Err(B.HashPatternMismatch);
      }
    }

    /** `get_torrent_magnet`, dispatched on the handler class. */
    method GetTorrentMagnet(url: string) returns (r: Result<Option<B.Magnet>, B.Failure>)
      modifies this
      ensures B.Out(Model(), r) == B.GetTorrentMagnet(handler, old(Model()), url)
    {
      if handler.site == B.KinozalSite {
        r := KinozalMagnet(url);
      } else {
        r := PublicMagnet(url);
      }
    }

    /** The body of `get_torrent`'s loop for one mirror URL; an exception makes
        the mirror fail. */
    method TryTorrent(url: string, mirror: string) returns (r: Option<TorrentData>)
      modifies this
      ensures B.Out(Model(), r) == B.TorrentStep(handler, old(Model()), url, mirror)
    {
      var link := GetDownloadLink(mirror);
      if link.Err? || link.value == "" {
        return None;
      }
      var pageData := B.ExtractPageData(page);
      var contents := DownloadTorrent(link.value, Some(mirror));
      if contents.None? {
        return None;
      }
      var parsed := handler.env.parse(contents.value);
      if parsed.None? {
        return None;
      }
      r := Some(TorrentData("", "", url, link.value, contents.value, Some(pageData), parsed, None));
    }

    /** The body of `get_magnet`'s loop for one mirror URL. */
    method TryMagnet(mirror: string) returns (r: Option<B.Magnet>)
      modifies this
      ensures B.Out(Model(), r) == B.MagnetStep(handler, old(Model()), mirror)
    {
      var m := GetTorrentMagnet(mirror);
      r := if m.Ok? && m.value.Some? then m.value else None;
    }

    /** The body of `get_download_url`'s loop for one mirror URL. */
    method TryUrl(mirror: string) returns (r: Option<string>)
      modifies this
      ensures B.Out(Model(), r) == B.UrlStep(handler, old(Model()), mirror)
    {
      var l := GetDownloadLink(mirror);
      r := if l.Ok? && l.value != "" then Some(l.value) else None;
    }

    /** `get_torrent`: the mirrors in turn until one gives a parsed torrent. */
    method GetTorrent(url: string) returns (r: Option<TorrentData>)
      modifies this
      ensures B.Out(Model(), r) == B.GetTorrent(handler, old(Model()), url)
    {
      var mirrors := B.IterMirrors(B.ClassOf(handler.site), url);
      r := TorrentFromMirrors(url, mirrors);
    }

    /** The loop of `get_torrent` over the mirror URLs `mirrors`: each in turn
        is logged and tried until one gives a parsed torrent. */
    method TorrentFromMirrors(url: string, mirrors: seq<string>) returns (r: Option<TorrentData>)
      modifies this
      ensures B.Out(Model(), r) == B.FirstSuccess(B.TorrentStepFn(handler, url), old(Model()), mirrors)
    {
      ghost var step := B.TorrentStepFn(handler, url);
      ghost var goal := B.FirstSuccess(step, Model(), mirrors);
      var i := 0;
      while i < |mirrors|
        invariant 0 <= i <= |mirrors|
        invariant B.FirstSuccess(step, Model(), mirrors[i..]) == goal
      {
        assert mirrors[i..][1..] == mirrors[i + 1..];
        ghost var before := Model();
        attempts := attempts + [mirrors[i]];
        assert Model() == B.Attempt(before, mirrors[i]);
        r := TryTorrent(url, mirrors[i]);
        B.TorrentStepApply(handler, url, B.Attempt(before, mirrors[i]), mirrors[i]);
        B.FirstSuccessCons(step, before, mirrors[i..], B.Out(Model(), r));
        if r.Some? {
          return;
        }
        i := i + 1;
      }
      r := None;
    }

    /** `get_magnet`: the mirrors in turn until one gives a magnet. */
    method GetMagnet(url: string) returns (r: Option<B.Magnet>)
      modifies this
      ensures B.Out(Model(), r) == B.GetMagnet(handler, old(Model()), url)
    {
      var mirrors := B.IterMirrors(B.ClassOf(handler.site), url);
      r := MagnetFromMirrors(mirrors);
    }

    /** The loop of `get_magnet` over the mirror URLs `mirrors`: each in turn
        is logged and tried until one gives a magnet. */
    method MagnetFromMirrors(mirrors: seq<string>) returns (r: Option<B.Magnet>)
      modifies this
      ensures B.Out(Model(), r) == B.FirstSuccess(B.MagnetStepFn(handler), old(Model()), mirrors)
    {
      ghost var step := B.MagnetStepFn(handler);
      ghost var goal := B.FirstSuccess(step, Model(), mirrors);
      var i := 0;
      while i < |mirrors|
        invariant 0 <= i <= |mirrors|
        invariant B.FirstSuccess(step, Model(), mirrors[i..]) == goal
      {
        assert mirrors[i..][1..] == mirrors[i + 1..];
        ghost var before := Model();
        attempts := attempts + [mirrors[i]];
        assert Model() == B.Attempt(before, mirrors[i]);
        r := TryMagnet(mirrors[i]);
        B.MagnetStepApply(handler, B.Attempt(before, mirrors[i]), mirrors[i]);
        B.FirstSuccessCons(step, before, mirrors[i..], B.Out(Model(), r));
        if r.Some? {
          return;
        }
        i := i + 1;
      }
      r := None;
    }

    /** `get_download_url`: the mirrors in turn until one gives a download link. */
    method GetDownloadUrl(url: string) returns (r: Option<string>)
      modifies this
      ensures B.Out(Model(), r) == B.GetDownloadUrl(handler, old(Model()), url)
    {
      var mirrors := B.IterMirrors(B.ClassOf(handler.site), url);
      r := UrlFromMirrors(mirrors);
    }

    /** The loop of `get_download_url` over the mirror URLs `mirrors`: each in turn
        is logged and tried until one gives a download link. */
    method UrlFromMirrors(mirrors: seq<string>) returns (r: Option<string>)
      modifies this
      ensures B.Out(Model(), r) == B.FirstSuccess(B.UrlStepFn(handler), old(Model()), mirrors)
    {
      ghost var step := B.UrlStepFn(handler);
      ghost var goal := B.FirstSuccess(step, Model(), mirrors);
      var i := 0;
      while i < |mirrors|
        invariant 0 <= i <= |mirrors|
        invariant B.FirstSuccess(step, Model(), mirrors[i..]) == goal
      {
        assert mirrors[i..][1..] == mirrors[i + 1..];
        ghost var before := Model();
        attempts := attempts + [mirrors[i]];
        assert Model() == B.Attempt(before, mirrors[i]);
        r := TryUrl(mirrors[i]);
        B.UrlStepApply(handler, B.Attempt(before, mirrors[i]), mirrors[i]);
        B.FirstSuccessCons(step, before, mirrors[i..], B.Out(Model(), r));
        if r.Some? {
          return;
        }
        i := i + 1;
      }
      r := None;
    }
  }
}
