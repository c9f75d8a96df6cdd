# torrt tracker layer, modelled in Dafny

torrt keeps torrents added to a BitTorrent client up to date. It finds the
tracker page a torrent came from and downloads a newer `.torrent` file when the
tracker has one. This project models the tracker-handler layer of torrt and the
small data and registry utilities below it:

- how a URL is routed to a tracker handler (`can_handle`, `get_for_string`,
  `get_torrent_from_url`);
- the mirror order and the per-mirror URLs (`get_mirrors`, `iter_mirrors`);
- the auth query string;
- the single-slot page cache of a handler (`get_torrent_page`);
- the private-tracker login state machine (`logged_in`, `login_counter`,
  `cookies`, `query_string`);
- the three fallback loops over mirrors (`get_torrent`, `get_magnet`,
  `get_download_url`);
- the kinozal.tv and test.st7105.ru handlers;
- the `TorrentData` record, `structure_torrent_data` and the deep merge
  `update_dict`;
- the insertion-ordered `ObjectsRegistry`;
- the rule by which `init_object_registries` decides which tracker classes
  get an object.

Layout, one module per file:

- `Common` (`common.dfy`): `Option`, `Result`, bytes and Python string
  operations (`in`, `startswith`, `split`, `rstrip`, `isdigit`, `lower`).
- `Web` (`web.dfy`): a URL as a record `{scheme, host, rest}`, and the
  request, response and parsed-page values the handlers exchange with the HTTP
  client.
- `Utils` (`utils.dfy`): `get_url_from_string`, `update_dict`, `PageData`,
  `TorrentData`, `structure_torrent_data`, `ObjectsRegistry` (a class), and
  the default-key merge of `TorrtConfig.load`.
- `Kinozal` and `TestTracker` (`kinozal.dfy`, `test_tracker.dfy`): the parts
  of the two site handlers that do not touch handler state.
- `BaseTracker` (`base_tracker.dfy`): every handler operation as a function
  from a handler state to a new state and a result. The network is an
  oracle `Env.net` from requests to optional responses. The state keeps a log
  of every request sent and of every mirror tried.
- `Handlers` (`handlers.dfy`): the handler as a class `Tracker` whose fields
  are the source's instance attributes. Each method is proved to leave the
  object in the state, and return the value, that the `BaseTracker` function
  of the same name gives. The three fallback loops are `while` loops over the
  mirror URLs.
- `Lookup` (`lookup.dfy`): `get_torrent_from_url` over a registry of
  `Tracker` objects.
- `Toolbox` (`toolbox.dfy`): `import_classes` as far as registration goes,
  `spawn_with_settings`, `init_object_registries` and `bootstrap`.

Where a Python operation raises, the model returns an error value
(`BaseTracker.Failure`, `Utils.MergeError`, `Toolbox.ConfigError`); the
fallback loops turn every such error of a mirror into "try the next mirror",
as the source's `except BaseException` does.

Code and documentation disagree in one place, and the model follows the code.
A fresh configuration file holds only `{'trackers': {}}`, and `load` adds only
the `trackers` default, so `init_object_registries` reads `cfg['rpc']` from a
mapping that has no such key and raises `KeyError`
(`Toolbox.FreshConfigHasNoRpc`).

## Model

| member | source | states |
|---|---|---|
| Common.Split | torrt/trackers/test.py:12 | `str.split(c)`: at least one part, no part contains `c`, joining the parts with `c` gives the string back, and the first part is the text before the first `c` |
| Common.JoinLast | torrt/base_tracker.py:428-429 | the last part of a split is a suffix of the string, preceded by the separator when there is more than one part (what `split(...)[-1]` returns) |
| Common.SecondPart | torrt/trackers/kinozal.py:23-25 | when `c` occurs, a split has a second part: the text after the first `c` up to the next `c` |
| Common.RStrip | torrt/trackers/test.py:12 | `rstrip(c)`: a prefix of the string that does not end in `c`, and everything removed is `c` |
| Common.Lower | torrt/trackers/kinozal.py:66 | `lower()`: same length, each character lowered |
| Common.LowerHasNoUpper | torrt/trackers/kinozal.py:66 | a lowered string has no upper-case letter |
| Common.UpToNewline | torrt/trackers/kinozal.py:61-66 | what `(.*)` captures: the longest newline-free prefix |
| Web.ParseUrl | torrt/base_tracker.py:105-121 | a URL with `://` is split into scheme, host and rest whose string form is the URL again; the host holds no `/`, `?` or `#` |
| Web.ExtractDomain | torrt/base_tracker.py:105-111 | the network location of the URL: putting it back as the host gives the same URL |
| Web.ReplaceDomain | torrt/base_tracker.py:113-121 | the same URL with only the host changed to the given domain |
| Web.ParseShow | torrt/base_tracker.py:114-121 | parsing the string form of a canonical URL record gives the record back, so replacing the domain changes only the host |
| Web.FindFrom | torrt/base_tracker.py:105-112 | the first occurrence of a substring at or after an index, or none |
| Web.HostEnd | torrt/base_tracker.py:105-112 | the host ends at the first `/`, `?` or `#`, or at the end |
| Web.ArgIn | torrt/trackers/kinozal.py:47-50 | none iff no pair has the name; otherwise the value of the first pair with that name, the text after its first `=` (or `''` without one) |
| Web.QueryArg | torrt/trackers/kinozal.py:47-50 | `furl(url).args.get(name)`: none iff no query pair has the name, otherwise the value of the first pair that does |
| Utils.GetUrlFromString | torrt/utils.py:319-333 | `''` iff no `http://` or `https://` followed by a non-space occurs; otherwise the run of non-whitespace that starts at the leftmost such place; the result never holds whitespace |
| Utils.UrlInComment | torrt/utils.py:319-333 | a URL set off by whitespace in a comment whose text before it holds no `:` is found exactly |
| Utils.RunEnd | torrt/utils.py:38 | the end of the run of non-whitespace starting at an index |
| Utils.FirstLink | torrt/utils.py:38 | the leftmost index at or after `i` where a link starts, or none |
| Utils.UpdateDict | torrt/utils.py:345-360 | the loop over the new mapping's items returns exactly the recursive merge `Merge(base, patch)`, or the error of merging into a scalar |
| Utils.Merged | torrt/utils.py:345-360 | the value the merge leaves when no step raises; its behaviour is stated by `Utils.UpdateDict`, `Utils.MergeStep` and the `Utils.Merge*` lemmas |
| Utils.Merge | torrt/utils.py:345-360 | the merge or its `NotAMapping` error, which `Utils.UpdateDict` is proved equal to; its properties are the `Utils.Merge*` lemmas |
| Utils.MergeStep | torrt/utils.py:351-358 | one turn of the loop: a mapping value is merged recursively into `old.get(key, {})`, any other value overwrites |
| Utils.MergeIntoEmpty | torrt/utils.py:351-355 | merging into an empty mapping never fails and copies the patch |
| Utils.MergeNewLeafWins | torrt/utils.py:357-358 | every non-mapping value of the patch, at any depth, is the merged value at its path |
| Utils.MergeOldSurvives | torrt/utils.py:350-360 | a value of the old mapping at a path the patch does not reach is unchanged |
| Utils.MergeIdempotent | torrt/utils.py:345-360 | merging the same patch twice equals merging it once |
| Utils.Restrict | torrt/utils.py:350 | the entries of the patch whose keys the loop has visited |
| Utils.PageToDict | torrt/utils.py:371-377 | `PageData.to_dict`: exactly the keys `title`, `cover` and `date_updated`, holding the three fields |
| Utils.Hash | torrt/utils.py:406-418 | the explicit hash if non-empty, else the parsed info hash, else `''` |
| Utils.Name | torrt/utils.py:412-419 | the explicit name if non-empty, else the parsed name, else `''` |
| Utils.ToDict | torrt/utils.py:421-432 | `to_dict` has exactly the keys `hash`, `name`, `url`, `url_file`, `page`, `download_to` |
| Utils.ToDictRoundTrip | torrt/utils.py:421-432 | reading the stored dictionary back gives `.hash`, `.name`, the URLs, the page and the download target; `page` is `{}` iff there is no page |
| Utils.StructureTorrentData | torrt/utils.py:435-448 | the record gets `hash_str` as its hash only when its hash was empty; the target gains the key `hash_str`, holding the record's `to_dict`, and no other key changes |
| Utils.StoredHash | torrt/utils.py:435-448 | the stored `hash` is the record's prior hash, or `hash_str` when that was empty |
| Utils.ObjectsRegistry.constructor | torrt/utils.py:612-613 | an empty registry |
| Utils.ObjectsRegistry.Add | torrt/utils.py:615-627 | stores the object under its alias, overwriting an existing entry in its place; a new alias goes last in the iteration order |
| Utils.ObjectsRegistry.Lookup | torrt/utils.py:629-639 | some object iff the alias is registered, and then the object registered under it |
| Utils.ObjectsRegistry.All | torrt/utils.py:636-637 | `get(None)`: the registered items themselves |
| Utils.ObjectsRegistry.FirstTaking | torrt/utils.py:641-656 | none iff no name in the list takes the string; otherwise the first one that does |
| Utils.ObjectsRegistry.GetForString | torrt/utils.py:641-656 | the search loop returns the first object in insertion order whose `can_handle` accepts the string or whose alias occurs in it; none iff there is none |
| Utils.AddDefaults | torrt/utils.py:586-588 | the loaded settings keep every key and value, and gain each default section they lack |
| Kinozal.LoginFormData | torrt/trackers/kinozal.py:19-21 | the login form is exactly `username`, `password` and an empty `returnto` |
| Kinozal.IdFromLink | torrt/trackers/kinozal.py:23-25 | none (an `IndexError`) iff the URL has no `=`; otherwise the text between the first and the second `=` |
| Kinozal.MagnetInfoUrl | torrt/trackers/kinozal.py:53-57 | `https://{host}/get_srv_details.php?id={id}&action=2`, with a missing id printed as `None` |
| BaseTracker.KinozalHashUrl | torrt/trackers/kinozal.py:52-57 | the details page URL `Kinozal.MagnetInfoUrl` builds from the thread URL's host and its `id` query argument (`Web.QueryArg`) |
| Kinozal.ReadHash | torrt/trackers/kinozal.py:61-66 | no item iff no list item contains the marker; otherwise the first item containing it decides: a mismatch when it does not start with the marker, else the rest of its line, lowercased |
| TestTracker.Segments | torrt/trackers/test.py:12 | a URL without its trailing slashes always has at least one segment |
| TestTracker.GetIdFromLink | torrt/trackers/test.py:10-20 | the last segment when it is all digits; otherwise the first all-digit segment; otherwise the last segment |
| TestTracker.SearchDigits | torrt/trackers/test.py:17-20 | the loop over the segments: the first all-digit segment when there is one, otherwise the last segment, which the loop variable still holds |
| BaseTracker.ClassOf | torrt/trackers/kinozal.py:13-17 | the class attributes: the private ones only for kinozal, which has a login URL |
| BaseTracker.AnyIn | torrt/base_tracker.py:91-93 | some listed domain occurs in the string |
| BaseTracker.CanHandle | torrt/base_tracker.py:84-94 | true iff the alias or some mirror is a substring of the string |
| BaseTracker.Position | torrt/base_tracker.py:312 | the index of the first occurrence |
| BaseTracker.RemoveFirst | torrt/base_tracker.py:312-313 | `list.remove`: the list without the first occurrence, or the list itself when the value is absent |
| BaseTracker.GetMirrors | torrt/base_tracker.py:309-314 | the URL's host first, then the alias and the mirrors in configured order with the first occurrence of that host removed |
| BaseTracker.RemoveFirstDistinct | torrt/base_tracker.py:312-313 | removing an element from a duplicate-free list keeps it duplicate-free, leaves the element out and adds nothing |
| BaseTracker.RemoveFirstKeeps | torrt/base_tracker.py:312-313 | `list.remove` never adds an element |
| BaseTracker.MirrorsDistinct | torrt/base_tracker.py:309-314 | when the alias and mirrors are distinct, no domain is tried twice |
| BaseTracker.KinozalMirrorOrder | torrt/trackers/kinozal.py:13-16 | for a URL on kinozal.me the order is kinozal.me, kinozal.tv, kinozal-tv.appspot.com |
| BaseTracker.IterMirrors | torrt/base_tracker.py:324-328 | exactly one URL per mirror, in order, each the input URL with that host |
| BaseTracker.MirrorUrls | torrt/base_tracker.py:324-328 | the first URL tried is the input itself and each URL tried differs from the input only in its host |
| BaseTracker.MirrorsPlain | torrt/base_tracker.py:309-314 | when the URL has a scheme separator and every configured domain is a plain host name, every domain tried is a plain host name |
| BaseTracker.WithQueryString | torrt/base_tracker.py:153-157 | the URL unchanged for an empty or missing query string; otherwise `?qs` appended, or `&qs` when the URL has a `?` |
| BaseTracker.GetResponse | torrt/base_tracker.py:123-171 | exactly one request is logged and nothing else in the state changes; the request carries the URL with the query string joined as `WithQueryString` says, the form, the redirect flag, referer and cookies; the result is the network's answer to it |
| BaseTracker.QueryStringsChain | torrt/base_tracker.py:153-157 | a second query string is always joined with `&` |
| BaseTracker.PublicIdFromLink | torrt/base_tracker.py:428-429 | the part after the last `/`: a suffix without `/`, preceded by `/`, or the whole URL when it has none |
| BaseTracker.GetQueryString | torrt/base_tracker.py:569-581 | with an auth parameter name, `name=value` with the stored query string (a missing one printed as `None`); otherwise the stored query string |
| BaseTracker.GetTorrentPage | torrt/base_tracker.py:277-300 | a fetch iff the cache is dropped, the URL differs from the cached one, or the cached page is empty; the fetch asks for the URL with the auth query string, itself as referer, and the cookies; afterwards the cache holds the URL and the page returned; no fetch leaves the state unchanged |
| BaseTracker.PageFetchedOnce | torrt/base_tracker.py:277-300 | two calls with the same URL whose first gets a page issue at most one fetch, and the second returns the same page |
| BaseTracker.ExtractPageTitle | torrt/base_tracker.py:248-254 | the text of the cached page's title, `''` when there is no page or no title |
| BaseTracker.ExtractPageData | torrt/base_tracker.py:240-246 | the page title as `BaseTracker.ExtractPageTitle` reads it, with empty cover and update date; all three empty without a page |
| BaseTracker.FirstHref | torrt/base_tracker.py:192-193 | the first `href` the pattern matches, in document order, or none |
| BaseTracker.ExpandLink | torrt/base_tracker.py:214-225 | a link starting with `http` is kept; any other is joined to the base URL |
| BaseTracker.FindLink | torrt/base_tracker.py:182-200 | none for an empty page or no matching `href`; otherwise the first matching `href`, expanded |
| BaseTracker.GenericLoginFormData | torrt/base_tracker.py:492-499 | exactly `username` and `password` |
| BaseTracker.LoginWith | torrt/base_tracker.py:504-559 | no login URL raises; a second login after success raises; no user name or no password returns False with the counter untouched; once a login was counted, the counter goes up and False is returned with no request; at most one request, the login form, which follows redirects iff an auth query parameter is set; no response, a falsy one or a failed success check returns False with only the counter and the request log changed; True iff a truthy response carries the auth cookie or the auth parameter, and then the handler keeps its cookies and the query string's session id; the return value is `logged_in`; a redirect query without the auth parameter raises after `logged_in` was set; nothing else raises |
| BaseTracker.Login | torrt/base_tracker.py:504-559 | `login` of the handler's own class; its behaviour is `BaseTracker.LoginWith` with the class's attributes, and `BaseTracker.LoginAtMostOnce` bounds it |
| BaseTracker.LoginAtMostOnce | torrt/base_tracker.py:517-521 | a handler sends at most one login request in its lifetime, since the counter is never reset |
| BaseTracker.TestConfiguration | torrt/base_tracker.py:501-502 | a public handler returns True without a request; a private one logs in at its alias |
| BaseTracker.DownloadTorrent | torrt/base_tracker.py:583-595 | exactly one GET request, following redirects, with the referer given; a private handler sends its cookies and the URL with the auth query string, a public one the URL as given and no cookies; the content of any response, none without one; nothing else changes |
| BaseTracker.KinozalDownloadLink | torrt/trackers/kinozal.py:27-44 | the mirror-attempt log is untouched |
| BaseTracker.KinozalSignedIn | torrt/trackers/kinozal.py:30-44 | a page without a signup link: no login, the page is read through the cache, a URL without `=` raises, and the result is the first `/download.+={id}` link or `''` |
| BaseTracker.KinozalAnonymous | torrt/trackers/kinozal.py:32-44 | a login at the URL's host, whose error is raised; after a login that did not raise, the page is fetched again with the cache dropped and becomes the cached page, the cookies, login state, query string and counter the login left survive, `NoLinkId` is raised iff the URL has no `=`, and otherwise the link is the first download link on the refetched page, or `''` |
| BaseTracker.TestDownloadLink | torrt/trackers/test.py:22-29 | the page is read through the cache and the result is the first `.torrent` link or `''` |
| BaseTracker.GetDownloadLink | torrt/trackers/kinozal.py:27-44 | the mirror-attempt log is untouched |
| BaseTracker.KinozalMagnet | torrt/trackers/kinozal.py:52-66 | always one fetch of the details page, which replaces the cached URL and page; an empty page raises; a fetched page is read by `Kinozal.ReadHash`: no item gives none, a mismatch raises, a hash found gives that magnet, lowercased |
| BaseTracker.PublicMagnet | torrt/base_tracker.py:437-446 | the page is fetched with the cache dropped; an empty page raises; no magnet `href` gives none; otherwise the first matching `href` gives the magnet of its first line when it starts with `magnet:?xt=urn:btih:`, and raises when it does not |
| BaseTracker.KinozalMagnetSpec | torrt/trackers/kinozal.py:57-66 | on a fetched page: none iff no list item mentions the info hash; a magnet is the lowercased rest of the first such item's line, which starts with the marker; a mismatch is raised iff that first item does not start with it |
| BaseTracker.PublicMagnetSpec | torrt/base_tracker.py:439-446 | on a fetched page: none iff no `href` mentions a magnet; a magnet is the first line of the first such `href`, which starts with the magnet prefix; a mismatch is raised iff that first `href` does not start with it |
| BaseTracker.PrefixWithoutNewline | torrt/base_tracker.py:441-446 | a string starting with a newline-free prefix keeps that prefix in what `(.*)` captures |
| BaseTracker.GetTorrentMagnet | torrt/base_tracker.py:437-446 | the mirror-attempt log is untouched |
| BaseTracker.TorrentStep | torrt/base_tracker.py:338-366 | one mirror of `get_torrent`: no link or an empty one fails at once; with a link, exactly one download, and success iff bytes arrive and parse; a result carries the original URL, the link as `url_file`, no explicit hash or name, exactly the downloaded bytes as `raw`, their parse, and the page data of the page the link was read from |
| BaseTracker.TorrentStepDownloaded | torrt/base_tracker.py:338-366 | a successful step's record is what its mirror gives: its link, the bytes downloaded from it, and their parse |
| BaseTracker.MagnetStep | torrt/base_tracker.py:375-385 | one mirror of `get_magnet`: success iff `get_torrent_magnet` returns a magnet, which is then the result |
| BaseTracker.UrlStep | torrt/base_tracker.py:391-401 | one mirror of `get_download_url`: success iff the download link is non-empty, which is then the result |
| BaseTracker.FirstSuccessSpec | torrt/base_tracker.py:330-403 | the fallback loop: none iff every mirror fails, and then every mirror was tried; otherwise the result of the first mirror that succeeds, with the mirrors before it failed and no mirror after it tried |
| BaseTracker.FirstSuccessNone | torrt/base_tracker.py:337-369 | none iff every step fails, after running them all |
| BaseTracker.FirstSuccessSome | torrt/base_tracker.py:337-366 | a result is that of the first step that succeeds |
| BaseTracker.AfterAttempts | torrt/base_tracker.py:337 | running all the steps tries every mirror in order |
| BaseTracker.StepsKeepAttempts | torrt/base_tracker.py:338-366 | no per-mirror step tries another mirror |
| BaseTracker.FirstSuccess | torrt/base_tracker.py:330-403 | the fallback loop over the mirrors, as a recursion; `BaseTracker.FirstSuccessSpec` states its behaviour |
| BaseTracker.GetTorrent | torrt/base_tracker.py:330-369 | `get_torrent` over `iter_mirrors`; `BaseTracker.GetTorrentSpec` states its behaviour |
| BaseTracker.GetMagnet | torrt/base_tracker.py:371-387 | `get_magnet` over `iter_mirrors`; `BaseTracker.GetMagnetSpec` states its behaviour |
| BaseTracker.GetDownloadUrl | torrt/base_tracker.py:389-403 | `get_download_url` over `iter_mirrors`; `BaseTracker.GetDownloadUrlSpec` states its behaviour |
| BaseTracker.GetTorrentSpec | torrt/base_tracker.py:330-369 | `get_torrent` gives none iff every mirror fails, after trying all of them; otherwise the mirrors before the successful one failed, none after it was tried, and the record is downloaded from it: the original URL, its non-empty link, exactly the bytes downloaded and their parse |
| BaseTracker.GetMagnetSpec | torrt/base_tracker.py:371-387 | `get_magnet`: none iff every mirror fails, after trying them all; otherwise the magnet of the first mirror that gives one, with no later mirror tried |
| BaseTracker.GetDownloadUrlSpec | torrt/base_tracker.py:389-403 | `get_download_url`: none iff every mirror fails, after trying them all; otherwise the non-empty link of the first mirror that gives one, with no later mirror tried |
| Handlers.Tracker.constructor | torrt/base_tracker.py:470-482 | cookies default to `{}`, an empty page cache, not logged in, counter 0 |
| Handlers.Tracker.GetResponse | torrt/base_tracker.py:123-171 | the fields are updated as the model of `get_response` says |
| Handlers.Tracker.GetTorrentPage | torrt/base_tracker.py:277-300 | the cache fields are updated, and the page returned, as `BaseTracker.GetTorrentPage` says |
| Handlers.Tracker.LoginWith | torrt/base_tracker.py:504-559 | the login fields are updated, and the result returned, as `BaseTracker.LoginWith` says |
| Handlers.Tracker.Login | torrt/base_tracker.py:504-559 | `login` with the handler's own class attributes, as `BaseTracker.LoginWith` says |
| Handlers.Tracker.TestConfiguration | torrt/base_tracker.py:501-502 | as `BaseTracker.TestConfiguration` says |
| Handlers.Tracker.DownloadTorrent | torrt/base_tracker.py:583-595 | as `BaseTracker.DownloadTorrent` says |
| Handlers.Tracker.KinozalDownloadLink | torrt/trackers/kinozal.py:27-44 | the cache and login fields go through the steps `BaseTracker.KinozalDownloadLink` gives |
| Handlers.Tracker.TestDownloadLink | torrt/trackers/test.py:22-29 | as `BaseTracker.TestDownloadLink` says |
| Handlers.Tracker.GetDownloadLink | torrt/trackers/kinozal.py:27-44 | the site's own `get_download_link` |
| Handlers.Tracker.KinozalMagnet | torrt/trackers/kinozal.py:52-66 | as `BaseTracker.KinozalMagnet` says |
| Handlers.Tracker.PublicMagnet | torrt/base_tracker.py:437-446 | as `BaseTracker.PublicMagnet` says |
| Handlers.Tracker.GetTorrentMagnet | torrt/base_tracker.py:437-446 | the site's own `get_torrent_magnet` |
| Handlers.Tracker.TryTorrent | torrt/base_tracker.py:338-366 | one turn of the `get_torrent` loop, as `BaseTracker.TorrentStep` says |
| Handlers.Tracker.TryMagnet | torrt/base_tracker.py:375-385 | one turn of the `get_magnet` loop, as `BaseTracker.MagnetStep` says |
| Handlers.Tracker.TryUrl | torrt/base_tracker.py:391-401 | one turn of the `get_download_url` loop, as `BaseTracker.UrlStep` says |
| Handlers.Tracker.GetTorrent | torrt/base_tracker.py:330-369 | trying the URLs of `BaseTracker.IterMirrors` ends in the state and result of `BaseTracker.GetTorrent`, whose properties `BaseTracker.GetTorrentSpec` states |
| Handlers.Tracker.TorrentFromMirrors | torrt/base_tracker.py:337-367 | each mirror URL is logged and tried in turn until one gives a parsed torrent; the state and result are those of `BaseTracker.FirstSuccess` with the torrent step |
| Handlers.Tracker.GetMagnet | torrt/base_tracker.py:371-387 | trying the URLs of `BaseTracker.IterMirrors` ends in the state and result of `BaseTracker.GetMagnet` (see `BaseTracker.GetMagnetSpec`) |
| Handlers.Tracker.MagnetFromMirrors | torrt/base_tracker.py:373-385 | each mirror URL is logged and tried in turn until one gives a magnet; the state and result are those of `BaseTracker.FirstSuccess` with the magnet step |
| Handlers.Tracker.GetDownloadUrl | torrt/base_tracker.py:389-403 | trying the URLs of `BaseTracker.IterMirrors` ends in the state and result of `BaseTracker.GetDownloadUrl` (see `BaseTracker.GetDownloadUrlSpec`) |
| Handlers.Tracker.UrlFromMirrors | torrt/base_tracker.py:390-401 | each mirror URL is logged and tried in turn until one gives a non-empty download link; the state and result are those of `BaseTracker.FirstSuccess` with the link step |
| Lookup.GetTorrentFromUrl | torrt/utils.py:451-474 | no torrent, and no handler touched, when no registered handler takes the URL; otherwise the first one that does downloads it as its `get_torrent` says, and no other handler changes |
| Toolbox.SettingsEntry | torrt/toolbox.py:35 | `cfg['trackers'].get(alias)`: none iff the alias is absent or its value is null |
| Toolbox.TrackerRule | torrt/toolbox.py:33-45 | a private class without settings is skipped; a public class without settings is spawned with `{}`; a class with a mapping is spawned with it; a truthy scalar cannot be spread into keyword arguments and raises |
| Toolbox.StrArg | torrt/utils.py:496-505 | a keyword argument as the handler's constructor sees it: present iff it is a string setting |
| Toolbox.CookiesArg | torrt/utils.py:496-505 | the `cookies` argument: present iff it is a mapping, holding its string entries |
| Toolbox.Section | torrt/toolbox.py:28-35 | a section is read iff it is a mapping; a missing one raises a missing-key error, one of another type a type error |
| Toolbox.FreshConfigHasNoRpc | torrt/toolbox.py:20-28 | a fresh configuration has no `rpc` section, so initialising the registries from it raises |
| Toolbox.ImportClasses | torrt/base_tracker.py:64-66 | importing the handler modules registers kinozal.tv, then test.st7105.ru, each under its alias |
| Toolbox.SpawnWithSettings | torrt/utils.py:496-505 | a new handler of the class, built from the settings' user name, password, cookies and query string |
| Toolbox.RegisterRpc | torrt/toolbox.py:26-30 | an RPC entry is registered iff its alias is a known RPC class, with its settings; settings of a known class that are not a mapping raise; other entries keep their objects, and after a raise every entry is an old one or a well-formed registered one |
| Toolbox.RegisterClass | torrt/toolbox.py:33-45 | one class: skipped, refused, or a new handler registered under its alias with no other entry changed |
| Toolbox.RegisterTrackers | torrt/toolbox.py:33-45 | succeeds iff no class is refused; then exactly the classes the rule spawns gain new handlers under their aliases and every other entry is untouched |
| Toolbox.InitObjectRegistries | torrt/toolbox.py:15-45 | a bad `rpc` section raises and changes nothing; a bad RPC entry raises before any handler is registered; otherwise the RPC registry gains the known RPC entries; a bad `trackers` section raises, with the RPC objects registered, only when some class is registered; otherwise the tracker registry gains a new handler for exactly the classes the rule spawns, iff no class is refused |
| Toolbox.Bootstrap | torrt/toolbox.py:48-56 | classes are imported before the registries are filled, so a successful bootstrap always registers the public test.st7105.ru handler |

## Left out

- The HTTP client (`HttpClient`): sessions, retries, proxies, timeouts and the
  files it dumps. The network is the oracle `Env.net`, a function from a
  request to an optional response; it is deterministic, so the model does not
  capture a server that answers the same request differently.
- `parse_torrent`, BeautifulSoup and `urljoin` are oracles or abstractions:
  `Env.parse` from bytes to the parsed hash and name, `Env.join` for relative
  links, and a parsed page reduced to its title, its `href` attributes in
  document order and its single-string list items.
- URL parsing: `furl` percent-decoding and `parse_qs` are not modelled;
  `Response.query` holds the first value of each query parameter of the final
  URL, and `Web.QueryArg` takes the `id` argument without decoding.
- Regular expressions are written out as predicates for the few patterns the
  handlers use. A thread id holding regular-expression metacharacters is
  matched literally.
- Character encoding: `encode_value`, `get_encode_form_data` and kinozal's
  cp1251 are not modelled; forms hold strings. `isdigit` and `lower` are
  modelled on ASCII only.
- `torf.Magnet` is represented by what it is built from (`InfoHash`,
  `MagnetLink`); its own validation of the hash or URI, and its truth value,
  are not modelled: every magnet built counts as found.
- `Handlers.Tracker.GetResponse`: `get_response`'s `as_soup` is folded into
  `BaseTracker.AsSoup` at its callers; a falsy (unsuccessful) response and no
  response give the same empty page.
- `BaseTracker.ExtractPageTitle`: `extract_page_cover` and
  `extract_page_date_updated` return `''` and `None` in the source, so page
  data holds `''` for both; `parse_datetime` (locale switching) is not
  modelled.
- `BaseTracker.LoginWith`: `save_settings` after a successful login writes the
  configuration file and is not modelled; a class whose `auth_cookie_name` is
  `None` is taken never to find that cookie.
- `BaseTracker.KinozalDownloadLink`: its contract states only that the
  mirror-attempt log is untouched; its behaviour is stated by the lemmas
  `BaseTracker.KinozalSignedIn` and `BaseTracker.KinozalAnonymous`.
- `BaseTracker.GetDownloadLink` and `BaseTracker.GetTorrentMagnet`: their
  contracts state only that the attempt log is untouched; they dispatch on the
  site to the functions whose contracts state the behaviour.
- Logging throughout, and the per-mirror warnings, which the model keeps only
  as the log of mirrors tried (`State.attempts`).
- `update_dict` works in place and returns the old mapping; the model returns
  the merged value, so aliasing and the partly updated mapping left behind by
  an error are not captured. `TorrentData`, mutated in place by
  `structure_torrent_data`, is a value returned anew.
- `Utils.StructureTorrentData`: `structure_torrent_data` also updates
  `target_dict` in place; the model returns the updated mapping anew, so the
  caller's mapping being shared is not captured.
- `TorrtConfig` file access (`bootstrap`, `load`, `save`, `drop_section`,
  `update`, `chmod`): only the default-key merge of `load` is modelled
  (`Utils.AddDefaults`). `dump_contents` and `GlobalParam` are I/O and
  thread-local state.
- The RPC classes are not part of this model: an RPC object is its alias and
  settings, and the known RPC aliases are a parameter.
- `Toolbox.RegisterRpc`: the order of the `rpc` section's entries is not
  modelled, so when an entry with settings that are not a mapping raises, the
  model says only that the entries registered before it are well-formed known
  entries, not which ones.
- `import_classes` and `import_from_path` work by reflection; the model
  registers the two handler classes in import order. `spawn_with_settings`
  passes `**settings` to the constructor: the model keeps the four arguments
  the handlers accept when they are strings (cookies: a mapping of strings) and
  does not model the `TypeError` of an unknown or ill-typed keyword.
- `Toolbox.TrackerRule`: a settings entry that is a falsy scalar (`False`,
  `0`, `''`) is treated as `{}`, as `settings or {}` does.
- `get_torrent_from_url(None)`: the model takes a string URL.
- The reconciliation of the BitTorrent client's torrents and its interval gate
  are not part of this model.
