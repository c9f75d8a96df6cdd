/** The pure parts of the kinozal.tv handler: its class attributes, its login
    form, its thread identifiers, the download links it looks for, the page
    that holds a torrent's info hash and how the hash is read off it. The page
    and login flows that drive these live with the handler state machine. */
module Kinozal {
  import opened Common
  import opened Web

  const Alias: string := "kinozal.tv"
  const Mirrors: seq<string> := ["kinozal-tv.appspot.com", "kinozal.me"]
  const LoginUrl: UrlTemplate := UrlTemplate("https", "/takelogin.php")
  const AuthCookieName: string := "uid"

  /** `get_login_form_data`: the fields posted to the login form. */
  function LoginFormData(login: string, password: string): (f: Form)
    ensures f.Keys == {"username", "password", "returnto"}
    ensures f["username"] == login && f["password"] == password && f["returnto"] == ""
  {
    map["username" := login, "password" := password, "returnto" := ""]
  }

  /** `get_id_from_link`: `url.split('=')[1]`, which raises when there is no '='. */
  function IdFromLink(url: string): (r: Option<string>)
    ensures r.None? <==> '=' !in url
    ensures r.Some? ==> var t := url[IndexOf(url, '=') + 1..];
      r.value == if '=' in t then t[..IndexOf(t, '=')] else t
  {
    if '=' !in url then None
    else
      var parts := Split(url, '=');
      SecondPart(url, '=');
      Some(parts[1])
  }

  /** No newline among `s[a..b]`: what `.` in a regular expression may span. */
  predicate NoNewlineIn(s: string, a: int, b: int) {
    0 <= a && b <= |s| && forall k | a <= k < b :: s[k] != '\n'
  }

  /** A download link of thread `id`: the regular expression `/download.+={id}`
      finds a match in `href`, that is "/download", at least one character other
      than a newline, then "=" and the identifier. */
  predicate DownloadHref(href: string, id: string) {
    exists i, j | 0 <= i && i + 10 <= j <= |href| ::
      OccursAt(href, "/download", i) && NoNewlineIn(href, i + 9, j) && OccursAt(href, "=" + id, j)
  }

  /** The page that lists a torrent's details, on the given host. */
  function MagnetInfoUrl(domain: string, id: Option<string>): (u: string)
    ensures u == Show(Url("https", domain, "/get_srv_details.php?id=" + PyStr(id) + "&action=2"))
  {
    "https://" + domain + "/get_srv_details.php?id=" + PyStr(id) + "&action=2"
  }

  /** The text that precedes the info hash on the details page. */
  const HashMarker: string := "Инфо хеш: "

  /** What reading the info hash off the details page gives. */
  datatype HashSearch =
    | NoItem              // no `<li>` mentions the hash: no magnet
    | Mismatch            // the first one that does, does not start with it: the match fails
    | Found(hash: string)

  /** `items[k]` is the first item that mentions the marker. */
  predicate FirstMarkedAt(items: seq<string>, k: int) {
    0 <= k < |items| && Contains(items[k], HashMarker)
    && forall j :: 0 <= j < k ==> !Contains(items[j], HashMarker)
  }

  /** The first `<li>` text that contains the marker decides: the hash is what
      follows the marker up to the end of the line, lower-cased. */
  function ReadHash(items: seq<string>): (r: HashSearch)
    ensures r.NoItem? <==> forall k :: 0 <= k < |items| ==> !Contains(items[k], HashMarker)
    ensures r.Found? ==> NoUpper(r.hash) && '\n' !in r.hash
    ensures r.Found? ==> exists k :: (FirstMarkedAt(items, k) && StartsWith(items[k], HashMarker)
      && r.hash == Lower(UpToNewline(items[k][|HashMarker|..])))
    ensures r.Mismatch? ==> exists k :: FirstMarkedAt(items, k) && !StartsWith(items[k], HashMarker)
  {
    if items == [] then NoItem
    else if Contains(items[0], HashMarker) then
      if StartsWith(items[0], HashMarker) then
        var h := Lower(UpToNewline(items[0][|HashMarker|..]));
        LowerHasNoUpper(UpToNewline(items[0][|HashMarker|..]));
        Found(h)
      else Mismatch
    else
      var r := ReadHash(items[1..]);
      FirstMarkedShift(items);
      r
  }

  /** Past an item without the marker, the first marked item of the tail is the
      first marked item of the whole list. */
  lemma FirstMarkedShift(items: seq<string>)
    requires items != [] && !Contains(items[0], HashMarker)
    ensures forall k :: 1 <= k < |items| ==> items[k] == items[1..][k - 1]
    ensures forall k :: FirstMarkedAt(items[1..], k) ==> FirstMarkedAt(items, k + 1)
  {
    forall k | FirstMarkedAt(items[1..], k) ensures FirstMarkedAt(items, k + 1) {
      assert items[k + 1] == items[1..][k];
      forall j | 0 <= j < k + 1 ensures !Contains(items[j], HashMarker) {
        if j > 0 { assert items[j] == items[1..][j - 1]; }
      }
    }
  }
}
