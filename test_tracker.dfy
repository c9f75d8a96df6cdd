/** The pure parts of the test.st7105.ru handler, a public tracker: its alias,
    its thread identifiers and the download links it looks for. */
module TestTracker {
  import opened Common

  const Alias: string := "test.st7105.ru"

  /** The '/'-separated segments of a URL once its trailing slashes are gone. */
  function Segments(url: string): (parts: seq<string>)
    ensures |parts| >= 1
  {
    Split(RStrip(url, '/'), '/')
  }

  /** `parts[k]` is the first all-digit segment. */
  predicate FirstDigitsAt(parts: seq<string>, k: int) {
    0 <= k < |parts| && IsDigits(parts[k]) && forall j :: 0 <= j < k ==> !IsDigits(parts[j])
  }

  /** `get_id_from_link`: the last segment when it is all digits (the usual
      thread URL); otherwise the first all-digit segment (an SEO name follows
      the id); otherwise the last segment, where the search loop ends. */
  method GetIdFromLink(url: string) returns (r: string)
    ensures var parts := Segments(url); var last := parts[|parts| - 1];
      IsDigits(last) ==> r == last
    ensures var parts := Segments(url); var last := parts[|parts| - 1];
      !IsDigits(last) && (exists k :: 0 <= k < |parts| && IsDigits(parts[k])) ==>
        exists k :: FirstDigitsAt(parts, k) && r == parts[k]
    ensures var parts := Segments(url);
      (forall k :: 0 <= k < |parts| ==> !IsDigits(parts[k])) ==> r == parts[|parts| - 1]
  {
    var splitted := Segments(url);
    r := splitted[|splitted| - 1];
    if IsDigits(r) {
      assert IsDigits(splitted[|splitted| - 1]);
    } else {
      r := SearchDigits(splitted);
    }
  }

  /** The search loop of `get_id_from_link` over the segments: it stops at the
      first all-digit segment, and otherwise ends on the last one. */
  method SearchDigits(splitted: seq<string>) returns (r: string)
    requires |splitted| >= 1
    ensures (exists k :: 0 <= k < |splitted| && IsDigits(splitted[k])) ==>
      exists k :: FirstDigitsAt(splitted, k) && r == splitted[k]
    ensures (forall k :: 0 <= k < |splitted| ==> !IsDigits(splitted[k])) ==> r == splitted[|splitted| - 1]
  {
    r := splitted[|splitted| - 1];
    var i := 0;
    while i < |splitted|
      invariant 0 <= i <= |splitted|
      invariant forall j :: 0 <= j < i ==> !IsDigits(splitted[j])
      invariant r == splitted[if i == 0 then |splitted| - 1 else i - 1]
    {
      r := splitted[i];
      if IsDigits(r) {
        assert FirstDigitsAt(splitted, i);
        return;
      }
      i := i + 1;
    }
  }

  /** A download link the handler looks for: the regular expression `\.torrent`
      finds a match in it. */
  predicate TorrentHref(href: string) {
    Contains(href, ".torrent")
  }
}
