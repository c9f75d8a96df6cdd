/** `get_torrent_from_url`: routing a URL to the registered tracker handler that
    can handle it. */
module Lookup {
  import opened Common
  import opened Utils
  import B = BaseTracker
  import opened Handlers

  /** The handlers' `can_handle`, which only depends on their class. */
  function TrackerCanHandle(): (Tracker, string) -> bool {
    (t: Tracker, s: string) => B.CanHandle(B.ClassOf(t.handler.site), s)
  }

  /** `get_torrent_from_url`: the first registered handler, in registration
      order, that can handle `url` downloads the torrent; without one there is
      no torrent and no request is sent. */
  method GetTorrentFromUrl(registry: ObjectsRegistry<Tracker>, url: string) returns (r: Option<TorrentData>)
    requires registry.Valid()
    modifies registry.items.Values
    ensures var t := registry.ForString(url, Some(TrackerCanHandle()));
      (t.None? ==> r.None?)
      && (t.Some? ==> B.Out(t.value.Model(), r) == B.GetTorrent(t.value.handler, old(t.value.Model()), url))
    ensures forall o :: o in registry.items.Values && Some(o) != registry.ForString(url, Some(TrackerCanHandle())) ==> unchanged(o)
  {
    var tracker := registry.GetForString(url, Some(TrackerCanHandle()));
    if tracker.None? {
      return None;
    }
    assert tracker.value in registry.items.Values;
    r := tracker.value.GetTorrent(url);
  }
}
