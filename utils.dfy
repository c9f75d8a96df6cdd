/** The data and registry utilities the tracker layer rests on: extracting a link
    from a torrent comment, the deep merge used for configuration, the torrent and
    page records, the alias-keyed object registry and the configuration defaults. */
module Utils {
  import opened Common

  // ---------------------------------------------------------------------------
  // get_url_from_string: the leftmost match of `https?://[^\s]+`
  // ---------------------------------------------------------------------------

  /** The link pattern matches at index `i`: "https://" or "http://" followed by at
      least one non-whitespace character. */
  predicate LinkAt(s: string, i: int) {
    (OccursAt(s, "https://", i) && i + 8 < |s| && !IsSpace(s[i + 8]))
    || (OccursAt(s, "http://", i) && i + 7 < |s| && !IsSpace(s[i + 7]))
  }

  /** The end of the run of non-whitespace characters that starts at `i`. */
  function RunEnd(s: string, i: nat): (e: nat)
    requires i <= |s|
    ensures i <= e <= |s|
    ensures forall j :: i <= j < e ==> !IsSpace(s[j])
    ensures e == |s| || IsSpace(s[e])
    decreases |s| - i
  {
    if i == |s| || IsSpace(s[i]) then i else RunEnd(s, i + 1)
  }

  /** The leftmost index at or after `i` where the link pattern matches. */
  function FirstLink(s: string, i: nat): (r: Option<nat>)
    requires i <= |s|
    ensures r.Some? ==> i <= r.value < |s| && LinkAt(s, r.value)
    ensures r.Some? ==> forall j :: i <= j < r.value ==> !LinkAt(s, j)
    ensures r.None? ==> forall j :: i <= j < |s| ==> !LinkAt(s, j)
    decreases |s| - i
  {
    if i == |s| then None
    else if LinkAt(s, i) then Some(i)
    else FirstLink(s, i + 1)
  }

  /** A link match takes in the whole prefix and the character after it, none of
      them whitespace. */
  lemma LinkRun(s: string, i: nat)
    requires i <= |s| && LinkAt(s, i)
    ensures i + 8 <= RunEnd(s, i)
  {
  }

  /** `get_url_from_string`: the leftmost "http://" or "https://" link in `s`,
      up to the next whitespace, or "" when there is none. */
  function GetUrlFromString(s: string): (r: string)
    ensures r == "" <==> forall j :: 0 <= j < |s| ==> !LinkAt(s, j)
    ensures r != "" ==> exists i :: (0 <= i < |s| && LinkAt(s, i)
      && (forall j :: 0 <= j < i ==> !LinkAt(s, j))
      && r == s[i..RunEnd(s, i)])
    ensures forall k :: 0 <= k < |r| ==> !IsSpace(r[k])
  {
    match FirstLink(s, 0)
    case None => ""
    case Some(i) =>
      LinkRun(s, i);
      s[i..RunEnd(s, i)]
  }

  /** A link that follows text without a ':' (after a whitespace, or at the start)
      and is followed by whitespace or the end is exactly what is extracted. */
  lemma {:induction false} UrlInComment(pre: string, url: string, post: string)
    requires ':' !in pre
    requires pre == [] || IsSpace(pre[|pre| - 1])
    requires LinkAt(url, 0)
    requires forall k :: 0 <= k < |url| ==> !IsSpace(url[k])
    requires post == [] || IsSpace(post[0])
    ensures GetUrlFromString(pre + url + post) == url
  {
    var s := pre + url + post;
    var n := |pre|;
    LinkInMiddle(pre, url, post);
    NoLinkBefore(pre, url, post);
    RunInMiddle(pre, url, post);
    var r := GetUrlFromString(s);
    var i :| 0 <= i < |s| && LinkAt(s, i) && (forall j :: 0 <= j < i ==> !LinkAt(s, j)) && r == s[i..RunEnd(s, i)];
    assert i == n;
    assert s[n..n + |url|] == url;
  }

  /** The link the middle part starts with is a match in the whole string. */
  lemma LinkInMiddle(pre: string, url: string, post: string)
    requires LinkAt(url, 0)
    ensures LinkAt(pre + url + post, |pre|)
  {
    var s := pre + url + post;
    var n := |pre|;
    if OccursAt(url, "https://", 0) && 8 < |url| && !IsSpace(url[8]) {
      assert s[n..n + 8] == url[..8];
      assert s[n + 8] == url[8];
    } else {
      assert s[n..n + 7] == url[..7];
      assert s[n + 7] == url[7];
    }
  }

  /** No match starts in a colon-free prefix that ends in whitespace. */
  lemma NoLinkBefore(pre: string, url: string, post: string)
    requires ':' !in pre
    requires pre == [] || IsSpace(pre[|pre| - 1])
    ensures forall j :: 0 <= j < |pre| ==> !LinkAt(pre + url + post, j)
  {
    assert pre + (url + post) == pre + url + post;
    forall j | 0 <= j < |pre| ensures !LinkAt(pre + (url + post), j) {
      NoLinkInPrefix(pre, url + post, j);
    }
  }

  /** A whitespace-free middle part followed by whitespace or the end is a whole run. */
  lemma RunInMiddle(pre: string, url: string, post: string)
    requires forall k :: 0 <= k < |url| ==> !IsSpace(url[k])
    requires post == [] || IsSpace(post[0])
    ensures RunEnd(pre + url + post, |pre|) == |pre| + |url|
  {
    var s := pre + url + post;
    var n := |pre|;
    var e := n + |url|;
    forall j | n <= j < e ensures !IsSpace(s[j]) { assert s[j] == url[j - n]; }
    assert e == |s| || s[e] == post[0];
    RunEndAt(s, n, e);
  }

  /** No match of the link pattern starts inside a colon-free prefix that ends in
      whitespace: the match would need its scheme separator inside the prefix, or
      would run over that whitespace. */
  lemma NoLinkInPrefix(pre: string, rest: string, j: nat)
    requires ':' !in pre
    requires pre == [] || IsSpace(pre[|pre| - 1])
    requires j < |pre|
    ensures !LinkAt(pre + rest, j)
  {
    var s := pre + rest;
    var n := |pre|;
    if OccursAt(s, "https://", j) {
      CharAt(s, "https://", j, if j + 5 < n then j + 5 else n - 1);
    }
    if OccursAt(s, "http://", j) {
      CharAt(s, "http://", j, if j + 4 < n then j + 4 else n - 1);
    }
  }

  lemma CharAt(s: string, w: string, j: int, k: int)
    requires OccursAt(s, w, j) && j <= k < j + |w|
    ensures s[k] == w[k - j]
  {
    assert s[j..j + |w|][k - j] == s[k];
  }

  /** `RunEnd` is the end of the first whitespace-free run. */
  lemma {:induction false} RunEndAt(s: string, i: nat, e: nat)
    requires i <= e <= |s|
    requires forall j :: i <= j < e ==> !IsSpace(s[j])
    requires e == |s| || IsSpace(s[e])
    ensures RunEnd(s, i) == e
    decreases e - i
  {
    if i < e {
      RunEndAt(s, i + 1, e);
    }
  }

  // ---------------------------------------------------------------------------
  // update_dict: the deep merge of configuration values
  // ---------------------------------------------------------------------------

  /** A JSON scalar of the configuration file. */
  datatype Atom = Null | Bool(b: bool) | Num(n: int) | Str(s: string)

  /** A configuration value: a scalar leaf or a mapping from names to values. */
  datatype Value = Leaf(atom: Atom) | Map(entries: map<string, Value>)

  /** Python truthiness of a configuration value. */
  predicate Truthy(v: Value) {
    match v
    case Map(m) => m != map[]
    case Leaf(Null) => false
    case Leaf(Bool(b)) => b
    case Leaf(Num(n)) => n != 0
    case Leaf(Str(s)) => s != ""
  }

  /** `d.get(key, {})` */
  function Get(m: map<string, Value>, key: string): Value {
    if key in m then m[key] else Map(map[])
  }

  /** Merging into a scalar fails as soon as there is anything to merge: reading
      or assigning an item of a non-mapping raises. */
  datatype MergeError = NotAMapping

  /** Merging `patch` into `base` raises no error. */
  predicate Mergeable(base: Value, patch: map<string, Value>)
    decreases Map(patch)
  {
    if base.Leaf? then patch == map[]
    else forall k | k in patch && patch[k].Map? :: Mergeable(Get(base.entries, k), patch[k].entries)
  }

  /** The value `update_dict(old_dict, new_dict)` leaves in `base` when it raises no error. */
  function Merged(base: Value, patch: map<string, Value>): Value
    requires Mergeable(base, patch)
    decreases Map(patch)
  {
    if base.Leaf? then base
    else
      Map(map k | k in base.entries.Keys + patch.Keys ::
        if k !in patch then base.entries[k]
        else if patch[k].Map? then Merged(Get(base.entries, k), patch[k].entries)
        else patch[k])
  }

  function Merge(base: Value, patch: map<string, Value>): Result<Value, MergeError> {
    if Mergeable(base, patch) then Ok(Merged(base, patch)) else Err(NotAMapping)
  }

  /** The entries of `patch` whose keys are in `ks`. */
  function Restrict(patch: map<string, Value>, ks: set<string>): (r: map<string, Value>)
    ensures r.Keys == patch.Keys * ks
    ensures forall k :: k in r ==> r[k] == patch[k]
  {
    map k | k in patch.Keys * ks :: patch[k]
  }

  /** `update_dict(old_dict, new_dict)`: the keys of `patch` are visited one at a time;
      a mapping value is merged recursively into `base.get(key, {})`, any other value
      overwrites. The result is the merge, or the error the first step into a
      non-mapping raises. */
  method UpdateDict(base: Value, patch: map<string, Value>) returns (r: Result<Value, MergeError>)
    ensures r == Merge(base, patch)
    decreases Map(patch)
  {
    var cur := base;
    var todo := patch.Keys;
    while todo != {}
      invariant todo <= patch.Keys
      invariant base.Leaf? ==> todo == patch.Keys
      invariant Mergeable(base, Restrict(patch, patch.Keys - todo))
      invariant cur == Merged(base, Restrict(patch, patch.Keys - todo))
      decreases todo
    {
      var k :| k in todo;
      if base.Leaf? {
        LeafNotMergeable(base, patch);
        return Err(NotAMapping);
      }
      var v: Value;
      if patch[k].Map? {
        assert patch[k] == Map(patch[k].entries);
        var sub := UpdateDict(Get(cur.entries, k), patch[k].entries);
        assert Get(cur.entries, k) == Get(base.entries, k);
        if sub.Err? {
          SubNotMergeable(base, patch, k);
          return Err(NotAMapping);
        }
        v := sub.value;
      } else {
        v := patch[k];
      }
      ghost var done := patch.Keys - todo;
      assert v == if patch[k].Map? then Merged(Get(base.entries, k), patch[k].entries) else patch[k];
      MergeStep(base, patch, done, k);
      cur := Map(cur.entries[k := v]);
      todo := todo - {k};
      assert patch.Keys - todo == done + {k};
      assert cur == Merged(base, Restrict(patch, done + {k}));
    }
    assert patch.Keys - todo == patch.Keys;
    RestrictAll(patch);
    return Ok(cur);
  }

  lemma LeafNotMergeable(base: Value, patch: map<string, Value>)
    requires base.Leaf? && patch != map[]
    ensures !Mergeable(base, patch)
  {
  }

  lemma SubNotMergeable(base: Value, patch: map<string, Value>, k: string)
    requires base.Map? && k in patch && patch[k].Map?
    requires !Mergeable(Get(base.entries, k), patch[k].entries)
    ensures !Mergeable(base, patch)
  {
  }

  lemma RestrictAll(patch: map<string, Value>)
    ensures Restrict(patch, patch.Keys) == patch
  {
  }

  /** One more key merged: the partial merge grows by that key's merged value. */
  lemma MergeStep(base: Value, patch: map<string, Value>, done: set<string>, k: string)
    requires base.Map? && done <= patch.Keys && k in patch && k !in done
    requires Mergeable(base, Restrict(patch, done))
    requires patch[k].Map? ==> Mergeable(Get(base.entries, k), patch[k].entries)
    ensures Mergeable(base, Restrict(patch, done + {k}))
    ensures Merged(base, Restrict(patch, done + {k}))
         == Map(Merged(base, Restrict(patch, done)).entries[k :=
              if patch[k].Map? then Merged(Get(base.entries, k), patch[k].entries) else patch[k]])
  {
    var a := Restrict(patch, done);
    var b := Restrict(patch, done + {k});
    var v := if patch[k].Map? then Merged(Get(base.entries, k), patch[k].entries) else patch[k];
    assert Mergeable(base, b) by {
      forall j | j in b && b[j].Map? ensures Mergeable(Get(base.entries, j), b[j].entries) {
        if j != k { assert j in a; }
      }
    }
    var m1 := Merged(base, b).entries;
    var m0 := Merged(base, a).entries[k := v];
    assert m1.Keys == m0.Keys;
    forall j | j in m1 ensures m1[j] == m0[j] {
      if j != k {
        assert j in a <==> j in b;
      }
    }
    assert m1 == m0;
  }

  /** A path of keys into a value. */
  function At(v: Value, path: seq<string>): Option<Value> {
    if path == [] then Some(v)
    else if v.Map? && path[0] in v.entries then At(v.entries[path[0]], path[1..])
    else None
  }

  /** Merging into an empty mapping copies `patch`: this is how a section that is
      missing from the base configuration is filled in. */
  lemma {:induction false} MergeIntoEmpty(patch: map<string, Value>)
    ensures Mergeable(Map(map[]), patch)
    ensures Merged(Map(map[]), patch) == Map(patch)
    decreases Map(patch)
  {
    forall k | k in patch && patch[k].Map?
      ensures Mergeable(Get(map[], k), patch[k].entries) && Merged(Get(map[], k), patch[k].entries) == patch[k]
    {
      assert patch[k] == Map(patch[k].entries);
      MergeIntoEmpty(patch[k].entries);
    }
    assert Merged(Map(map[]), patch).entries == patch;
  }

  /** A scalar reached by a path through `patch` is what the merge holds at that path:
      the patch value overwrites, however deep. */
  lemma {:induction false} MergeNewLeafWins(base: Value, patch: map<string, Value>, path: seq<string>)
    requires Mergeable(base, patch) && base.Map?
    requires At(Map(patch), path).Some? && At(Map(patch), path).value.Leaf?
    ensures At(Merged(base, patch), path) == At(Map(patch), path)
    decreases |path|
  {
    var k := path[0];
    var m := Merged(base, patch);
    assert k in m.entries;
    if patch[k].Map? {
      var o := Get(base.entries, k);
      assert patch[k] == Map(patch[k].entries);
      MergeNewLeafWins(o, patch[k].entries, path[1..]);
    }
  }

  /** A value reached by a path through `base` that `patch` does not reach the end of,
      nor cuts short with a scalar, survives the merge. */
  lemma {:induction false} MergeOldSurvives(base: Value, patch: map<string, Value>, path: seq<string>)
    requires Mergeable(base, patch)
    requires At(base, path).Some?
    requires forall n :: 1 <= n <= |path| ==> At(Map(patch), path[..n]).None? || At(Map(patch), path[..n]).value.Map?
    requires At(Map(patch), path).None?
    ensures At(Merged(base, patch), path) == At(base, path)
    decreases |path|
  {
    var k := path[0];
    var m := Merged(base, patch);
    if k in patch {
      assert path[..1] == [k];
      assert At(Map(patch), [k]) == At(patch[k], []);
      assert patch[k].Map?;
      assert patch[k] == Map(patch[k].entries);
      forall n | 1 <= n <= |path[1..]|
        ensures At(Map(patch[k].entries), path[1..][..n]).None? || At(Map(patch[k].entries), path[1..][..n]).value.Map?
      {
        assert path[..n + 1][1..] == path[1..][..n];
        assert path[..n + 1][0] == k;
      }
      MergeOldSurvives(Get(base.entries, k), patch[k].entries, path[1..]);
    }
  }

  /** Merging the same data twice changes nothing more: `update_dict` is idempotent. */
  lemma {:induction false} MergeIdempotent(base: Value, patch: map<string, Value>)
    requires Mergeable(base, patch)
    ensures Mergeable(Merged(base, patch), patch)
    ensures Merged(Merged(base, patch), patch) == Merged(base, patch)
    decreases Map(patch)
  {
    var m := Merged(base, patch);
    if base.Map? {
      forall k | k in patch && patch[k].Map?
        ensures Mergeable(Get(m.entries, k), patch[k].entries)
        ensures Merged(Get(m.entries, k), patch[k].entries) == m.entries[k]
      {
        assert patch[k] == Map(patch[k].entries);
        MergeIdempotent(Get(base.entries, k), patch[k].entries);
      }
      assert Merged(m, patch).entries == m.entries;
    }
  }

  // ---------------------------------------------------------------------------
  // PageData, TorrentData and structure_torrent_data
  // ---------------------------------------------------------------------------

  /** What parsing the torrent file yields: its info hash and its name. */
  datatype Parsed = Parsed(infoHash: string, name: string)

  /** Data extracted from a torrent page. */
  datatype PageData = PageData(title: string, cover: string, dateUpdated: string)

  function PageToDict(p: PageData): (d: Value)
    ensures d.Map? && d.entries.Keys == {"title", "cover", "date_updated"}
    ensures d.entries["title"] == Leaf(Str(p.title)) && d.entries["cover"] == Leaf(Str(p.cover))
    ensures d.entries["date_updated"] == Leaf(Str(p.dateUpdated))
  {
    Map(map["title" := Leaf(Str(p.title)), "cover" := Leaf(Str(p.cover)), "date_updated" := Leaf(Str(p.dateUpdated))])
  }

  /** A torrent record. `hashField` and `nameField` are the explicitly set hash
      and name, which the `Hash` and `Name` accessors fall back from. */
  datatype TorrentData = TorrentData(
    hashField: string, nameField: string, url: string, urlFile: string, raw: seq<byte>,
    page: Option<PageData>, parsed: Option<Parsed>, downloadTo: Option<string>)

  /** Python's `a or b` on strings. */
  function Or(a: string, b: string): string {
    if a != "" then a else b
  }

  /** The `hash` property: the explicit hash, else the parsed info hash, else "". */
  function Hash(t: TorrentData): (h: string)
    ensures t.hashField != "" ==> h == t.hashField
    ensures t.hashField == "" && t.parsed.Some? ==> h == t.parsed.value.infoHash
    ensures t.hashField == "" && t.parsed.None? ==> h == ""
  {
    Or(t.hashField, Or(if t.parsed.Some? then t.parsed.value.infoHash else "", ""))
  }

  /** The `name` property: the explicit name, else the parsed name, else "". */
  function Name(t: TorrentData): (n: string)
    ensures t.nameField != "" ==> n == t.nameField
    ensures t.nameField == "" && t.parsed.Some? ==> n == t.parsed.value.name
    ensures t.nameField == "" && t.parsed.None? ==> n == ""
  {
    Or(t.nameField, Or(if t.parsed.Some? then t.parsed.value.name else "", ""))
  }

  function OptStr(s: Option<string>): Value {
    if s.Some? then Leaf(Str(s.value)) else Leaf(Null)
  }

  /** `TorrentData.to_dict`: the record as it is stored in the configuration. */
  function ToDict(t: TorrentData): (d: Value)
    ensures d.Map? && d.entries.Keys == {"hash", "name", "url", "url_file", "page", "download_to"}
  {
    Map(map[
      "hash" := Leaf(Str(Hash(t))),
      "name" := Leaf(Str(Name(t))),
      "url" := Leaf(Str(t.url)),
      "url_file" := Leaf(Str(t.urlFile)),
      "page" := if t.page.Some? then PageToDict(t.page.value) else Map(map[]),
      "download_to" := OptStr(t.downloadTo)])
  }

  /** The part of a torrent record that the configuration keeps. */
  datatype Stored = Stored(hash: string, name: string, url: string, urlFile: string, page: Option<PageData>, downloadTo: Option<string>)

  function StrOf(v: Value): string {
    if v.Leaf? && v.atom.Str? then v.atom.s else ""
  }

  function PageOf(v: Value): Option<PageData> {
    if v.Map? && "title" in v.entries && "cover" in v.entries && "date_updated" in v.entries
    then Some(PageData(StrOf(v.entries["title"]), StrOf(v.entries["cover"]), StrOf(v.entries["date_updated"])))
    else None
  }

  /** Reads a stored record back from its dictionary form. */
  function FromDict(d: Value): Option<Stored> {
    if d.Map? && "hash" in d.entries && "name" in d.entries && "url" in d.entries
       && "url_file" in d.entries && "page" in d.entries && "download_to" in d.entries
    then
      var dt := d.entries["download_to"];
      Some(Stored(StrOf(d.entries["hash"]), StrOf(d.entries["name"]), StrOf(d.entries["url"]),
        StrOf(d.entries["url_file"]), PageOf(d.entries["page"]),
        if dt.Leaf? && dt.atom.Str? then Some(dt.atom.s) else None))
    else None
  }

  /** `to_dict` keeps the hash and name as the accessors report them, the page
      (or an empty mapping for none) and the download target: reading it back
      gives them all. */
  lemma ToDictRoundTrip(t: TorrentData)
    ensures FromDict(ToDict(t)) == Some(Stored(Hash(t), Name(t), t.url, t.urlFile, t.page, t.downloadTo))
    ensures ToDict(t).entries["page"] == Map(map[]) <==> t.page.None?
  {
    if t.page.Some? {
      assert "title" in PageToDict(t.page.value).entries;
    }
  }

  /** `structure_torrent_data`: the record gets `hash_str` as its hash when it has
      none, and its dictionary form is stored under `hash_str`. */
  method StructureTorrentData(target: map<string, Value>, hashStr: string, data: TorrentData)
    returns (target': map<string, Value>, data': TorrentData)
    ensures Hash(data') == if Hash(data) == "" then hashStr else Hash(data)
    ensures data' == data || (Hash(data) == "" && data' == data.(hashField := hashStr))
    ensures target'.Keys == target.Keys + {hashStr}
    ensures target'[hashStr] == ToDict(data')
    ensures forall k :: k in target && k != hashStr ==> target'[k] == target[k]
  {
    data' := data;
    if Hash(data') == "" {
      data' := data'.(hashField := hashStr);
    }
    target' := target[hashStr := ToDict(data')];
  }

  /** After `structure_torrent_data` the stored hash is the record's own one, or
      `hash_str` when the record had none. */
  lemma StoredHash(target: map<string, Value>, hashStr: string, data: TorrentData, data': TorrentData)
    requires data' == (if Hash(data) == "" then data.(hashField := hashStr) else data)
    ensures ToDict(data').entries["hash"] == Leaf(Str(if Hash(data) == "" then hashStr else Hash(data)))
  {
  }

  // ---------------------------------------------------------------------------
  // ObjectsRegistry
  // ---------------------------------------------------------------------------

  /** An alias-keyed registry of objects; `order` is the insertion order the
      dictionary keeps, which decides `get_for_string`. */
  class ObjectsRegistry<T> {
    var items: map<string, T>
    var order: seq<string>

    ghost predicate Valid()
      reads this
    {
      (forall a :: a in items <==> a in order)
      && (forall i, j :: 0 <= i < j < |order| ==> order[i] != order[j])
    }

    constructor ()
      ensures Valid() && items == map[] && order == []
    {
      items := map[];
      order := [];
    }

    /** `add`: stores `obj` under `alias`, replacing an earlier entry in place. */
    method Add(alias: string, obj: T)
      requires Valid()
      modifies this
      ensures Valid()
      ensures items == old(items)[alias := obj]
      ensures order == if alias in old(items) then old(order) else old(order) + [alias]
    {
      if alias !in items {
        order := order + [alias];
      }
      items := items[alias := obj];
    }

    /** `get(None)`: every registered object. */
    function All(): (r: map<string, T>)
      reads this
      ensures r == items
    {
      items
    }

    /** `get(alias)`: the object registered under `alias`, if any. */
    function Lookup(alias: string): (r: Option<T>)
      reads this
      ensures r.Some? <==> alias in items
      ensures r.Some? ==> r.value == items[alias]
    {
      if alias in items then Some(items[alias]) else None
    }

    /** The object registered as `name` takes `s`: it says it can handle it, or its
        alias occurs in it. */
    predicate Takes(name: string, s: string, canHandle: Option<(T, string) -> bool>)
      reads this
      requires name in items
    {
      (canHandle.Some? && canHandle.value(items[name], s)) || Contains(s, name)
    }

    /** The first object in `names` that takes `s`. */
    function FirstTaking(names: seq<string>, s: string, canHandle: Option<(T, string) -> bool>): (r: Option<T>)
      reads this
      requires forall i :: 0 <= i < |names| ==> names[i] in items
      ensures r.None? <==> forall i :: 0 <= i < |names| ==> !Takes(names[i], s, canHandle)
      ensures r.Some? ==> exists i :: (0 <= i < |names| && Takes(names[i], s, canHandle)
        && r.value == items[names[i]] && forall j :: 0 <= j < i ==> !Takes(names[j], s, canHandle))
    {
      if names == [] then None
      else if Takes(names[0], s, canHandle) then Some(items[names[0]])
      else
        var r := FirstTaking(names[1..], s, canHandle);
        assert forall i :: 1 <= i < |names| ==> names[i] == names[1..][i - 1];
        r
    }

    /** The object `get_for_string(s)` returns. */
    function ForString(s: string, canHandle: Option<(T, string) -> bool>): Option<T>
      reads this
      requires Valid()
    {
      FirstTaking(order, s, canHandle)
    }

    /** `get_for_string`: walks the registry in insertion order and returns the
        first object that takes `s`. `canHandle` is the objects' `can_handle`
        method, or none when they have no such method. */
    method GetForString(s: string, canHandle: Option<(T, string) -> bool>) returns (r: Option<T>)
      requires Valid()
      ensures r == ForString(s, canHandle)
      ensures r.None? <==> forall i :: 0 <= i < |order| ==> !Takes(order[i], s, canHandle)
      ensures r.Some? ==> exists i :: (0 <= i < |order| && Takes(order[i], s, canHandle)
        && r.value == items[order[i]] && forall j :: 0 <= j < i ==> !Takes(order[j], s, canHandle))
    {
      var i := 0;
      while i < |order|
        invariant 0 <= i <= |order|
        invariant FirstTaking(order, s, canHandle) == FirstTaking(order[i..], s, canHandle)
      {
        var name := order[i];
        if canHandle.Some? && canHandle.value(items[name], s) {
          return Some(items[name]);
        } else if Contains(s, name) {
          return Some(items[name]);
        }
        assert order[i..][1..] == order[i + 1..];
        i := i + 1;
      }
      return None;
    }
  }

  // ---------------------------------------------------------------------------
  // TorrtConfig.load: settings entries added in a new version
  // ---------------------------------------------------------------------------

  /** The settings a fresh configuration starts with. */
  const BasicSettings: map<string, Value> := map["trackers" := Map(map[])]

  /** The default-key merge of `TorrtConfig.load`: every basic key missing from
      the loaded settings is added with its default; nothing present changes. */
  method AddDefaults(settings: map<string, Value>) returns (r: map<string, Value>)
    ensures r.Keys == settings.Keys + BasicSettings.Keys
    ensures forall k :: k in settings ==> r[k] == settings[k]
    ensures forall k :: k in BasicSettings && k !in settings ==> r[k] == BasicSettings[k]
  {
    r := settings;
    var todo := BasicSettings.Keys;
    while todo != {}
      invariant todo <= BasicSettings.Keys
      invariant r.Keys == settings.Keys + (BasicSettings.Keys - todo)
      invariant forall k :: k in settings ==> r[k] == settings[k]
      invariant forall k :: k in BasicSettings && k !in settings && k !in todo ==> r[k] == BasicSettings[k]
      decreases todo
    {
      var k :| k in todo;
      if k !in r {
        r := r[k := BasicSettings[k]];
      }
      todo := todo - {k};
    }
  }
}
