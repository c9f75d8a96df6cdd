/** The bootstrap of the handler registries: which handler classes exist, and
    which RPC and tracker objects the configuration makes. */
module Toolbox {
  import opened Common
  import opened Utils
  import B = BaseTracker
  import opened Handlers

  /** An RPC client object spawned from its settings. The RPC client classes are
      not part of this model; only their aliases are. */
  datatype RpcObject = RpcObject(alias: string, settings: map<string, Value>)

  /** Why `init_object_registries` raised. */
  datatype ConfigError =
    | MissingSection(name: string)  // `cfg[name]` with no such section
    | WrongType(name: string)       // a section, or a handler's settings, that is not a mapping

  /** The handler classes in the order their modules are imported; each registers
      itself under its alias as its class is created. */
  const ImportOrder: seq<B.Site> := [B.KinozalSite, B.TestSite]

  /** What `cfg['trackers'].get(alias)` gives: an absent entry and a `null` one
      are both `None`. */
  function SettingsEntry(section: map<string, Value>, alias: string): (r: Option<Value>)
    ensures r.None? <==> alias !in section || section[alias] == Leaf(Null)
    ensures r.Some? ==> r.value == section[alias]
  {
    if alias in section && section[alias] != Leaf(Null) then Some(section[alias]) else None
  }

  /** What the tracker loop does with one handler class. */
  datatype Spawn = Skip | SpawnWith(settings: map<string, Value>) | Refuse

  /** The registration rule: a private class without settings is skipped; every
      other class is spawned with its settings, or with no settings when those are
      empty or absent; settings that are not a mapping cannot be spread into the
      constructor's keyword arguments. */
  function TrackerRule(site: B.Site, entry: Option<Value>): (r: Spawn)
    ensures entry.None? && B.ClassOf(site).private.Some? <==> r == Skip
    ensures entry.None? && B.ClassOf(site).private.None? ==> r == SpawnWith(map[])
    ensures entry.Some? && entry.value.Map? ==> r == SpawnWith(entry.value.entries)
    ensures r == Refuse <==> entry.Some? && entry.value.Leaf? && Utils.Truthy(entry.value)
  {
    if entry.None? && B.ClassOf(site).private.Some? then Skip
    else
      var settings := if entry.Some? && Utils.Truthy(entry.value) then entry.value else Map(map[]);
      if settings.Map? then SpawnWith(settings.entries) else Refuse
  }

  /** A string keyword argument: present only when the setting is a string. */
  function StrArg(settings: map<string, Value>, name: string): (r: Option<string>)
    ensures r.Some? <==> name in settings && settings[name].Leaf? && settings[name].atom.Str?
    ensures r.Some? ==> settings[name] == Leaf(Str(r.value))
  {
    if name in settings && settings[name].Leaf? && settings[name].atom.Str? then Some(settings[name].atom.s) else None
  }

  /** The `cookies` keyword argument: its string-valued entries. */
  function CookiesArg(settings: map<string, Value>): (r: Option<map<string, string>>)
    ensures r.Some? <==> "cookies" in settings && settings["cookies"].Map?
    ensures r.Some? ==> forall k :: k in r.value <==> k in settings["cookies"].entries && StrArg(settings["cookies"].entries, k).Some?
  {
    if "cookies" in settings && settings["cookies"].Map? then
      var m := settings["cookies"].entries;
      Some(map k | k in m && StrArg(m, k).Some? :: StrArg(m, k).value)
    else None
  }

  /** The handler a class is spawned as from its settings. */
  function SpawnHandler(site: B.Site, settings: map<string, Value>, env: B.Env): B.Handler {
    B.Handler(site, StrArg(settings, "username"), StrArg(settings, "password"), env)
  }

  /** `cfg[name]` read as a mapping: a missing section raises KeyError, and one
      that is not a mapping has no `items` or `get`. */
  function Section(cfg: map<string, Value>, name: string): (r: Result<map<string, Value>, ConfigError>)
    ensures r.Ok? <==> name in cfg && cfg[name].Map?
    ensures r.Ok? ==> r.value == cfg[name].entries
    ensures r.Err? ==> r.error == (if name in cfg then WrongType(name) else MissingSection(name))
  {
    if name !in cfg then Err(MissingSection(name))
    else if !cfg[name].Map? then Err(WrongType(name))
    else Ok(cfg[name].entries)
  }

  /** A configuration file that only holds the basic settings has no `rpc`
      section, so initialising the registries from it raises. */
  lemma FreshConfigHasNoRpc()
    ensures Section(BasicSettings, "rpc") == Err(MissingSection("rpc"))
  {
  }

  /** The class registry keys each class by its own alias. */
  ghost predicate ByAlias(classes: ObjectsRegistry<B.Site>)
    reads classes
  {
    forall a :: a in classes.items ==> B.ClassOf(classes.items[a]).alias == a
  }

  /** The set of aliases the tracker loop spawns a handler for. */
  ghost function Spawned(classes: map<string, B.Site>, section: map<string, Value>): set<string> {
    set a | a in classes && TrackerRule(classes[a], SettingsEntry(section, a)).SpawnWith?
  }

  /** `import_classes` as far as registration goes: each handler class, when
      created, adds itself to the class registry under its alias. */
  method ImportClasses() returns (classes: ObjectsRegistry<B.Site>)
    ensures fresh(classes) && classes.Valid() && ByAlias(classes)
    ensures classes.order == [B.ClassOf(B.KinozalSite).alias, B.ClassOf(B.TestSite).alias]
    ensures classes.items == map[B.ClassOf(B.KinozalSite).alias := B.KinozalSite, B.ClassOf(B.TestSite).alias := B.TestSite]
  {
    classes := new ObjectsRegistry<B.Site>();
    classes.Add(B.ClassOf(B.KinozalSite).alias, B.KinozalSite);
    classes.Add(B.ClassOf(B.TestSite).alias, B.TestSite);
  }

  /** The handler spawned for `alias` is fresh, built from its settings, and in
      its initial state. */
  ghost predicate SpawnedAs(t: Tracker, site: B.Site, settings: map<string, Value>, env: B.Env)
    reads t
  {
    t.handler == SpawnHandler(site, settings, env)
    && t.Model() == B.Initial(CookiesArg(settings), StrArg(settings, "query_string"))
  }

  /** `spawn_with_settings`: a new handler object from the settings. */
  method SpawnWithSettings(site: B.Site, settings: map<string, Value>, env: B.Env) returns (t: Tracker)
    ensures fresh(t) && SpawnedAs(t, site, settings, env)
  {
    t := new Tracker(SpawnHandler(site, settings, env), CookiesArg(settings), StrArg(settings, "query_string"));
  }

  /** The `rpc` entry `a` names a known RPC class but its settings are not a
      mapping, so they cannot be spread into the constructor's keyword arguments. */
  predicate BadRpcEntry(rpc: map<string, Value>, rpcAliases: set<string>, a: string) {
    a in rpc && a in rpcAliases && !rpc[a].Map?
  }

  /** Some entry of the `rpc` section cannot be spawned. */
  predicate RpcRefused(rpc: map<string, Value>, rpcAliases: set<string>) {
    exists a :: a in rpc && BadRpcEntry(rpc, rpcAliases, a)
  }

  /** The loop over the `rpc` section: an entry is spawned and registered only
      when its alias names a known RPC class; settings that are not a mapping
      raise. The order of the entries is not modelled, so when one raises, the
      entries registered before it are some of the well-formed ones. */
  method RegisterRpc(rpc: map<string, Value>, rpcAliases: set<string>, rpcObjects: ObjectsRegistry<RpcObject>)
      returns (r: Result<(), ConfigError>)
    requires rpcObjects.Valid()
    modifies rpcObjects
    ensures rpcObjects.Valid()
    ensures r.Ok? <==> !RpcRefused(rpc, rpcAliases)
    ensures r.Err? ==> r.error.WrongType? && BadRpcEntry(rpc, rpcAliases, r.error.name)
    ensures old(rpcObjects.items.Keys) <= rpcObjects.items.Keys
    ensures forall a :: a in rpcObjects.items ==>
      (a in old(rpcObjects.items) && rpcObjects.items[a] == old(rpcObjects.items[a]))
      || (a in rpc && a in rpcAliases && rpc[a].Map? && rpcObjects.items[a] == RpcObject(a, rpc[a].entries))
    ensures r.Ok? ==> rpcObjects.items.Keys == old(rpcObjects.items.Keys) + (rpc.Keys * rpcAliases)
    ensures r.Ok? ==> forall a :: a in rpc && a in rpcAliases ==> rpcObjects.items[a] == RpcObject(a, rpc[a].entries)
  {
    var todo := rpc.Keys;
    while todo != {}
      invariant todo <= rpc.Keys
      invariant rpcObjects.Valid()
      invariant forall a :: a in rpc && a !in todo ==> !BadRpcEntry(rpc, rpcAliases, a)
      invariant rpcObjects.items.Keys == old(rpcObjects.items.Keys) + ((rpc.Keys - todo) * rpcAliases)
      invariant forall a :: a in rpc && a !in todo && a in rpcAliases ==> rpcObjects.items[a] == RpcObject(a, rpc[a].entries)
      invariant forall a :: a in rpcObjects.items && a !in (rpc.Keys - todo) * rpcAliases ==> rpcObjects.items[a] == old(rpcObjects.items[a])
      decreases todo
    {
      var alias :| alias in todo;
      if alias in rpcAliases {
        if !rpc[alias].Map? {
          return Err(WrongType(alias));
        }
        rpcObjects.Add(alias, RpcObject(alias, rpc[alias].entries));
      }
      todo := todo - {alias};
    }
    r := Ok(());
  }

  /** The tracker loop spawns a handler for the class registered as `a`. */
  ghost predicate SpawnsFor(classes: map<string, B.Site>, section: map<string, Value>, a: string) {
    a in classes && TrackerRule(classes[a], SettingsEntry(section, a)).SpawnWith?
  }

  /** One turn of the tracker loop: the class registered as `alias` is skipped,
      refused or spawned and registered under its alias. */
  method RegisterClass(alias: string, site: B.Site, entry: Option<Value>, trackers: ObjectsRegistry<Tracker>, env: B.Env)
      returns (refused: bool)
    requires trackers.Valid()
    modifies trackers
    ensures trackers.Valid()
    ensures refused <==> TrackerRule(site, entry) == Refuse
    ensures !TrackerRule(site, entry).SpawnWith? ==> trackers.items == old(trackers.items)
    ensures TrackerRule(site, entry).SpawnWith? ==>
      trackers.items.Keys == old(trackers.items.Keys) + {alias}
      && (forall a :: a in old(trackers.items) && a != alias ==> trackers.items[a] == old(trackers.items[a]))
      && fresh(trackers.items[alias]) && SpawnedAs(trackers.items[alias], site, TrackerRule(site, entry).settings, env)
  {
    refused := false;
    match TrackerRule(site, entry) {
      case Skip =>
      case Refuse =>
        refused := true;
      case SpawnWith(settings) =>
        var t := SpawnWithSettings(site, settings, env);
        trackers.Add(alias, t);
    }
  }

  /** The loop over the handler classes, in registration order, by the
      registration rule. Settings that are not a mapping raise, and the classes
      registered until then stay registered. */
  method RegisterTrackers(section: map<string, Value>, classes: ObjectsRegistry<B.Site>, trackers: ObjectsRegistry<Tracker>, env: B.Env)
      returns (r: Result<(), ConfigError>)
    requires classes.Valid() && trackers.Valid()
    modifies trackers
    ensures trackers.Valid()
    ensures old(trackers.items.Keys) <= trackers.items.Keys
    ensures r.Ok? <==> forall a :: a in classes.items ==> TrackerRule(classes.items[a], SettingsEntry(section, a)) != Refuse
    ensures r.Ok? ==> forall a :: a in trackers.items <==> a in old(trackers.items) || SpawnsFor(classes.items, section, a)
    ensures r.Ok? ==> forall a :: a in trackers.items && !SpawnsFor(classes.items, section, a) ==> trackers.items[a] == old(trackers.items[a])
    ensures r.Ok? ==> forall a :: SpawnsFor(classes.items, section, a) ==>
      fresh(trackers.items[a])
      && SpawnedAs(trackers.items[a], classes.items[a], TrackerRule(classes.items[a], SettingsEntry(section, a)).settings, env)
  {
    ghost var seen: set<string> := {};
    var i := 0;
    while i < |classes.order|
      invariant 0 <= i <= |classes.order|
      invariant forall a :: a in seen <==> a in classes.order[..i]
      invariant trackers.Valid()
      invariant old(trackers.items.Keys) <= trackers.items.Keys
      invariant forall a :: a in seen ==> TrackerRule(classes.items[a], SettingsEntry(section, a)) != Refuse
      invariant forall a :: a in trackers.items <==> a in old(trackers.items) || (a in seen && SpawnsFor(classes.items, section, a))
      invariant forall a :: a in trackers.items && !(a in seen && SpawnsFor(classes.items, section, a)) ==>
        trackers.items[a] == old(trackers.items[a])
      invariant forall a :: a in seen && SpawnsFor(classes.items, section, a) ==>
        fresh(trackers.items[a])
        && SpawnedAs(trackers.items[a], classes.items[a], TrackerRule(classes.items[a], SettingsEntry(section, a)).settings, env)
    {
      var alias := classes.order[i];
      assert classes.order[..i + 1] == classes.order[..i] + [alias];
      assert alias !in seen;
      var refused := RegisterClass(alias, classes.items[alias], SettingsEntry(section, alias), trackers, env);
      if refused {
        return Err(WrongType(alias));
      }
      seen := seen + {alias};
      i := i + 1;
    }
    assert forall a :: a in seen <==> a in classes.items;
    r := Ok(());
  }

  /** `init_object_registries` on the configuration `cfg` as loaded: the `rpc`
      section first, then the handler classes. The `trackers` section is read
      only inside the class loop, so it is not read when no class is registered,
      and a bad one raises after the RPC objects were registered. */
  method InitObjectRegistries(cfg: map<string, Value>, rpcAliases: set<string>, classes: ObjectsRegistry<B.Site>,
                              rpcObjects: ObjectsRegistry<RpcObject>, trackers: ObjectsRegistry<Tracker>, env: B.Env)
      returns (r: Result<(), ConfigError>)
    requires classes.Valid() && ByAlias(classes) && rpcObjects.Valid() && trackers.Valid()
    modifies rpcObjects, trackers
    ensures rpcObjects.Valid() && trackers.Valid()
    // A bad `rpc` section raises before anything is registered.
    ensures Section(cfg, "rpc").Err? ==> r == Err(Section(cfg, "rpc").error) && unchanged(rpcObjects, trackers)
    // A bad RPC entry raises before any handler is registered.
    ensures Section(cfg, "rpc").Ok? && RpcRefused(Section(cfg, "rpc").value, rpcAliases) ==>
      r.Err? && r.error.WrongType? && BadRpcEntry(Section(cfg, "rpc").value, rpcAliases, r.error.name) && unchanged(trackers)
    // Otherwise every known RPC entry is registered with its settings.
    ensures Section(cfg, "rpc").Ok? && !RpcRefused(Section(cfg, "rpc").value, rpcAliases) ==>
      var rpc := Section(cfg, "rpc").value;
      rpcObjects.items.Keys == old(rpcObjects.items.Keys) + (rpc.Keys * rpcAliases)
      && (forall a :: a in rpc && a in rpcAliases ==> rpcObjects.items[a] == RpcObject(a, rpc[a].entries))
      && (forall a :: a in rpcObjects.items && a !in rpc.Keys * rpcAliases ==> rpcObjects.items[a] == old(rpcObjects.items[a]))
    // The `trackers` section: raises only when some class reads it.
    ensures Section(cfg, "rpc").Ok? && !RpcRefused(Section(cfg, "rpc").value, rpcAliases) && Section(cfg, "trackers").Err? ==>
      r == (if classes.items == map[] then Ok(()) else Err(Section(cfg, "trackers").error)) && unchanged(trackers)
    ensures Section(cfg, "rpc").Ok? && !RpcRefused(Section(cfg, "rpc").value, rpcAliases) && Section(cfg, "trackers").Ok? ==>
      var section := Section(cfg, "trackers").value;
      (r.Ok? <==> forall a :: a in classes.items ==> TrackerRule(classes.items[a], SettingsEntry(section, a)) != Refuse)
      && (r.Ok? ==> trackers.items.Keys == old(trackers.items.Keys) + Spawned(classes.items, section))
      && (r.Ok? ==> forall a :: a in Spawned(classes.items, section) ==>
            fresh(trackers.items[a])
            && SpawnedAs(trackers.items[a], classes.items[a], TrackerRule(classes.items[a], SettingsEntry(section, a)).settings, env))
  {
    var rpc := Section(cfg, "rpc");
    if rpc.Err? {
      return Err(rpc.error);
    }
    r := RegisterRpc(rpc.value, rpcAliases, rpcObjects);
    if r.Err? {
      return;
    }
    if classes.order == [] {
      assert classes.items == map[];
      return Ok(());
    }
    assert classes.order[0] in classes.items;
    var section := Section(cfg, "trackers");
    if section.Err? {
      return Err(section.error);
    }
    r := RegisterTrackers(section.value, classes, trackers, env);
  }

  /** `bootstrap`: the handler classes are imported, so that they are registered,
      before the object registries are filled from the configuration. */
  method Bootstrap(cfg: map<string, Value>, rpcAliases: set<string>, env: B.Env)
      returns (r: Result<(), ConfigError>, rpcObjects: ObjectsRegistry<RpcObject>, trackers: ObjectsRegistry<Tracker>)
    ensures rpcObjects.Valid() && trackers.Valid()
    ensures r.Ok? ==> B.ClassOf(B.TestSite).alias in trackers.items
  {
    var classes := ImportClasses();
    rpcObjects := new ObjectsRegistry<RpcObject>();
    trackers := new ObjectsRegistry<Tracker>();
    r := InitObjectRegistries(cfg, rpcAliases, classes, rpcObjects, trackers, env);
    if r.Ok? {
      var alias := B.ClassOf(B.TestSite).alias;
      assert alias in classes.items;
      assert alias in Spawned(classes.items, Section(cfg, "trackers").value);
    }
  }
}
