/** `PluginCollection`: the registry that maps each plugin constructor of an
    editor to its single instance, and loads plugins with their
    requirements. */
module Collection {
  import opened Wrappers
  import opened JsMap
  import opened Plugins
  import opened LoadSpec
  import opened LoadTheorems

  /** The editor handed to every plugin constructor; the collection never
      looks inside it. */
  class Editor {
  }

  /** An object built by `new PluginConstructor(editor)`. */
  class PluginInstance {
    const ctor: Id
    const editor: Editor

    constructor (ctor: Id, editor: Editor)
      ensures this.ctor == ctor && this.editor == editor
    {
      this.ctor := ctor;
      this.editor := editor;
    }
  }

  /** How the promise returned by `load` settles. */
  datatype LoadResult = Resolved(plugins: seq<PluginInstance>) | Rejected(error: LoadError)

  function IdsOf(s: seq<PluginInstance>): seq<Id>
  {
    seq(|s|, i requires 0 <= i < |s| => s[i].ctor)
  }

  /** The `_add(constructor, instance)` calls that register these instances. */
  function PairsOf(s: seq<PluginInstance>): seq<(Id, PluginInstance)>
  {
    seq(|s|, i requires 0 <= i < |s| => (s[i].ctor, s[i]))
  }

  /** Pushing a newly registered instance to `loaded` keeps it in step
      with the `Registered` events and with the `_add` calls. */
  lemma PushRegistered(s: seq<PluginInstance>, es: seq<Event>, x: PluginInstance)
    requires IdsOf(s) == Created(es)
    ensures IdsOf(s + [x]) == Created(es + [Registered(x.ctor)])
    ensures PairsOf(s + [x]) == PairsOf(s) + [(x.ctor, x)]
  {
  }

  /** The `_add` calls of one `load` call, one per created instance, set
      keys that were not in the map before and are pairwise distinct. */
  lemma NewEntriesStored(cat: Catalog, registered: set<Id>, requested: seq<Id>,
                         h: seq<(Id, PluginInstance)>, created: seq<PluginInstance>)
    requires Replay(h).Keys == registered
    requires IdsOf(created) == Created(LoadCall(cat, registered, requested).0.events)
    ensures forall k :: k in Replay(h) ==> k in Replay(h + PairsOf(created)) && Replay(h + PairsOf(created))[k] == Replay(h)[k]
    ensures forall p :: p in created ==> p.ctor in Replay(h + PairsOf(created)) && Replay(h + PairsOf(created))[p.ctor] == p
  {
    var es := LoadCall(cat, registered, requested).0.events;
    LoadVisitsEachOnce(cat, registered, requested);
    CreatedListsRegistrations(es);
    var e := PairsOf(created);
    forall i | 0 <= i < |e|
      ensures e[i].0 !in Replay(h)
    {
      assert e[i].0 == Created(es)[i];
      assert e[i].0 in RegisteredIds(es);
      var j :| 0 <= j < |es| && es[j].Registered? && es[j].id == e[i].0;
    }
    forall i, j | 0 <= i < j < |e|
      ensures e[i].0 != e[j].0
    {
      assert e[i].0 == Created(es)[i] && e[j].0 == Created(es)[j];
    }
    ReplayAddsNewKeys(h, e);
    forall p | p in created
      ensures p.ctor in Replay(h + e) && Replay(h + e)[p.ctor] == p
    {
      var i :| 0 <= i < |created| && created[i] == p;
      assert e[i] == (p.ctor, p);
    }
  }

  class PluginCollection {
    const editor: Editor
    /** The `_plugins` Map: its entries, and its keys in insertion order. */
    var plugins: map<Id, PluginInstance>
    var order: seq<Id>
    /** Every `_add(key, instance)` call made so far, oldest first. */
    ghost var history: seq<(Id, PluginInstance)>

    /** The Map holds what its `set` calls left behind, iterated in the
        order in which its keys were first set. */
    ghost predicate Valid()
      reads this
    {
      plugins == Replay(history) && order == InsertionOrder(history)
    }

    constructor (editor: Editor)
      ensures Valid() && this.editor == editor && history == []
    {
      this.editor := editor;
      plugins := map[];
      order := [];
      history := [];
    }

    /** `[Symbol.iterator]`: the `[constructor, instance]` pairs, one per
        constructor ever added, in the order of their first `_add`, each
        with the instance most recently added for it. */
    function Entries(): (r: seq<(Id, PluginInstance)>)
      reads this
      requires Valid()
      ensures |r| == |InsertionOrder(history)|
      ensures forall i :: 0 <= i < |r| ==>
                r[i].0 == InsertionOrder(history)[i] && LastStored(history, r[i].0) == Some(r[i].1)
    {
      InsertionOrderKeys(history);
      ReplayIsLastStored(history);
      EntriesOf(order, plugins)
    }

    /** `get(key)`: the instance most recently added under `key`, nothing
        for a key never added. */
    function Get(key: Id): (r: Option<PluginInstance>)
      reads this
      requires Valid()
      ensures r == LastStored(history, key)
    {
      ReplayIsLastStored(history);
      if key in plugins then Some(plugins[key]) else None
    }

    /** `_add(key, plugin)`: `Map#set`. */
    method Add(key: Id, plugin: PluginInstance)
      requires Valid()
      modifies this
      ensures Valid() && history == old(history) + [(key, plugin)]
      ensures plugins == old(plugins)[key := plugin]
    {
      InsertionOrderKeys(history);
      ReplayIsLastStored(history);
      ghost var h := history + [(key, plugin)];
      assert h[..|h| - 1] == history;
      if key !in plugins {
        order := order + [key];
      }
      plugins := plugins[key := plugin];
      history := h;
    }

    /** The per-call state of `load` agrees with the collection: `loaded`
        lists the instances registered by the events so far, and they are
        the `_add` calls made since `base`. */
    ghost predicate Tracks(loaded: seq<PluginInstance>, events: seq<Event>, base: seq<(Id, PluginInstance)>)
      reads this
    {
      && Valid()
      && IdsOf(loaded) == Created(events)
      && history == base + PairsOf(loaded)
    }

    /** `load(plugins)`: visit each requested constructor in turn; the
        promise resolves with every instance this call created, or rejects
        with the error of the first requested entry that failed. */
    method Load(cat: Catalog, requested: seq<Id>) returns (result: LoadResult, ghost created: seq<PluginInstance>)
      requires Valid()
      modifies this
      ensures Valid()
      ensures var (u, sts) := LoadCall(cat, old(plugins).Keys, requested);
              && plugins.Keys == u.registered
              && IdsOf(created) == Created(u.events)
              && result == if FirstRejection(sts).None? then Resolved(created)
                           else Rejected(FirstRejection(sts).value)
      ensures history == old(history) + PairsOf(created)
      ensures forall p :: p in created ==> fresh(p) && p.editor == editor
      ensures forall k :: k in old(plugins) ==> k in plugins && plugins[k] == old(plugins)[k]
      ensures forall p :: p in created ==> p.ctor in plugins && plugins[p.ctor] == p
    {
      var loading: set<Id> := {};
      var loaded: seq<PluginInstance> := [];
      ghost var events: seq<Event> := [];
      assert history == history + PairsOf([]);
      var statuses;
      loading, loaded, events, statuses := LoadEach(cat, requested, loading, loaded, events, history);
      created := loaded;
      NewEntriesStored(cat, old(plugins).Keys, requested, old(history), created);
      match FirstRejection(statuses) {
        case None => result := Resolved(loaded);
        case Some(e) => result := Rejected(e);
      }
    }

    /** `cs.map(loadPlugin)` in `load`, and `requires.forEach(loadPlugin)` in
        `instantiatePlugin`, which discards the statuses. */
    method LoadEach(cat: Catalog, cs: seq<Id>, loading: set<Id>, loaded: seq<PluginInstance>,
                    ghost events: seq<Event>, ghost base: seq<(Id, PluginInstance)>)
      returns (loading': set<Id>, loaded': seq<PluginInstance>, ghost events': seq<Event>, statuses: seq<Status>)
      requires Tracks(loaded, events, base)
      modifies this
      decreases Remaining(cat, loading), 2
      ensures Tracks(loaded', events', base)
      ensures VisitAll(cat, cs, Trace(old(plugins).Keys, loading, events))
              == (Trace(plugins.Keys, loading', events'), statuses)
      ensures forall p :: p in loaded' && p !in loaded ==> fresh(p) && p.editor == editor
    {
      ghost var t0 := Trace(plugins.Keys, loading, events);
      loading', loaded', events', statuses := loading, loaded, events, [];
      var i := 0;
      while i < |cs|
        invariant 0 <= i <= |cs|
        invariant Tracks(loaded', events', base)
        invariant VisitAll(cat, cs[..i], t0) == (Trace(plugins.Keys, loading', events'), statuses)
        invariant forall p :: p in loaded' && p !in loaded ==> fresh(p) && p.editor == editor
      {
        RemainingShrinks(cat, loading, loading', cs[i]);
        ghost var t := Trace(plugins.Keys, loading', events');
        var status;
        loading', loaded', events', status := LoadPlugin(cat, cs[i], loading', loaded', events', base);
        WalkStep(cat, cs, i, t0, t, statuses, Trace(plugins.Keys, loading', events'), status);
        statuses := statuses + [status];
        i := i + 1;
      }
      assert cs[..i] == cs;
    }

    /** `loadPlugin(PluginConstructor)`: do nothing for a constructor already
        in the collection or already loading in this call. */
    method LoadPlugin(cat: Catalog, c: Id, loading: set<Id>, loaded: seq<PluginInstance>,
                      ghost events: seq<Event>, ghost base: seq<(Id, PluginInstance)>)
      returns (loading': set<Id>, loaded': seq<PluginInstance>, ghost events': seq<Event>, status: Status)
      requires Tracks(loaded, events, base)
      modifies this
      decreases Remaining(cat, loading), 1
      ensures Tracks(loaded', events', base)
      ensures Visit(cat, c, Trace(old(plugins).Keys, loading, events))
              == (Trace(plugins.Keys, loading', events'), status)
      ensures forall p :: p in loaded' && p !in loaded ==> fresh(p) && p.editor == editor
    {
      ReplayIsLastStored(history);
      if Get(c).Some? || c in loading {
        return loading, loaded, events, Skipped;
      }
      loading', loaded', events', status := Instantiate(cat, c, loading, loaded, events, base);
    }

    /** `instantiatePlugin(PluginConstructor)` with `assertIsPlugin`: mark
        the constructor loading, check that it is a plugin, load its
        `requires` ignoring how each settles, then construct the instance,
        `_add` it and push it to the call's `loaded` list. */
    method Instantiate(cat: Catalog, c: Id, loading: set<Id>, loaded: seq<PluginInstance>,
                       ghost events: seq<Event>, ghost base: seq<(Id, PluginInstance)>)
      returns (loading': set<Id>, loaded': seq<PluginInstance>, ghost events': seq<Event>, status: Status)
      requires Tracks(loaded, events, base)
      requires c !in plugins && c !in loading
      modifies this
      decreases Remaining(cat, loading), 0
      ensures Tracks(loaded', events', base)
      ensures Visit(cat, c, Trace(old(plugins).Keys, loading, events))
              == (Trace(plugins.Keys, loading', events'), status)
      ensures forall p :: p in loaded' && p !in loaded ==> fresh(p) && p.editor == editor
    {
      ghost var t := Trace(plugins.Keys, loading, events);
      VisitUnfolds(cat, c, t);
      loading' := loading + {c};
      var d := Describe(cat, c);
      if !d.isPlugin {
        CreatedPush(events, Threw(c, NotAPlugin));
        loaded', events' := loaded, events + [Threw(c, NotAPlugin)];
        status := Failed(LoadError(c, NotAPlugin));
        return;
      }
      RemainingShrinks(cat, loading, loading', c);
      var ignored;
      loading', loaded', events', ignored := LoadEach(cat, d.required, loading', loaded, events, base);
      loaded', events', status := Construct(cat, c, loaded', events', base);
    }

    /** `new PluginConstructor(editor)`, then `_add` and `loaded.push`: an
        instance is registered unless its constructor throws, in which case
        the collection is left as it was. */
    method Construct(cat: Catalog, c: Id, loaded: seq<PluginInstance>,
                     ghost events: seq<Event>, ghost base: seq<(Id, PluginInstance)>)
      returns (loaded': seq<PluginInstance>, ghost events': seq<Event>, status: Status)
      requires Tracks(loaded, events, base)
      modifies this
      ensures Tracks(loaded', events', base)
      ensures Describe(cat, c).ctorThrows ==>
                && plugins == old(plugins) && loaded' == loaded
                && events' == events + [Threw(c, ConstructorThrew)]
                && status == Failed(LoadError(c, ConstructorThrew))
      ensures !Describe(cat, c).ctorThrows ==>
                && plugins.Keys == old(plugins).Keys + {c}
                && |loaded'| == |loaded| + 1 && loaded'[..|loaded|] == loaded
                && plugins[c] == loaded'[|loaded|]
                && events' == events + [Registered(c)]
                && status == Loaded
      ensures forall p :: p in loaded' && p !in loaded ==> fresh(p) && p.editor == editor
    {
      if Describe(cat, c).ctorThrows {
        CreatedPush(events, Threw(c, ConstructorThrew));
        loaded', events' := loaded, events + [Threw(c, ConstructorThrew)];
        status := Failed(LoadError(c, ConstructorThrew));
        return;
      }
      var plugin := new PluginInstance(c, editor);
      Add(c, plugin);
      PushRegistered(loaded, events, plugin);
      loaded' := loaded + [plugin];
      events' := events + [Registered(c)];
      status := Loaded;
    }
  }
}
