# PluginCollection: a verified model of CKEditor 5's plugin loader

`PluginCollection` (`src/plugincollection.js`) is the registry in which an
editor keeps one instance per plugin constructor. It wraps an ECMAScript
`Map` from constructor to instance. The registry has `get`, `_add` and an
iterator. Its `load(plugins)` method instantiates the requested
constructors together with everything they `require`, depth-first.

The model has two layers.

- **Specification** (`load_spec.dfy`, `load_properties.dfy`). One `load` call
  is a pure, deterministic walk. `LoadSpec.Visit` handles one constructor and
  `LoadSpec.VisitAll` a list of them. The walk threads a `Trace`:
  - the constructors registered in the collection;
  - the per-call `loading` set;
  - a log of events, one per constructor the call visits. The event is
    `Registered`, marking its `_add` call, or `Threw` with the error kind,
    marking the moment the promise of `instantiatePlugin` rejects.

  Every `new Promise` executor runs synchronously, so the walk follows the
  code's own order. The lemmas about the walk are in `LoadProperties`,
  `LoadTheorems` and `DependencyOrder`. `Scenarios` works through small
  catalogues.
- **Implementation** (`plugin_collection.dfy`). `Collection.PluginCollection`
  is a class. Its fields are the `Map`'s entries, its key order and a ghost
  log of every `_add` call. Its methods follow the JavaScript functions one
  by one:
  - `Load` is `load`.
  - `LoadEach` is the `map`/`forEach` loop.
  - `LoadPlugin` is `loadPlugin`.
  - `Instantiate` is `instantiatePlugin` together with `assertIsPlugin`.
  - `Construct` is the construction, `_add` and `push` at the end of
    `instantiatePlugin`.

  Each method is proved equal to the specification walk. The methods thread
  the closure's `loading` set and `loaded` array.

A `Catalog` describes each constructor by three things: whether its
prototype is a `Plugin`, its `requires` list, and whether `new` on it throws.
A value the catalogue does not describe is not a plugin (see "Left out"
for `null` and `undefined` entries).

The model follows what the code does, which is weaker than a fail-fast
reading of "load with dependencies":

- `requires.forEach(loadPlugin)` discards the promises of the requirements.
  A requirement that fails is logged once the walk is over, and the plugin that requires it is
  still constructed and registered (`Scenarios.FailingRequirementDoesNotStopDependent`).
- Only a failing top-level entry rejects the returned promise.
  `Promise.all` rejects with the error of the first such entry in request
  order, because the catch handlers were queued in that order.
- Nothing is rolled back. A constructor that failed stays in `loading` for
  the rest of the call.

## Model

| member | source | states |
|---|---|---|
| `Collection.PluginCollection.constructor` | src/plugincollection.js:21-33 | a new collection holds the given editor and an empty `Map` with no `_add` calls |
| `Collection.PluginCollection.Entries` | src/plugincollection.js:38-40 | iteration yields one `[constructor, instance]` pair per constructor ever added, in order of first `_add`, each with the instance most recently added for it |
| `Collection.PluginCollection.Get` | src/plugincollection.js:48-50 | `get(key)` is the instance of the most recent `_add` of `key`, and nothing for a key never added |
| `Collection.PluginCollection.Add` | src/plugincollection.js:130-132 | `_add` appends one `set` to the log and keeps the map and key order equal to what the log leaves; the map gains or replaces exactly that key |
| `JsMap.ReplayIsLastStored` | src/plugincollection.js:48-50 | the map built by the `set` calls holds, for every key, the value of its most recent `set` and nothing for a key never set |
| `JsMap.InsertionOrderKeys` | src/plugincollection.js:38-40 | the iteration order lists each key exactly once, and exactly the keys ever set |
| `Collection.PluginCollection.Load` | src/plugincollection.js:60-67 | `load` leaves the collection with exactly the keys of the specification walk. It resolves with the instances created in registration order, or rejects with the first failing top-level error. It adds exactly one `_add` per created instance, each instance is fresh and built with the collection's editor, earlier entries are untouched, and each new instance is stored under its own constructor |
| `Collection.PluginCollection.LoadEach` | src/plugincollection.js:66 | the loop over a constructor list, `map` at the top level and `forEach` over `requires`, produces the same state and statuses as `VisitAll` |
| `Collection.PluginCollection.LoadPlugin` | src/plugincollection.js:69-87 | `loadPlugin` produces the same state and status as `Visit`: a constructor already registered or loading is skipped and nothing changes |
| `Collection.PluginCollection.Instantiate` | src/plugincollection.js:89-120 | `instantiatePlugin` marks the constructor loading. It stops with `plugincollection-instance` if the constructor is not a plugin, and otherwise loads its requires and constructs it. The resulting state and status are exactly those of `Visit` |
| `Collection.PluginCollection.Construct` | src/plugincollection.js:99-101 | when the constructor throws, the collection and `loaded` are unchanged and a `Threw` event records the rejection. Otherwise exactly one key is added, and it holds the new instance, which is pushed to the end of `loaded`; the instance is fresh and built with the collection's editor |
| `Collection.PushRegistered` | src/plugincollection.js:100-101 | pushing a new instance keeps `loaded` equal to the `Registered` events and to the `_add` calls |
| `Collection.NewEntriesStored` | src/plugincollection.js:99-101 | the `_add` calls of one `load` call set keys that were absent and pairwise distinct, so earlier entries keep their instance and each created instance is found under its own constructor |
| `JsMap.ReplayAddsNewKeys` | src/plugincollection.js:130-132 | `set` calls on fresh, distinct keys preserve every earlier entry and store each new value under its key |
| `LoadSpec.Visit` | src/plugincollection.js:69-105 | one constructor's visit only grows the registered and loading sets and only extends the event log |
| `LoadSpec.VisitAll` | src/plugincollection.js:96 | walking a list only grows the state and yields one status per entry |
| `LoadSpec.FirstRejection` | src/plugincollection.js:66-67 | the returned promise rejects if and only if some top-level status failed, and then with the first failure in request order |
| `LoadSpec.VisitAllSnoc` | src/plugincollection.js:66 | walking a list and then one more constructor is walking the extended list |
| `LoadProperties.VisitFootprint` | src/plugincollection.js:69-105 | a visit logs each constructor it visits once, only constructors that were neither registered nor loading, each event matching its descriptor; the constructor ends registered or loading |
| `LoadProperties.VisitAllFootprint` | src/plugincollection.js:96 | the same for a list, and every listed constructor ends registered or loading |
| `LoadTheorems.LoadVisitsEachOnce` | src/plugincollection.js:89-97 | in one `load` call every constructor is visited at most once, even with cyclic `requires`. No visited one was registered before. Created constructors are distinct, and the registered set is the old one plus the created ones. `loading` is exactly the visited constructors, and every request ends registered or loading |
| `LoadTheorems.CreatedListsRegistrations` | src/plugincollection.js:99-101 | the created list holds exactly the registered constructors of the log, without repetition |
| `LoadTheorems.FailingConstructorNeverRegistered` | src/plugincollection.js:107-120 | a constructor that is not a plugin, or whose constructor throws, is never registered, and it is in `loading` exactly when its `Threw` event was recorded |
| `LoadTheorems.VisitAllSkipsRegistered` | src/plugincollection.js:71-73 | constructors that are all registered are skipped and leave the state unchanged |
| `LoadTheorems.ReloadIsNoOp` | src/plugincollection.js:69-73 | loading only registered constructors visits nothing, creates nothing and resolves |
| `LoadTheorems.VisitAllAt` | src/plugincollection.js:66 | the status of entry `i` is that of visiting it after the entries before it |
| `LoadTheorems.TopLevelStatuses` | src/plugincollection.js:76-86 | every requested entry is processed. It is skipped exactly when it is registered or loading after the earlier entries, and otherwise settles by its own descriptor, whatever became of its requirements |
| `DependencyOrder.VisitDependenciesFirst` | src/plugincollection.js:95-100 | with an acyclic `requires` graph, a visit keeps the invariant that each registered plugin's requirements settled before it |
| `DependencyOrder.VisitAllDependenciesFirst` | src/plugincollection.js:96 | the same invariant for a walk over a list |
| `DependencyOrder.RequirementsSettleFirst` | src/plugincollection.js:95-100 | in a `load` call over an acyclic graph, each requirement of a registered plugin was registered before the call or was visited earlier in the call |
| `DependencyOrder.RequirementsRegisteredFirst` | src/plugincollection.js:95-100 | in an acyclic graph, a requirement whose instantiation succeeds is in the collection before the plugin that requires it is registered |
| `Scenarios.RequirementRegisteredBeforeDependent` | src/plugincollection.js:95-101 | `A` requiring `B` registers `B` and then `A`, and resolves |
| `Scenarios.CycleRegistersInnerFirst` | src/plugincollection.js:71 | for `A` and `B` requiring each other, the `loading` check ends the cycle. `B` is registered before `A` |
| `Scenarios.FailingRequirementDoesNotStopDependent` | src/plugincollection.js:96 | when the required `B` throws, `A` is still registered and the call resolves |
| `Scenarios.TopLevelFailureRejectsButContinues` | src/plugincollection.js:76-86 | a failing first entry rejects the call with its error, but the later entry is still registered, and the failed one stays loading |
| `Scenarios.NotAPluginRejects` | src/plugincollection.js:107-120 | a requested non-plugin rejects with `plugincollection-instance`, and its requires are not visited |

## Left out

- Promises, microtasks and unhandled rejections. `load` runs as a synchronous
  call whose result says how the promise settles. The rejection value is a
  `LoadError` (the constructor and the kind of error), not the thrown
  object itself.
- `log.error` (line 83) runs in a `.catch` reaction, so every call of it
  happens after the whole walk and after every `_add` of the call. A
  `Threw` event marks where the rejection arises, not when it is logged.
  The order of the log calls relative to `_add` is not modelled.
- Constructors are function values. A `null` or `undefined` entry, for
  instance in a `requires` list left incomplete by a circular import, makes
  line 108 throw a `TypeError` instead of the `plugincollection-instance`
  error. The model reports it as `NotAPlugin`. The effect on the state is
  the same: the entry joins `loading` and is never registered.
- The `instanceof Plugin` prototype test and the bodies of plugin
  constructors are foreign code. They are abstract descriptor fields:
  `isPlugin`, `required` and `ctorThrows`.
- Constructors are identified by natural numbers. A constructor's
  `requires` list is assumed not to change during a call.
- The editor is an opaque class that the collection only passes on.
- `Collection.PluginCollection.Entries`: returns the pairs as a list rather
  than a live `Map` iterator, so changes made to the collection while an
  iterator is in use are not modelled.
- `Collection.PluginCollection.LoadPlugin`: the code tests `get(...)` for
  truthiness. The model tests whether the key is present. The two differ
  only if `_add` stored a falsy value, which `load` never does.
- `src/editor/utils/dataapimixin.js` and `tests/manual/block/block.js` are not
  part of this model. They delegate to, or wire up, engine APIs that are
  outside the collection.
