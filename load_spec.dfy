/** What one call of `PluginCollection#load` does, as a function of the
    state it starts from. The promise executors of `load` run synchronously,
    so the call is a depth-first recursion over three pieces of state: the
    registered constructors, the per-call `loading` set and the per-call
    list of what happened to each constructor visited. */
module LoadSpec {
  import opened Wrappers
  import opened Plugins

  /** What happened to a constructor that was not skipped: it was
      registered, or its instantiation raised an error. */
  datatype Event = Registered(id: Id) | Threw(id: Id, kind: ErrorKind)

  /** The settlement of one `loadPlugin` call: skipped (it returns
      `undefined`), loaded, or rejected with an error. */
  datatype Status = Skipped | Loaded | Failed(error: LoadError)

  /** The keys of `_plugins`, the `loading` set, and the events so far. */
  datatype Trace = Trace(registered: set<Id>, loading: set<Id>, events: seq<Event>)

  /** Nothing is ever removed: registrations and `loading` only grow, and
      events are only appended. */
  predicate Grows(t: Trace, u: Trace)
  {
    t.registered <= u.registered && t.loading <= u.loading && t.events <= u.events
  }

  /** The termination measure: catalogued constructors not yet loading. */
  function Remaining(cat: Catalog, loading: set<Id>): nat
  {
    |cat.Keys - loading|
  }

  lemma RemainingShrinks(cat: Catalog, loading: set<Id>, more: set<Id>, c: Id)
    requires loading <= more
    ensures Remaining(cat, more) <= Remaining(cat, loading)
    ensures c in cat && c !in loading && c in more ==> Remaining(cat, more) < Remaining(cat, loading)
  {
    var a, b := cat.Keys - more, cat.Keys - loading;
    assert b == a + (b - a);
    assert a * (b - a) == {};
    if c in cat && c !in loading && c in more {
      assert c in b - a;
    }
  }

  /** `loadPlugin(c)`: skip a constructor already registered or already
      loading; otherwise mark it loading, check it is a plugin, visit its
      `requires` (discarding their outcomes), construct and register it. */
  function Visit(cat: Catalog, c: Id, t: Trace): (r: (Trace, Status))
    ensures Grows(t, r.0)
    decreases Remaining(cat, t.loading), 0, 0
  {
    if c in t.registered || c in t.loading then (t, Skipped)
    else
      var t1 := t.(loading := t.loading + {c});
      var d := Describe(cat, c);
      if !d.isPlugin then
        (t1.(events := t1.events + [Threw(c, NotAPlugin)]), Failed(LoadError(c, NotAPlugin)))
      else
        RemainingShrinks(cat, t.loading, t1.loading, c);
        var t2 := VisitAll(cat, d.required, t1).0;
        if d.ctorThrows then
          (t2.(events := t2.events + [Threw(c, ConstructorThrew)]), Failed(LoadError(c, ConstructorThrew)))
        else
          (t2.(registered := t2.registered + {c}, events := t2.events + [Registered(c)]), Loaded)
  }

  /** `cs.map(loadPlugin)`: visit each constructor in turn, collecting each
      one's status (`forEach` over `requires` is the same walk with the
      statuses thrown away). */
  function VisitAll(cat: Catalog, cs: seq<Id>, t: Trace): (r: (Trace, seq<Status>))
    ensures Grows(t, r.0) && |r.1| == |cs|
    decreases Remaining(cat, t.loading), 1, |cs|
  {
    if cs == [] then (t, [])
    else
      var (t1, s) := Visit(cat, cs[0], t);
      RemainingShrinks(cat, t.loading, t1.loading, cs[0]);
      var (t2, ss) := VisitAll(cat, cs[1..], t1);
      (t2, [s] + ss)
  }

  /** One whole `load(requested)` call on a collection holding `registered`. */
  function LoadCall(cat: Catalog, registered: set<Id>, requested: seq<Id>): (Trace, seq<Status>)
  {
    VisitAll(cat, requested, Trace(registered, {}, []))
  }

  /** `Promise.all` rejects with the error of the first top-level entry that
      failed (the `catch` handlers run in the order they were attached). */
  function FirstRejection(sts: seq<Status>): (r: Option<LoadError>)
    ensures r.None? <==> forall i :: 0 <= i < |sts| ==> !sts[i].Failed?
    ensures r.Some? ==> exists i :: 0 <= i < |sts| && sts[i] == Failed(r.value)
                                     && forall j :: 0 <= j < i ==> !sts[j].Failed?
  {
    if sts == [] then None
    else if sts[0].Failed? then Some(sts[0].error)
    else
      var r := FirstRejection(sts[1..]);
      assert r.Some? ==> exists i :: 0 < i < |sts| && sts[i] == Failed(r.value)
                                     && forall j :: 0 <= j < i ==> !sts[j].Failed?;
      r
  }

  /** The status a constructor that is visited (not skipped) settles with. */
  function StatusOf(cat: Catalog, c: Id): Status
  {
    match InstantiationError(cat, c)
    case None => Loaded
    case Some(k) => Failed(LoadError(c, k))
  }

  /** The constructors registered by these events, in registration order. */
  function Created(es: seq<Event>): seq<Id>
  {
    if es == [] then []
    else Created(es[..|es| - 1]) + if es[|es| - 1].Registered? then [es[|es| - 1].id] else []
  }

  function EventIds(es: seq<Event>): set<Id>
  {
    set e | e in es :: e.id
  }

  function RegisteredIds(es: seq<Event>): set<Id>
  {
    set e | e in es && e.Registered? :: e.id
  }

  /** One step of a loop over `cs`: the walk over the first `i` entries
      followed by a visit of entry `i` is the walk over the first `i + 1`. */
  lemma WalkStep(cat: Catalog, cs: seq<Id>, i: nat, t0: Trace, t: Trace, sts: seq<Status>, u: Trace, st: Status)
    requires i < |cs|
    requires VisitAll(cat, cs[..i], t0) == (t, sts)
    requires Visit(cat, cs[i], t) == (u, st)
    ensures VisitAll(cat, cs[..i + 1], t0) == (u, sts + [st])
  {
    VisitAllSnoc(cat, cs[..i], cs[i], t0);
    assert cs[..i + 1] == cs[..i] + [cs[i]];
  }

  /** Recording one more event extends `Created` by that event's id when
      it is a registration. */
  lemma CreatedPush(es: seq<Event>, e: Event)
    ensures Created(es + [e]) == Created(es) + if e.Registered? then [e.id] else []
  {
  }

  /** The outcome of visiting a constructor that is neither registered nor
      loading, in terms of the walk over its requirements. */
  lemma VisitUnfolds(cat: Catalog, c: Id, t: Trace)
    requires c !in t.registered && c !in t.loading
    ensures var t1 := t.(loading := t.loading + {c});
            var d := Describe(cat, c);
            Visit(cat, c, t) ==
              if !d.isPlugin then
                (t1.(events := t1.events + [Threw(c, NotAPlugin)]), Failed(LoadError(c, NotAPlugin)))
              else
                var t2 := VisitAll(cat, d.required, t1).0;
                if d.ctorThrows then
                  (t2.(events := t2.events + [Threw(c, ConstructorThrew)]), Failed(LoadError(c, ConstructorThrew)))
                else
                  (t2.(registered := t2.registered + {c}, events := t2.events + [Registered(c)]), Loaded)
  {
  }

  /** Visiting one more constructor after a list extends the walk over the
      list by one step: the loops of `load` follow `VisitAll` this way. */
  lemma {:induction false} VisitAllSnoc(cat: Catalog, cs: seq<Id>, c: Id, t: Trace)
    ensures var (u, ss) := VisitAll(cat, cs, t);
            VisitAll(cat, cs + [c], t) == (Visit(cat, c, u).0, ss + [Visit(cat, c, u).1])
    decreases |cs|
  {
    if cs == [] {
      assert cs + [c] == [c] && [c][1..] == [];
      var (t1, s) := Visit(cat, c, t);
      assert VisitAll(cat, [c][1..], t1) == (t1, []);
      assert [s] + [] == [s] && [] + [s] == [s];
      assert VisitAll(cat, [c], t) == (t1, [s]);
      assert VisitAll(cat, cs, t) == (t, []);
    } else {
      var (t1, s) := Visit(cat, cs[0], t);
      assert (cs + [c])[0] == cs[0];
      assert (cs + [c])[1..] == cs[1..] + [c];
      VisitAllSnoc(cat, cs[1..], c, t1);
      var (u, ss) := VisitAll(cat, cs[1..], t1);
      assert VisitAll(cat, cs, t) == (u, [s] + ss);
      assert [s] + (ss + [Visit(cat, c, u).1]) == ([s] + ss) + [Visit(cat, c, u).1];
    }
  }
}
