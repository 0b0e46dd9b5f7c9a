/** Properties of one `load` call, proved about the specification in
    `LoadSpec`. */
module LoadProperties {
  import opened Wrappers
  import opened Plugins
  import opened LoadSpec

  /** An event is what the constructor's own descriptor says happens. */
  predicate Agrees(cat: Catalog, e: Event)
  {
    match e
    case Registered(c) => InstantiationError(cat, c) == None
    case Threw(c, k) => InstantiationError(cat, c) == Some(k)
  }

  /** What a walk from `t` to `u` adds: one event per constructor newly put
      in `loading`, each for a constructor neither registered nor loading
      at the start, no constructor twice, and registrations exactly for the
      `Registered` events. */
  ghost predicate Footprint(cat: Catalog, t: Trace, u: Trace)
  {
    && t.events <= u.events
    && var d := u.events[|t.events|..];
    && u.loading == t.loading + EventIds(d)
    && u.registered == t.registered + RegisteredIds(d)
    && (forall i :: 0 <= i < |d| ==> d[i].id !in t.loading && d[i].id !in t.registered && Agrees(cat, d[i]))
    && (forall i, j :: 0 <= i < j < |d| ==> d[i].id != d[j].id)
  }

  lemma FootprintEmpty(cat: Catalog, t: Trace)
    ensures Footprint(cat, t, t)
  {
  }

  lemma FootprintCompose(cat: Catalog, t: Trace, u: Trace, w: Trace)
    requires Footprint(cat, t, u) && Footprint(cat, u, w)
    ensures Footprint(cat, t, w)
  {
    var d1, d2 := u.events[|t.events|..], w.events[|u.events|..];
    var d := w.events[|t.events|..];
    assert d == d1 + d2;
    assert EventIds(d) == EventIds(d1) + EventIds(d2);
    assert RegisteredIds(d) == RegisteredIds(d1) + RegisteredIds(d2);
    forall i, j | 0 <= i < j < |d|
      ensures d[i].id != d[j].id
    {
      if i < |d1| <= j {
        assert d[i] in d1;
        assert d[j] == d2[j - |d1|];
      }
    }
  }

  /** Closing the visit of `c`: `t1` is `t` with `c` loading, the walk of
      `c`'s requirements went from `t1` to `t2`, and `c`'s own event ends it. */
  lemma FootprintClose(cat: Catalog, t: Trace, c: Id, t1: Trace, t2: Trace, e: Event, u: Trace)
    requires c !in t.loading && c !in t.registered
    requires t1 == t.(loading := t.loading + {c})
    requires Footprint(cat, t1, t2)
    requires e.id == c && Agrees(cat, e)
    requires u.events == t2.events + [e] && u.loading == t2.loading
    requires u.registered == if e.Registered? then t2.registered + {c} else t2.registered
    ensures Footprint(cat, t, u)
  {
    var d := t2.events[|t.events|..];
    assert u.events[|t.events|..] == d + [e];
    assert EventIds(d + [e]) == EventIds(d) + {c};
    assert RegisteredIds(d + [e]) == RegisteredIds(d) + if e.Registered? then {c} else {};
  }

  lemma {:induction false} VisitFootprint(cat: Catalog, c: Id, t: Trace)
    ensures var u := Visit(cat, c, t).0;
            Footprint(cat, t, u) && (c in u.registered || c in u.loading)
    decreases Remaining(cat, t.loading), 0, 0
  {
    var u := Visit(cat, c, t).0;
    if c in t.registered || c in t.loading {
      FootprintEmpty(cat, t);
    } else {
      var t1 := t.(loading := t.loading + {c});
      var d := Describe(cat, c);
      if !d.isPlugin {
        FootprintEmpty(cat, t1);
        FootprintClose(cat, t, c, t1, t1, Threw(c, NotAPlugin), u);
      } else {
        RemainingShrinks(cat, t.loading, t1.loading, c);
        var t2 := VisitAll(cat, d.required, t1).0;
        VisitAllFootprint(cat, d.required, t1);
        var e := if d.ctorThrows then Threw(c, ConstructorThrew) else Registered(c);
        FootprintClose(cat, t, c, t1, t2, e, u);
      }
    }
  }

  lemma {:induction false} VisitAllFootprint(cat: Catalog, cs: seq<Id>, t: Trace)
    ensures var u := VisitAll(cat, cs, t).0;
            Footprint(cat, t, u) && forall x :: x in cs ==> x in u.registered || x in u.loading
    decreases Remaining(cat, t.loading), 1, |cs|
  {
    if cs == [] {
      FootprintEmpty(cat, t);
    } else {
      var t1 := Visit(cat, cs[0], t).0;
      VisitFootprint(cat, cs[0], t);
      RemainingShrinks(cat, t.loading, t1.loading, cs[0]);
      VisitAllFootprint(cat, cs[1..], t1);
      var u := VisitAll(cat, cs, t).0;
      assert u == VisitAll(cat, cs[1..], t1).0;
      FootprintCompose(cat, t, t1, u);
      forall x | x in cs
        ensures x in u.registered || x in u.loading
      {
        if x != cs[0] {
          assert x in cs[1..];
        }
      }
    }
  }
}

module LoadTheorems {
  import opened Wrappers
  import opened JsMap
  import opened Plugins
  import opened LoadSpec
  import opened LoadProperties

  /** The state before any constructor of a `load` call is visited. */
  function Start(registered: set<Id>): Trace
  {
    Trace(registered, {}, [])
  }

  /** The `Registered` events list each registered constructor once, in
      order, when no constructor has two events. */
  lemma {:induction false} CreatedListsRegistrations(es: seq<Event>)
    requires forall i, j :: 0 <= i < j < |es| ==> es[i].id != es[j].id
    ensures forall x :: x in Created(es) <==> x in RegisteredIds(es)
    ensures Distinct(Created(es))
  {
    if es != [] {
      var p, e := es[..|es| - 1], es[|es| - 1];
      assert es == p + [e];
      CreatedListsRegistrations(p);
      assert RegisteredIds(es) == RegisteredIds(p) + if e.Registered? then {e.id} else {};
      forall x | x in RegisteredIds(p)
        ensures x != e.id
      {
        var f :| f in p && f.Registered? && f.id == x;
        var i :| 0 <= i < |p| && p[i] == f;
        assert es[i] == f;
      }
    }
  }

  /** Each constructor is visited at most once per call, so it is
      constructed at most once; a constructor registered before the call is
      never visited again; the call registers exactly the constructors its
      resolved list holds, with no repetition; every constructor that was
      visited, failed ones included, stays in `loading`; and every requested
      constructor ends registered or visited. */
  lemma LoadVisitsEachOnce(cat: Catalog, registered: set<Id>, requested: seq<Id>)
    ensures var u := LoadCall(cat, registered, requested).0;
            && (forall i, j :: 0 <= i < j < |u.events| ==> u.events[i].id != u.events[j].id)
            && (forall i :: 0 <= i < |u.events| ==> u.events[i].id !in registered && Agrees(cat, u.events[i]))
            && Distinct(Created(u.events))
            && (forall x :: x in u.registered <==> x in registered || x in Created(u.events))
            && u.loading == EventIds(u.events)
            && (forall x :: x in requested ==> x in registered || x in u.loading)
  {
    var t := Start(registered);
    var u := LoadCall(cat, registered, requested).0;
    VisitAllFootprint(cat, requested, t);
    assert Footprint(cat, t, u);
    assert u.events[|t.events|..] == u.events;
    assert u.loading == EventIds(u.events);
    assert u.registered == registered + RegisteredIds(u.events);
    CreatedListsRegistrations(u.events);
  }

  /** A constructor that is not a plugin, or whose constructor throws, is
      never registered by `load`; if it was visited it stays in `loading`
      with the matching error recorded. */
  lemma FailingConstructorNeverRegistered(cat: Catalog, registered: set<Id>, requested: seq<Id>, x: Id)
    requires x !in registered && InstantiationError(cat, x).Some?
    ensures var u := LoadCall(cat, registered, requested).0;
            && x !in u.registered
            && (x in u.loading <==> Threw(x, InstantiationError(cat, x).value) in u.events)
  {
    LoadVisitsEachOnce(cat, registered, requested);
    var u := LoadCall(cat, registered, requested).0;
    forall i | 0 <= i < |u.events| && u.events[i].id == x
      ensures u.events[i] == Threw(x, InstantiationError(cat, x).value)
    {
      assert Agrees(cat, u.events[i]);
    }
    assert x !in RegisteredIds(u.events);
    CreatedListsRegistrations(u.events);
    if x in u.loading {
      var e :| e in u.events && e.id == x;
      var i :| 0 <= i < |u.events| && u.events[i] == e;
    }
  }

  lemma {:induction false} VisitAllSkipsRegistered(cat: Catalog, cs: seq<Id>, t: Trace)
    requires forall x :: x in cs ==> x in t.registered
    ensures VisitAll(cat, cs, t).0 == t
    ensures forall i :: 0 <= i < |cs| ==> VisitAll(cat, cs, t).1[i] == Skipped
    decreases |cs|
  {
    if cs != [] {
      assert cs[0] in cs;
      assert Visit(cat, cs[0], t) == (t, Skipped);
      VisitAllSkipsRegistered(cat, cs[1..], t);
    }
  }

  /** Requesting constructors that are all registered already changes
      nothing: no constructor is visited, nothing is created, and the call
      resolves. */
  lemma ReloadIsNoOp(cat: Catalog, registered: set<Id>, requested: seq<Id>)
    requires forall x :: x in requested ==> x in registered
    ensures var (u, sts) := LoadCall(cat, registered, requested);
            u.registered == registered && u.events == [] && Created(u.events) == []
            && FirstRejection(sts) == None
  {
    assert [] == Created([]);
    VisitAllSkipsRegistered(cat, requested, Start(registered));
  }

  lemma {:induction false} VisitAllAt(cat: Catalog, cs: seq<Id>, t: Trace, i: nat)
    requires i < |cs|
    ensures VisitAll(cat, cs, t).1[i] == Visit(cat, cs[i], VisitAll(cat, cs[..i], t).0).1
    decreases |cs|
  {
    var t1 := Visit(cat, cs[0], t).0;
    if i == 0 {
      assert cs[..0] == [];
    } else {
      VisitAllAt(cat, cs[1..], t1, i - 1);
      assert cs[..i][0] == cs[0] && cs[..i][1..] == cs[1..][..i - 1];
    }
  }

  /** `map` processes every requested entry. Entry `i` is skipped exactly
      when its constructor is registered or loading after the entries
      before it; otherwise it settles by its own descriptor alone, whatever
      became of its requirements. With `FirstRejection`, the call rejects if
      and only if some entry that was not skipped failed. */
  lemma TopLevelStatuses(cat: Catalog, registered: set<Id>, requested: seq<Id>)
    ensures var sts := LoadCall(cat, registered, requested).1;
            && |sts| == |requested|
            && forall i :: 0 <= i < |requested| ==>
                 var p := LoadCall(cat, registered, requested[..i]).0;
                 sts[i] == if requested[i] in p.registered || requested[i] in p.loading
                           then Skipped else StatusOf(cat, requested[i])
  {
    forall i | 0 <= i < |requested|
      ensures var p := LoadCall(cat, registered, requested[..i]).0;
              LoadCall(cat, registered, requested).1[i]
                == if requested[i] in p.registered || requested[i] in p.loading
                   then Skipped else StatusOf(cat, requested[i])
    {
      VisitAllAt(cat, requested, Start(registered), i);
    }
  }
}

/** For an acyclic `requires` graph, every requirement of a plugin has
    settled before the plugin itself is constructed and registered. */
module DependencyOrder {
  import opened Wrappers
  import opened JsMap
  import opened Plugins
  import opened LoadSpec
  import opened LoadProperties
  import opened LoadTheorems

  /** While a `load` call runs, the registered constructors are those of
      before the call plus the `Registered` events, and every loading
      constructor has settled or is on the stack of constructors whose
      instantiation is under way. */
  ghost predicate InFlight(t: Trace, base: set<Id>, stack: set<Id>)
  {
    t.registered == base + RegisteredIds(t.events) && t.loading <= EventIds(t.events) + stack
  }

  /** Every requirement of `c` was registered before the call or has an
      event among `prior`. */
  ghost predicate RequirementsSettled(cat: Catalog, base: set<Id>, prior: seq<Event>, c: Id)
  {
    forall r :: r in Describe(cat, c).required ==> r in base || r in EventIds(prior)
  }

  ghost predicate DependenciesFirst(cat: Catalog, base: set<Id>, es: seq<Event>)
  {
    forall i :: 0 <= i < |es| && es[i].Registered? ==> RequirementsSettled(cat, base, es[..i], es[i].id)
  }

  lemma AppendEvent(cat: Catalog, base: set<Id>, es: seq<Event>, e: Event)
    requires DependenciesFirst(cat, base, es)
    requires e.Registered? ==> RequirementsSettled(cat, base, es, e.id)
    ensures DependenciesFirst(cat, base, es + [e])
    ensures EventIds(es + [e]) == EventIds(es) + {e.id}
    ensures RegisteredIds(es + [e]) == RegisteredIds(es) + if e.Registered? then {e.id} else {}
  {
    var es' := es + [e];
    forall i | 0 <= i < |es'| && es'[i].Registered?
      ensures RequirementsSettled(cat, base, es'[..i], es'[i].id)
    {
      if i < |es| {
        assert es'[..i] == es[..i] && es'[i] == es[i];
      } else {
        assert es'[..i] == es;
      }
    }
  }

  /** When `c` is constructed, none of its requirements can still be on the
      stack, since their levels are below `c`'s. */
  lemma SettledAtConstruction(cat: Catalog, level: Id -> nat, base: set<Id>, stack: set<Id>,
                              c: Id, t2: Trace)
    requires Leveled(cat, level) && c in cat && cat[c].isPlugin
    requires forall s :: s in stack ==> level(c) < level(s)
    requires InFlight(t2, base, stack + {c})
    requires forall r :: r in cat[c].required ==> r in t2.registered || r in t2.loading
    ensures RequirementsSettled(cat, base, t2.events, c)
  {
    forall r | r in Describe(cat, c).required
      ensures r in base || r in EventIds(t2.events)
    {
      assert level(r) < level(c);
      assert RegisteredIds(t2.events) <= EventIds(t2.events);
    }
  }

  /** Closing the visit of `c` with its own event takes `c` off the stack. */
  lemma CloseVisit(cat: Catalog, base: set<Id>, stack: set<Id>, c: Id, t2: Trace, e: Event, u: Trace)
    requires InFlight(t2, base, stack + {c}) && DependenciesFirst(cat, base, t2.events)
    requires e.id == c && (e.Registered? ==> RequirementsSettled(cat, base, t2.events, c))
    requires u.events == t2.events + [e] && u.loading == t2.loading
    requires u.registered == if e.Registered? then t2.registered + {c} else t2.registered
    ensures InFlight(u, base, stack) && DependenciesFirst(cat, base, u.events)
  {
    AppendEvent(cat, base, t2.events, e);
  }

  lemma {:induction false} VisitDependenciesFirst(cat: Catalog, level: Id -> nat, base: set<Id>,
                                                  stack: set<Id>, c: Id, t: Trace)
    requires Leveled(cat, level)
    requires InFlight(t, base, stack) && DependenciesFirst(cat, base, t.events)
    requires forall s :: s in stack ==> level(c) < level(s)
    ensures var u := Visit(cat, c, t).0;
            InFlight(u, base, stack) && DependenciesFirst(cat, base, u.events)
    decreases Remaining(cat, t.loading), 0, 0
  {
    if c !in t.registered && c !in t.loading {
      var t1 := t.(loading := t.loading + {c});
      var d := Describe(cat, c);
      var u := Visit(cat, c, t).0;
      if !d.isPlugin {
        CloseVisit(cat, base, stack, c, t1, Threw(c, NotAPlugin), u);
      } else {
        RemainingShrinks(cat, t.loading, t1.loading, c);
        var t2 := VisitAll(cat, d.required, t1).0;
        forall x, s | x in d.required && s in stack + {c}
          ensures level(x) < level(s)
        {
          assert level(x) < level(c);
        }
        VisitAllDependenciesFirst(cat, level, base, stack + {c}, d.required, t1);
        if d.ctorThrows {
          CloseVisit(cat, base, stack, c, t2, Threw(c, ConstructorThrew), u);
        } else {
          VisitAllFootprint(cat, d.required, t1);
          SettledAtConstruction(cat, level, base, stack, c, t2);
          CloseVisit(cat, base, stack, c, t2, Registered(c), u);
        }
      }
    }
  }

  lemma {:induction false} VisitAllDependenciesFirst(cat: Catalog, level: Id -> nat, base: set<Id>,
                                                     stack: set<Id>, cs: seq<Id>, t: Trace)
    requires Leveled(cat, level)
    requires InFlight(t, base, stack) && DependenciesFirst(cat, base, t.events)
    requires forall x, s :: x in cs && s in stack ==> level(x) < level(s)
    ensures var u := VisitAll(cat, cs, t).0;
            InFlight(u, base, stack) && DependenciesFirst(cat, base, u.events)
    decreases Remaining(cat, t.loading), 1, |cs|
  {
    if cs != [] {
      var t1 := Visit(cat, cs[0], t).0;
      assert cs[0] in cs;
      VisitDependenciesFirst(cat, level, base, stack, cs[0], t);
      RemainingShrinks(cat, t.loading, t1.loading, cs[0]);
      forall x, s | x in cs[1..] && s in stack
        ensures level(x) < level(s)
      {
        assert x in cs;
      }
      VisitAllDependenciesFirst(cat, level, base, stack, cs[1..], t1);
    }
  }

  /** In a `load` call over an acyclic `requires` graph, when a plugin is
      registered each of its requirements was registered before the call or
      has already been registered or has failed in this call. (In a cycle
      A -> B -> A, B is registered while A is still loading.) */
  lemma RequirementsSettleFirst(cat: Catalog, level: Id -> nat, registered: set<Id>, requested: seq<Id>)
    requires Leveled(cat, level)
    ensures DependenciesFirst(cat, registered, LoadCall(cat, registered, requested).0.events)
  {
    VisitAllDependenciesFirst(cat, level, registered, {}, requested, Start(registered));
  }

  /** The same, for a requirement whose own instantiation succeeds: it is in
      the collection before the plugin that requires it is constructed. */
  lemma RequirementsRegisteredFirst(cat: Catalog, level: Id -> nat, registered: set<Id>,
                                    requested: seq<Id>, i: nat, r: Id)
    requires Leveled(cat, level)
    requires var es := LoadCall(cat, registered, requested).0.events;
             i < |es| && es[i].Registered? && r in Describe(cat, es[i].id).required
    requires InstantiationError(cat, r).None?
    ensures var es := LoadCall(cat, registered, requested).0.events;
            r in registered || r in Created(es[..i])
  {
    var es := LoadCall(cat, registered, requested).0.events;
    RequirementsSettleFirst(cat, level, registered, requested);
    LoadVisitsEachOnce(cat, registered, requested);
    if r !in registered {
      assert RequirementsSettled(cat, registered, es[..i], es[i].id);
      var e :| e in es[..i] && e.id == r;
      var j :| 0 <= j < i && es[..i][j] == e;
      assert Agrees(cat, es[j]);
      CreatedListsRegistrations(es[..i]);
    }
  }
}
