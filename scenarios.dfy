/** Small `load` calls worked through on concrete catalogues: the
    behaviours that follow from the promises being settled independently
    of one another. Constructor 1 plays `A`, 2 plays `B`, 3 is not a
    plugin. */
module Scenarios {
  import opened Wrappers
  import opened Plugins
  import opened LoadSpec

  /** Walking an empty `requires` list, or a one-element list. */
  lemma WalkShort(cat: Catalog, c: Id, t: Trace)
    ensures VisitAll(cat, [], t) == (t, [])
    ensures VisitAll(cat, [c], t) == (Visit(cat, c, t).0, [Visit(cat, c, t).1])
  {
    assert [c][1..] == [];
    assert VisitAll(cat, [], Visit(cat, c, t).0) == (Visit(cat, c, t).0, []);
    assert [Visit(cat, c, t).1] + [] == [Visit(cat, c, t).1];
  }

  /** Visiting a fresh plugin with no `requires`. */
  lemma VisitNoRequirements(cat: Catalog, c: Id, t: Trace)
    requires c !in t.registered && c !in t.loading
    requires Describe(cat, c).isPlugin && Describe(cat, c).required == []
    ensures Visit(cat, c, t) ==
              if Describe(cat, c).ctorThrows then
                (Trace(t.registered, t.loading + {c}, t.events + [Threw(c, ConstructorThrew)]), Failed(LoadError(c, ConstructorThrew)))
              else
                (Trace(t.registered + {c}, t.loading + {c}, t.events + [Registered(c)]), Loaded)
  {
  }

  /** Visiting a fresh plugin that requires exactly `r`. */
  lemma VisitOneRequirement(cat: Catalog, c: Id, r: Id, t: Trace)
    requires c !in t.registered && c !in t.loading
    requires Describe(cat, c).isPlugin && Describe(cat, c).required == [r]
    ensures var t2 := Visit(cat, r, t.(loading := t.loading + {c})).0;
            Visit(cat, c, t) ==
              if Describe(cat, c).ctorThrows then
                (t2.(events := t2.events + [Threw(c, ConstructorThrew)]), Failed(LoadError(c, ConstructorThrew)))
              else
                (t2.(registered := t2.registered + {c}, events := t2.events + [Registered(c)]), Loaded)
  {
    VisitUnfolds(cat, c, t);
    WalkShort(cat, r, t.(loading := t.loading + {c}));
  }

  /** `A` requires `B`: `B` is registered first and both are resolved. */
  lemma RequirementRegisteredBeforeDependent()
    ensures var cat: Catalog := map[1 := Descriptor(true, [2], false), 2 := Descriptor(true, [], false)];
            var (u, sts) := LoadCall(cat, {}, [1]);
            && u.events == [Registered(2), Registered(1)]
            && Created(u.events) == [2, 1]
            && u.registered == {1, 2}
            && FirstRejection(sts) == None
  {
    var cat: Catalog := map[1 := Descriptor(true, [2], false), 2 := Descriptor(true, [], false)];
    var t0 := Trace({}, {}, []);
    assert Describe(cat, 1) == cat[1] && Describe(cat, 2) == cat[2];
    VisitOneRequirement(cat, 1, 2, t0);
    var t1 := t0.(loading := {1});
    assert t0.(loading := t0.loading + {1}) == t1;
    VisitNoRequirements(cat, 2, t1);
    var t2 := Visit(cat, 2, t1).0;
    assert t2 == Trace({2}, {1, 2}, [Registered(2)]);
    assert Visit(cat, 1, t0).1 == Loaded;
    assert Visit(cat, 1, t0).0.registered == t2.registered + {1} == {1, 2};
    WalkShort(cat, 1, t0);
    CreatedPush([Registered(2)], Registered(1));
    CreatedPush([], Registered(2));
  }

  /** `A` and `B` require each other: the `loading` check ends the cycle and
      `B` is registered before `A`. */
  lemma CycleRegistersInnerFirst()
    ensures var cat: Catalog := map[1 := Descriptor(true, [2], false), 2 := Descriptor(true, [1], false)];
            var (u, sts) := LoadCall(cat, {}, [1]);
            && u.events == [Registered(2), Registered(1)]
            && u.registered == {1, 2}
            && FirstRejection(sts) == None
  {
    var cat: Catalog := map[1 := Descriptor(true, [2], false), 2 := Descriptor(true, [1], false)];
    var t0 := Trace({}, {}, []);
    assert Describe(cat, 1) == cat[1] && Describe(cat, 2) == cat[2];
    VisitOneRequirement(cat, 1, 2, t0);
    var t1 := t0.(loading := {1});
    VisitOneRequirement(cat, 2, 1, t1);
    var t2 := t1.(loading := t1.loading + {2});
    assert Visit(cat, 1, t2).0 == t2;
    var t3 := Visit(cat, 2, t1).0;
    assert t3 == Trace({2}, {1, 2}, [Registered(2)]);
    assert t0.(loading := t0.loading + {1}) == t1;
    assert Visit(cat, 1, t0).1 == Loaded;
    assert Visit(cat, 1, t0).0.registered == t3.registered + {1} == {1, 2};
    WalkShort(cat, 1, t0);
  }

  /** `A` requires `B` and `B`'s constructor throws: the error is recorded,
      yet `A` is still constructed and the call resolves. */
  lemma FailingRequirementDoesNotStopDependent()
    ensures var cat: Catalog := map[1 := Descriptor(true, [2], false), 2 := Descriptor(true, [], true)];
            var (u, sts) := LoadCall(cat, {}, [1]);
            && u.events == [Threw(2, ConstructorThrew), Registered(1)]
            && u.registered == {1}
            && FirstRejection(sts) == None
  {
    var cat: Catalog := map[1 := Descriptor(true, [2], false), 2 := Descriptor(true, [], true)];
    var t0 := Trace({}, {}, []);
    assert Describe(cat, 1) == cat[1] && Describe(cat, 2) == cat[2];
    VisitOneRequirement(cat, 1, 2, t0);
    VisitNoRequirements(cat, 2, t0.(loading := {1}));
    WalkShort(cat, 1, t0);
  }

  /** The same catalogue, requesting `B` and then `A`: `B` fails at the top
      level, so the call rejects with `B`'s error, but `A` is still
      processed and registered, and `B` stays in `loading`. */
  lemma TopLevelFailureRejectsButContinues()
    ensures var cat: Catalog := map[1 := Descriptor(true, [2], false), 2 := Descriptor(true, [], true)];
            var (u, sts) := LoadCall(cat, {}, [2, 1]);
            && u.events == [Threw(2, ConstructorThrew), Registered(1)]
            && u.registered == {1}
            && u.loading == {1, 2}
            && FirstRejection(sts) == Some(LoadError(2, ConstructorThrew))
  {
    var cat: Catalog := map[1 := Descriptor(true, [2], false), 2 := Descriptor(true, [], true)];
    var t0 := Trace({}, {}, []);
    assert Describe(cat, 1) == cat[1] && Describe(cat, 2) == cat[2];
    VisitNoRequirements(cat, 2, t0);
    var t1 := Visit(cat, 2, t0).0;
    VisitOneRequirement(cat, 1, 2, t1);
    var t2 := t1.(loading := t1.loading + {1});
    assert Visit(cat, 2, t2).0 == t2;
    WalkShort(cat, 1, t1);
    assert [2, 1][1..] == [1];
  }

  /** A requested constructor that is not a plugin rejects the call with
      `plugincollection-instance`; its requirements are never visited. */
  lemma NotAPluginRejects()
    ensures var cat: Catalog := map[3 := Descriptor(false, [1], false), 1 := Descriptor(true, [], false)];
            var (u, sts) := LoadCall(cat, {}, [3]);
            && u.events == [Threw(3, NotAPlugin)]
            && u.registered == {}
            && u.loading == {3}
            && FirstRejection(sts) == Some(LoadError(3, NotAPlugin))
  {
  }
}
