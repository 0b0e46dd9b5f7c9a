/** What the loader can observe of the values it is asked to load: plugin
    constructors, named by an identity, with their `requires` lists. */
module Plugins {
  import opened Wrappers

  /** The identity of a constructor value, the key of the collection. */
  type Id = nat

  /** A constructor as the loader sees it: whether its prototype is a
      `Plugin`, its `requires` list (empty when absent), and whether
      `new` on it throws. */
  datatype Descriptor = Descriptor(isPlugin: bool, required: seq<Id>, ctorThrows: bool)

  /** The constructors a program defines. */
  type Catalog = map<Id, Descriptor>

  /** A value the catalog does not describe is not a plugin constructor. */
  function Describe(cat: Catalog, c: Id): (d: Descriptor)
    ensures d.isPlugin ==> c in cat
  {
    if c in cat then cat[c] else Descriptor(false, [], false)
  }

  /** `plugincollection-instance` (the prototype is not a `Plugin`) or an
      exception raised by the plugin's own constructor. */
  datatype ErrorKind = NotAPlugin | ConstructorThrew

  datatype LoadError = LoadError(plugin: Id, kind: ErrorKind)

  /** The error that instantiating `c` raises, if any. */
  function InstantiationError(cat: Catalog, c: Id): Option<ErrorKind>
  {
    if !Describe(cat, c).isPlugin then Some(NotAPlugin)
    else if Describe(cat, c).ctorThrows then Some(ConstructorThrew)
    else None
  }

  /** The `requires` graph among plugins is acyclic, witnessed by a level
      that strictly decreases along every `requires` edge. */
  ghost predicate Leveled(cat: Catalog, level: Id -> nat)
  {
    forall c, r :: c in cat && cat[c].isPlugin && r in cat[c].required ==> level(r) < level(c)
  }
}
