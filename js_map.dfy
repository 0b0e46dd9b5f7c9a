/** The ECMAScript `Map` that stores a plugin collection, described by the
    sequence of `set(key, value)` calls made on it so far. */
module JsMap {
  import opened Wrappers

  /** The map that a sequence of `set` calls leaves behind. */
  function Replay<K, V>(h: seq<(K, V)>): map<K, V>
  {
    if h == [] then map[]
    else Replay(h[..|h| - 1])[h[|h| - 1].0 := h[|h| - 1].1]
  }

  /** The keys in the order a `Map` iterates them: a key keeps the position
      of its first `set`; setting it again replaces only its value. */
  function InsertionOrder<K(==), V>(h: seq<(K, V)>): seq<K>
  {
    if h == [] then []
    else
      var keys := InsertionOrder(h[..|h| - 1]);
      if h[|h| - 1].0 in keys then keys else keys + [h[|h| - 1].0]
  }

  /** The value most recently stored under `k`, or `None` if `k` was never
      stored. This is the reference definition of `get`. */
  function LastStored<K(==), V>(h: seq<(K, V)>, k: K): Option<V>
  {
    if h == [] then None
    else if h[|h| - 1].0 == k then Some(h[|h| - 1].1)
    else LastStored(h[..|h| - 1], k)
  }

  /** No element of `s` occurs twice. */
  predicate Distinct<T(==)>(s: seq<T>)
  {
    forall i, j :: 0 <= i < j < |s| ==> s[i] != s[j]
  }

  /** Looking a key up in the replayed map finds the value of the most
      recent `set` of that key, and nothing for a key never set. */
  lemma {:induction false} ReplayIsLastStored<K, V>(h: seq<(K, V)>)
    ensures forall k :: LastStored(h, k) == if k in Replay(h) then Some(Replay(h)[k]) else None
  {
    if h != [] {
      ReplayIsLastStored(h[..|h| - 1]);
    }
  }

  /** Iteration order lists every key ever set, each exactly once. */
  lemma {:induction false} InsertionOrderKeys<K, V>(h: seq<(K, V)>)
    ensures Distinct(InsertionOrder(h))
    ensures forall k :: k in InsertionOrder(h) <==> LastStored(h, k).Some?
  {
    if h != [] {
      InsertionOrderKeys(h[..|h| - 1]);
    }
  }

  /** Setting keys that are pairwise distinct and not yet present leaves
      every earlier entry as it was and stores each new value under its own
      key. */
  lemma {:induction false} ReplayAddsNewKeys<K, V>(h: seq<(K, V)>, e: seq<(K, V)>)
    requires forall i, j :: 0 <= i < j < |e| ==> e[i].0 != e[j].0
    requires forall i :: 0 <= i < |e| ==> e[i].0 !in Replay(h)
    ensures forall k :: k in Replay(h) ==> k in Replay(h + e) && Replay(h + e)[k] == Replay(h)[k]
    ensures forall i :: 0 <= i < |e| ==> e[i].0 in Replay(h + e) && Replay(h + e)[e[i].0] == e[i].1
  {
    if e == [] {
      assert h + e == h;
    } else {
      var e' := e[..|e| - 1];
      ReplayAddsNewKeys(h, e');
      assert (h + e)[..|h + e| - 1] == h + e';
      assert (h + e)[|h + e| - 1] == e[|e| - 1];
    }
  }

  /** The `[key, value]` pairs of `m`, listed in the order of `keys`. */
  function EntriesOf<K(==), V>(keys: seq<K>, m: map<K, V>): seq<(K, V)>
    requires forall k :: k in keys ==> k in m
  {
    seq(|keys|, i requires 0 <= i < |keys| => (keys[i], m[keys[i]]))
  }
}
