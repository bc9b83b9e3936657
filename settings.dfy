/**
 * The Config store: durable key -> value settings (Config entities, whose
 * JSON is kept already decoded) read through the cache partition that
 * Config.Get fills and Config.Set invalidates.
 */
module Settings {
  class Config<V(==)> {
    var stored: map<string, V>  // the durable Config entities
    var cached: map<string, V>  // the [Config, key] entries of the cache

    /** A cached value never contradicts the durable one. */
    ghost predicate Coherent()
      reads this
    {
      forall k :: k in cached && k in stored ==> cached[k] == stored[k]
    }

    constructor ()
      ensures stored == map[] && cached == map[]
      ensures Coherent()
    {
      stored, cached := map[], map[];
    }

    /**
     * Config.Get: a cached value if there is one; otherwise the stored
     * value, or `default` when nothing is stored, which is then cached.
     */
    method Get(key: string, default: V) returns (v: V)
      requires Coherent()
      modifies this`cached
      ensures Coherent()
      ensures key in stored ==> v == stored[key]
      ensures key !in stored ==> v == if key in old(cached) then old(cached)[key] else default
      ensures cached == old(cached)[key := v]
    {
      if key in cached {
        v := cached[key];
      } else {
        v := if key in stored then stored[key] else default;
        cached := cached[key := v];
      }
    }

    /** Config.Set: write the value durably, then drop (never update) the cached copy. */
    method Set(key: string, value: V)
      requires Coherent()
      modifies this
      ensures Coherent()
      ensures stored == old(stored)[key := value]
      ensures cached == old(cached) - {key}
    {
      stored := stored[key := value];
      cached := cached - {key};
    }
  }
}
