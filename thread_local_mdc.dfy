/**
 * `support.ThreadLocalMDC`: the calling thread's diagnostic context, a
 * `HashMap` from keys to values in which both may be null. The model is
 * one thread's map; `None` stands for null.
 */
module ThreadLocalMdc {
  import opened Wrappers

  type Key = Option<string>
  type Value = Option<string>

  /** `HashMap.get`: the stored value, or null for an absent key. */
  function Lookup(m: map<Key, Value>, key: Key): (v: Value)
    ensures key !in m ==> v.None?
    ensures v.Some? ==> key in m && m[key] == v
  {
    if key in m then m[key] else None
  }

  /** One thread's `MDC_HOLDER` value. */
  class ThreadLocalMdc {
    var context: map<Key, Value>

    /** `ThreadLocal.withInitial(HashMap::new)`: a thread starts with an empty map. */
    constructor()
      ensures context == map[]
    {
      context := map[];
    }

    /**
     * `put`: a null key is refused with `IllegalArgumentException` and
     * nothing changes; otherwise the key maps to the value, even a null
     * one, and every other key keeps its entry.
     */
    method Put(key: Key, value: Value) returns (r: Result<(), string>)
      modifies this
      ensures key.None? ==> r == Err("Key cannot be null") && context == old(context)
      ensures key.Some? ==> r.Ok? && key in context && context[key] == value
      ensures key.Some? ==> context.Keys == old(context).Keys + {key}
      ensures key.Some? ==> forall k :: k in old(context) && k != key ==> k in context && context[k] == old(context)[k]
      ensures key.Some? ==> Lookup(context, key) == value
      ensures key.Some? ==> forall k :: k != key ==> Lookup(context, k) == Lookup(old(context), k)
    {
      if key.None? {
        return Err("Key cannot be null");
      }
      context := context[key := value];
      r := Ok(());
    }

    /** `get`: the value stored under the key, or null when it is absent. */
    method Get(key: Key) returns (v: Value)
      ensures v == Lookup(context, key)
    {
      v := Lookup(context, key);
    }

    /** `remove`: returns what `get` would have returned; afterwards the key is absent and the rest is unchanged. */
    method Remove(key: Key) returns (previous: Value)
      modifies this
      ensures previous == Lookup(old(context), key)
      ensures key !in context
      ensures context == old(context) - {key}
    {
      previous := Lookup(context, key);
      context := context - {key};
    }

    /** `clear`: no entries are left. */
    method Clear()
      modifies this
      ensures context == map[]
    {
      context := map[];
    }

    /** `getCopyOfContextMap`: a copy, equal to the map now; later updates replace `context` and leave the copy as it was. */
    method GetCopyOfContextMap() returns (snapshot: map<Key, Value>)
      ensures snapshot == context
    {
      snapshot := context;
    }

    /**
     * `setContextMap`: null removes the thread's map, so the next access
     * starts again from an empty one; otherwise the argument is copied.
     */
    method SetContextMap(contextMap: Option<map<Key, Value>>)
      modifies this
      ensures contextMap.None? ==> context == map[]
      ensures contextMap.Some? ==> context == contextMap.value
    {
      match contextMap
      case None => context := map[];
      case Some(m) => context := m;
    }

    /** `containsKey`: true for a key mapped to null as well. */
    method ContainsKey(key: Key) returns (b: bool)
      ensures b <==> key in context
    {
      b := key in context;
    }

    /** `size`: the number of keys. */
    method Size() returns (n: nat)
      ensures n == |context.Keys|
    {
      n := |context|;
    }

    /** `isEmpty`: there is no key. */
    method IsEmpty() returns (b: bool)
      ensures b <==> context == map[]
    {
      b := |context| == 0;
    }
  }
}
