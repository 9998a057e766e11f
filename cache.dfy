/** The key-value cache used by the login guard for its per-IP counters.
    Timeouts are kept as absolute expiry instants and checked lazily on read:
    an entry is gone once `now >= expiresAt`. */
module KeyValueCache {
  import opened Common

  datatype Value = Count(n: int) | Flag(b: bool)

  datatype Entry = Entry(value: Value, expiresAt: Time)

  /** `cache.get(key)`: the value of a live entry, if any. */
  function Lookup(entries: map<string, Entry>, key: string, now: Time): (v: Option<Value>)
    ensures v.Some? <==> key in entries && now < entries[key].expiresAt
  {
    if key in entries && now < entries[key].expiresAt then Some(entries[key].value) else None
  }

  /** Python truthiness of a cached value; a missing value is falsy. */
  predicate IsSet(v: Option<Value>) {
    match v
    case None => false
    case Some(Count(n)) => n != 0
    case Some(Flag(b)) => b
  }

  /** `cache.get(key, 0)` used as a number (a stored bool counts as 0 or 1, as in Python). */
  function CountOrZero(v: Option<Value>): int {
    match v
    case None => 0
    case Some(Count(n)) => n
    case Some(Flag(b)) => if b then 1 else 0
  }

  class Cache {
    var entries: map<string, Entry>

    constructor ()
      ensures entries == map[]
    {
      entries := map[];
    }

    method Get(key: string, now: Time) returns (v: Option<Value>)
      ensures v == Lookup(entries, key, now)
    {
      v := Lookup(entries, key, now);
    }

    /** `cache.set(key, value, timeout=t)` */
    method Set(key: string, v: Value, timeout: int, now: Time)
      modifies this`entries
      ensures entries == old(entries)[key := Entry(v, now + timeout)]
    {
      entries := entries[key := Entry(v, now + timeout)];
    }

    /** `cache.delete(key)` */
    method Delete(key: string)
      modifies this`entries
      ensures entries == old(entries) - {key}
    {
      entries := entries - {key};
    }
  }
}
