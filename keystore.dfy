/**
 * The shared Redis store the crypto manager keeps its keys in: a map from key to value and
 * optional expiry time, read against an explicit clock. Expiry is passive: an entry whose
 * time has come is simply no longer seen.
 */
module KeyStore {
  import opened Wrappers

  datatype Entry = Entry(value: string, expiresAt: Option<int>)

  type Entries = map<string, Entry>

  /** An entry is visible until its expiry time (exclusive); one without expiry is always visible. */
  predicate Live(e: Entry, now: int) {
    e.expiresAt.None? || now < e.expiresAt.value
  }

  /** Redis GET: the stored value, or None when the key is missing or has expired. */
  function Get(entries: Entries, now: int, key: string): (r: Option<string>)
    ensures r.Some? <==> key in entries && Live(entries[key], now)
    ensures r.Some? ==> r.value == entries[key].value
  {
    if key in entries && Live(entries[key], now) then Some(entries[key].value) else None
  }

  /** Redis EXISTS for one key. */
  predicate Exists(entries: Entries, now: int, key: string) {
    Get(entries, now, key).Some?
  }

  /** Redis SET, with `EX ttl` when `ttl` is given; a SET without EX clears any earlier expiry. */
  function Put(entries: Entries, now: int, key: string, value: string, ttl: Option<nat>): (r: Entries)
    ensures r.Keys == entries.Keys + {key}
    ensures forall k :: k in entries && k != key ==> r[k] == entries[k]
  {
    entries[key := Entry(value, if ttl.Some? then Some(now + ttl.value) else None)]
  }

  /** Read-your-writes: the written key shows the new value until its time to live runs out; every other key reads as before. */
  lemma GetPut(entries: Entries, written: int, key: string, value: string, ttl: Option<nat>, now: int, k: string)
    ensures Get(Put(entries, written, key, value, ttl), now, k) ==
      if k != key then Get(entries, now, k)
      else if ttl.None? || now < written + ttl.value then Some(value)
      else None
  {
  }

  /** The Redis server as seen through one client connection. */
  class RedisStore {
    var entries: Entries
    /** The store's clock, in seconds. */
    var now: int

    constructor(entries: Entries, now: int)
      ensures this.entries == entries && this.now == now
    {
      this.entries := entries;
      this.now := now;
    }

    /** `r.set(key, value)` or `r.set(key, value, ex=ttl)`. */
    method Set(key: string, value: string, ttl: Option<nat>)
      modifies this
      ensures entries == Put(old(entries), old(now), key, value, ttl)
      ensures now == old(now)
    {
      entries := Put(entries, now, key, value, ttl);
    }

    /** Time passing on the store's clock; entries are never removed, only hidden by expiry. */
    method Tick(seconds: nat)
      modifies this
      ensures now == old(now) + seconds
      ensures entries == old(entries)
    {
      now := now + seconds;
    }
  }
}
