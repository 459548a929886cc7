/**
 * The Redis client the cache code talks to, as an object: a map from keys
 * to entries with an optional absolute expiry time, and the server's clock
 * in milliseconds. Expiry is lazy, as in Redis: an expired entry may still
 * sit in the map but every read treats it as absent.
 */
module KvStore {
  import opened Wrappers
  import opened Strings

  const MillisPerSecond: int := 1000

  /** The largest expiry time Redis can hold: it keeps them as signed 64-bit milliseconds. */
  const MaxMillis: int := 0x7FFF_FFFF_FFFF_FFFF

  /**
   * Whether SETEX accepts a ttl in seconds at time `now`: the ttl is positive,
   * its milliseconds fit in 64 bits, and so does the expiry time they give.
   * Otherwise the server replies "invalid expire time".
   */
  predicate SetExAccepts(ttl: int, now: int) {
    0 < ttl <= MaxMillis / MillisPerSecond && ttl * MillisPerSecond <= MaxMillis - now
  }

  /**
   * Whether EXPIRE accepts a time in seconds at time `now`: its milliseconds
   * fit in 64 bits either way, and so does the expiry time they give.
   */
  predicate ExpireAccepts(seconds: int, now: int) {
    -(MaxMillis / MillisPerSecond) <= seconds <= MaxMillis / MillisPerSecond && seconds * MillisPerSecond <= MaxMillis - now
  }

  datatype Entry = Entry(value: string, expiresAt: Option<int>)

  /** Redis counts a key as expired only once the clock is past its expiry time. */
  predicate IsLive(e: Entry, now: int) {
    e.expiresAt.None? || now <= e.expiresAt.value
  }

  /** What GET answers at time `now`: the value of a live entry, None for a missing or expired one. */
  function Lookup(entries: map<string, Entry>, now: int, key: string): (r: Option<string>)
    ensures r.Some? <==> key in entries && IsLive(entries[key], now)
    ensures r.Some? ==> r.value == entries[key].value
  {
    if key in entries && IsLive(entries[key], now) then Some(entries[key].value) else None
  }

  /** What KEYS "prefix*" answers: every live key that starts with the prefix. */
  function LiveKeysWithPrefix(entries: map<string, Entry>, now: int, prefix: string): (ks: set<string>)
    ensures forall k :: k in ks <==> k in entries && IsLive(entries[k], now) && HasPrefix(k, prefix)
  {
    set k | k in entries && IsLive(entries[k], now) && HasPrefix(k, prefix)
  }

  /** The two maps agree at `key`: both lack it or both hold the same entry. */
  predicate SameAt(m: map<string, Entry>, m': map<string, Entry>, key: string) {
    (key in m <==> key in m') && (key in m ==> m[key] == m'[key])
  }

  /** GET after a write: the written key answers the new value until it expires; every other key is unaffected. */
  lemma LookupAfterSet(entries: map<string, Entry>, key: string, value: string, expiry: int, now: int, k: string)
    ensures Lookup(entries[key := Entry(value, Some(expiry))], now, k) ==
      if k != key then Lookup(entries, now, k) else if now <= expiry then Some(value) else None
  {
  }

  /**
   * KEYS "prefix*" followed by DEL of the answer: no key with the prefix is
   * readable any more, and every other key reads as before.
   */
  lemma LookupAfterDeletePrefix(entries: map<string, Entry>, now: int, prefix: string, k: string)
    ensures Lookup(entries - LiveKeysWithPrefix(entries, now, prefix), now, k) ==
      if HasPrefix(k, prefix) then None else Lookup(entries, now, k)
  {
  }

  /** An entry that is expired at some time stays expired later. */
  lemma ExpiredStaysExpired(entries: map<string, Entry>, key: string, t: int, t': int)
    requires t <= t' && Lookup(entries, t, key).None?
    ensures Lookup(entries, t', key).None?
  {
  }

  class Store {
    var entries: map<string, Entry>
    var clock: int

    constructor ()
      ensures entries == map[] && clock == 0
    {
      entries := map[];
      clock := 0;
    }

    /** GET key */
    method Get(key: string) returns (v: Option<string>)
      ensures v == Lookup(entries, clock, key)
    {
      if key in entries && IsLive(entries[key], clock) {
        v := Some(entries[key].value);
      } else {
        v := None;
      }
    }

    /**
     * SETEX key ttl value: overwrite unconditionally, expiring `ttl` seconds
     * from now. The server refuses a ttl it cannot hold (`SetExAccepts`)
     * with an error reply and changes nothing; `ok` tells which happened.
     */
    method SetEx(key: string, ttl: int, value: string) returns (ok: bool)
      modifies this
      ensures ok <==> SetExAccepts(ttl, clock)
      ensures entries == if ok then old(entries)[key := Entry(value, Some(clock + ttl * MillisPerSecond))] else old(entries)
      ensures clock == old(clock)
      ensures ok ==> Lookup(entries, clock, key) == Some(value)
    {
      ok := SetExAccepts(ttl, clock);
      if ok {
        entries := entries[key := Entry(value, Some(clock + ttl * MillisPerSecond))];
      }
    }

    /** SETNX key value: store without expiry only when no live value exists; answers whether it stored. */
    method SetNx(key: string, value: string) returns (stored: bool)
      modifies this
      ensures stored <==> Lookup(old(entries), clock, key).None?
      ensures entries == if stored then old(entries)[key := Entry(value, None)] else old(entries)
      ensures clock == old(clock)
    {
      stored := !(key in entries && IsLive(entries[key], clock));
      if stored {
        entries := entries[key := Entry(value, None)];
      }
    }

    /**
     * EXPIRE key seconds: give a live key a new time to live; a non-positive
     * one deletes it. Answers whether the key was live. A time the server
     * cannot hold (`ExpireAccepts`) is refused with an error reply, which
     * the client raises as ResponseError, before the key is looked at.
     */
    method Expire(key: string, seconds: int) returns (r: Result<bool, Exception>)
      modifies this
      ensures r.Err? <==> !ExpireAccepts(seconds, clock)
      ensures r.Err? ==> r.error == ResponseError
      ensures r.Ok? ==> (r.value <==> Lookup(old(entries), clock, key).Some?)
      ensures r != Ok(true) ==> entries == old(entries)
      ensures r == Ok(true) && seconds <= 0 ==> entries == old(entries) - {key}
      ensures r == Ok(true) && seconds > 0 ==>
        entries == old(entries)[key := Entry(old(entries)[key].value, Some(clock + seconds * MillisPerSecond))]
      ensures clock == old(clock)
    {
      if !ExpireAccepts(seconds, clock) {
        return Err(ResponseError);
      }
      var ok := key in entries && IsLive(entries[key], clock);
      r := Ok(ok);
      if ok {
        if seconds <= 0 {
          entries := entries - {key};
        } else {
          entries := entries[key := Entry(entries[key].value, Some(clock + seconds * MillisPerSecond))];
        }
      }
    }

    /** DEL key...: remove the keys; answers how many of them were live. */
    method Delete(keys: set<string>) returns (removed: nat)
      modifies this
      ensures entries == old(entries) - keys
      ensures removed == |set k | k in keys && Lookup(old(entries), clock, k).Some?|
      ensures clock == old(clock)
      ensures forall k :: k in keys ==> Lookup(entries, clock, k).None?
    {
      removed := |set k | k in keys && Lookup(entries, clock, k).Some?|;
      entries := entries - keys;
    }

    /** KEYS "prefix*" */
    method KeysWithPrefix(prefix: string) returns (ks: set<string>)
      ensures ks == LiveKeysWithPrefix(entries, clock, prefix)
    {
      ks := set k | k in entries && IsLive(entries[k], clock) && HasPrefix(k, prefix);
    }

    /** Time passing on the server while a client sleeps. */
    method Advance(millis: nat)
      modifies this
      ensures clock == old(clock) + millis && entries == old(entries)
    {
      clock := clock + millis;
    }
  }
}
