/**
 * The expiring key-value cache the detector is built on (a PSR-16 simple cache).
 * Only its read/write/delete/TTL contract is modelled: an item is visible
 * while the clock is strictly before its expiry instant, and how the backend
 * evicts expired items is not modelled.
 */
module Cache {

  /** One stored item: its integer value and the instant (in seconds) at which it expires. */
  datatype Entry = Entry(value: int, expiresAt: int)

  /** The observable state of the cache: the stored items and the current time. */
  datatype Store = Store(entries: map<string, Entry>, now: int) {

    /** PSR-16 `has`: the key holds an item that has not expired yet. */
    predicate Has(key: string) {
      key in entries && now < entries[key].expiresAt
    }

    /** PSR-16 `get` with a default for a missing or expired item. */
    function Get(key: string, default: int): int {
      if Has(key) then entries[key].value else default
    }

    /** PSR-16 `set` with a time-to-live in seconds, counted from now. */
    function Set(key: string, value: int, ttl: nat): (r: Store)
      ensures OnlyKeyChanged(this, r, key)
      ensures r.Has(key) <==> 0 < ttl
      ensures 0 < ttl ==> r.Get(key, 0) == value
      ensures key in r.entries && r.entries[key].expiresAt == now + ttl
    {
      Store(entries[key := Entry(value, now + ttl)], now)
    }

    /** PSR-16 `delete`. */
    function Delete(key: string): (r: Store)
      ensures OnlyKeyChanged(this, r, key)
      ensures key !in r.entries
    {
      Store(entries - {key}, now)
    }

    /** The clock moves forward by `dt` seconds; no item is written. */
    function Advance(dt: nat): (r: Store)
      ensures r.entries == entries && r.now == now + dt
      ensures forall key :: r.Has(key) ==> Has(key)
    {
      Store(entries, now + dt)
    }
  }

  /** The characters PSR-16 reserves: a conforming cache rejects a key containing any of them. */
  const RESERVED_KEY_CHARACTERS: string := "{}()/\\@:"

  /** No character of `s` is reserved. */
  predicate NoReservedCharacter(s: string) {
    forall i :: 0 <= i < |s| ==> s[i] !in RESERVED_KEY_CHARACTERS
  }

  /**
   * A key every PSR-16 cache must accept (as far as its characters go): not
   * empty and free of reserved characters. The model's cache does not check
   * it; a conforming backend throws an invalid-argument exception instead.
   */
  predicate LegalKey(key: string) {
    0 < |key| && NoReservedCharacter(key)
  }

  /** `after` differs from `before` at most in the item stored under `key`, and the clock is the same. */
  predicate OnlyKeyChanged(before: Store, after: Store, key: string) {
    after.now == before.now && after.entries - {key} == before.entries - {key}
  }

  /** One call made on the cache, as the service's tests observe it. */
  datatype CacheCall =
    | HasCall(key: string)
    | GetCall(key: string, default: int)
    | SetCall(key: string, value: int, ttl: nat)
    | DeleteCall(key: string)

  /**
   * The cache object shared by all requests. `calls` records, in order,
   * every call made on it; the clock `now` is the wall clock that both the
   * backend's expiry and the detector's timestamps read.
   */
  class ExpiringCache {
    var entries: map<string, Entry>
    var now: int
    ghost var calls: seq<CacheCall>

    function State(): Store
      reads this
    {
      Store(entries, now)
    }

    constructor (startTime: int)
      ensures State() == Store(map[], startTime) && calls == []
    {
      entries := map[];
      now := startTime;
      calls := [];
    }

    method Has(key: string) returns (present: bool)
      modifies this`calls
      ensures present == State().Has(key)
      ensures calls == old(calls) + [HasCall(key)]
    {
      present := key in entries && now < entries[key].expiresAt;
      calls := calls + [HasCall(key)];
    }

    method Get(key: string, default: int) returns (value: int)
      modifies this`calls
      ensures value == State().Get(key, default)
      ensures calls == old(calls) + [GetCall(key, default)]
    {
      value := if key in entries && now < entries[key].expiresAt then entries[key].value else default;
      calls := calls + [GetCall(key, default)];
    }

    method Set(key: string, value: int, ttl: nat)
      modifies this`entries, this`calls
      ensures State() == old(State()).Set(key, value, ttl)
      ensures calls == old(calls) + [SetCall(key, value, ttl)]
    {
      entries := entries[key := Entry(value, now + ttl)];
      calls := calls + [SetCall(key, value, ttl)];
    }

    /** Deleting succeeds whether or not the key was present; backend failures are not modelled. */
    method Delete(key: string) returns (success: bool)
      modifies this`entries, this`calls
      ensures State() == old(State()).Delete(key)
      ensures calls == old(calls) + [DeleteCall(key)]
      ensures success
    {
      entries := entries - {key};
      calls := calls + [DeleteCall(key)];
      success := true;
    }

    /** Time passes; this is not a call on the cache. */
    method Advance(dt: nat)
      modifies this`now
      ensures State() == old(State()).Advance(dt)
    {
      now := now + dt;
    }
  }
}
