/**
 * The shared key/value store behind every cache facade (the process-wide
 * Redis handle), as an in-memory map with per-key expiry, a clock that
 * only the model advances, and a flag that says whether the store can be
 * reached at all. All clock values and TTLs are in milliseconds.
 */
module Kv {

  const Second := 1000
  const Minute := 60 * Second
  const Hour := 60 * Minute

  /** When an entry stops being visible. */
  datatype Expiry = Never | At(deadline: int)

  datatype Entry = Entry(value: string, expiry: Expiry)

  /** An entry is visible strictly before its deadline. */
  predicate Live(e: Entry, now: int) {
    e.expiry.Never? || now < e.expiry.deadline
  }

  /**
   * What a GET yields: the stored value, the "redis: nil" reply for a key
   * that is absent or expired, or any other failure of the store.
   */
  datatype Reply = Hit(value: string) | Nil | Failed

  /**
   * The expiry a SET with the given expiration installs: a positive
   * expiration sets a deadline, zero or a negative one sets none.
   */
  function ExpiryFor(now: int, ttl: int): (x: Expiry)
    ensures x.At? <==> ttl > 0
    ensures x.At? ==> x.deadline - now == ttl
  {
    if ttl > 0 then At(now + ttl) else Never
  }

  /** The whole observable state of the store. */
  datatype View = View(entries: map<string, Entry>, now: int, up: bool) {

    function Get(key: string): (r: Reply)
      ensures r.Failed? <==> !up
      ensures r.Hit? <==> up && key in entries && Live(entries[key], now)
      ensures r.Hit? ==> r.value == entries[key].value
    {
      if !up then Failed
      else if key in entries && Live(entries[key], now) then Hit(entries[key].value)
      else Nil
    }

    /** EXISTS for one key: a live entry is present (false when the store is down). */
    function Exists(key: string): (present: bool)
      ensures present <==> up && key in entries && Live(entries[key], now)
    {
      Get(key).Hit?
    }

    /** SET key value with an expiration; the entry replaces any earlier one whole. */
    function Put(key: string, value: string, ttl: int): View {
      if up then this.(entries := entries[key := Entry(value, ExpiryFor(now, ttl))]) else this
    }

    /** DEL key. */
    function Remove(key: string): View {
      if up then this.(entries := entries - {key}) else this
    }

    /** The same store `dt` milliseconds later. */
    function After(dt: nat): View {
      this.(now := now + dt)
    }
  }

  /** A key written with a positive TTL reads back exactly until the TTL has elapsed. */
  lemma PutReadBack(v: View, key: string, value: string, ttl: int, dt: nat)
    requires v.up && ttl > 0
    ensures v.Put(key, value, ttl).After(dt).Get(key) == if dt < ttl then Hit(value) else Nil
  {
  }

  /** Writing one key leaves every other key as it was. */
  lemma PutOtherKey(v: View, key: string, other: string, value: string, ttl: int)
    requires key != other
    ensures v.Put(key, value, ttl).Get(other) == v.Get(other)
  {
  }

  /** The store object the facades update in place. */
  class Store {
    var entries: map<string, Entry>
    var now: int
    var up: bool

    function Snapshot(): View
      reads this
    {
      View(entries, now, up)
    }

    constructor (start: int)
      ensures Snapshot() == View(map[], start, true)
    {
      entries, now, up := map[], start, true;
    }

    method Set(key: string, value: string, ttl: int) returns (ok: bool)
      modifies this
      ensures ok == old(up)
      ensures Snapshot() == old(Snapshot()).Put(key, value, ttl)
    {
      ok := up;
      if up {
        entries := entries[key := Entry(value, ExpiryFor(now, ttl))];
      }
    }

    method Del(key: string) returns (ok: bool)
      modifies this
      ensures ok == old(up)
      ensures Snapshot() == old(Snapshot()).Remove(key)
    {
      ok := up;
      if up {
        entries := entries - {key};
      }
    }

    /** Let `dt` milliseconds pass. */
    method Tick(dt: nat)
      modifies this
      ensures Snapshot() == old(Snapshot()).After(dt)
    {
      now := now + dt;
    }

    /** Make the store reachable or unreachable. */
    method SetReachable(reachable: bool)
      modifies this
      ensures Snapshot() == old(Snapshot()).(up := reachable)
    {
      up := reachable;
    }
  }
}
