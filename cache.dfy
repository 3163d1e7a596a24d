/**
 * The expiring key/value cache: a dictionary from each key to its value and the
 * instant it expires. Entries are never removed by a timer: a read that finds an
 * expired entry removes it, and `Cleanup` removes every expired entry at once.
 * The wall clock is the integer `now` each operation receives.
 */
module ExpiringCache {
  import opened Wrappers

  /** What the store holds for a key: the value and the instant after which it is expired. */
  datatype Entry<V> = Entry(value: V, expiry: int)

  /** The error Python's dictionary interface raises for a missing or expired key. */
  datatype CacheError = KeyError

  /** An entry is still live at `now` up to and including its expiry instant. */
  predicate Live<K, V>(store: map<K, Entry<V>>, key: K, now: int) {
    key in store && now <= store[key].expiry
  }

  /** The keys that are live at `now`. */
  function LiveKeys<K, V>(store: map<K, Entry<V>>, now: int): set<K> {
    set key | key in store && Live(store, key, now)
  }

  /** The store with every entry that is expired at `now` removed: what `Cleanup` leaves. */
  function Sweep<K, V>(store: map<K, Entry<V>>, now: int): map<K, Entry<V>> {
    map key | key in store && Live(store, key, now) :: store[key]
  }

  /** After a sweep, every remaining entry expires no earlier than `now`, and nothing new appeared. */
  lemma SweepLeavesOnlyLive<K, V>(store: map<K, Entry<V>>, now: int)
    ensures forall key :: key in Sweep(store, now) ==> now <= Sweep(store, now)[key].expiry
    ensures Sweep(store, now).Keys <= store.Keys
  {
  }

  /** A sweep keeps every live entry, with its value and expiry. */
  lemma SweepKeepsLive<K, V>(store: map<K, Entry<V>>, now: int, key: K)
    requires Live(store, key, now)
    ensures key in Sweep(store, now) && Sweep(store, now)[key] == store[key]
  {
  }

  /** Sweeping again at the same instant changes nothing. */
  lemma SweepIdempotent<K, V>(store: map<K, Entry<V>>, now: int)
    ensures Sweep(Sweep(store, now), now) == Sweep(store, now)
  {
  }

  /** A sweep at an earlier instant followed by one at a later instant is the later sweep alone. */
  lemma SweepLater<K, V>(store: map<K, Entry<V>>, earlier: int, later: int)
    requires earlier <= later
    ensures Sweep(Sweep(store, earlier), later) == Sweep(store, later)
  {
  }

  lemma {:induction false} SubsetSize<T>(a: set<T>, b: set<T>)
    requires a <= b
    ensures |a| <= |b|
  {
    if a != {} {
      var x :| x in a;
      SubsetSize(a - {x}, b - {x});
    }
  }

  /** The store left by a sweep holds exactly the live entries, so it is never larger than before. */
  lemma SweepSize<K, V>(store: map<K, Entry<V>>, now: int)
    ensures Sweep(store, now).Keys == LiveKeys(store, now)
    ensures |Sweep(store, now)| == |LiveKeys(store, now)| <= |store|
  {
    SubsetSize(LiveKeys(store, now), store.Keys);
  }

  /** A key written at `now` with time-to-live `ttl` stays live exactly until `now + ttl`, inclusive. */
  lemma LiveAfterSet<K, V>(store: map<K, Entry<V>>, key: K, value: V, now: int, ttl: int, later: int)
    ensures Live(store[key := Entry(value, now + ttl)], key, later) <==> later <= now + ttl
  {
  }

  class Cache<K(==), V> {
    /** The backing dictionary: key to (value, expiry). */
    var store: map<K, Entry<V>>
    /** The time-to-live used when none is given. */
    var defaultTtl: int

    constructor (defaultTtl: int := 60)
      ensures store == map[] && this.defaultTtl == defaultTtl
    {
      store := map[];
      this.defaultTtl := defaultTtl;
    }

    /** Whether `key` counts as absent at `now`: missing, or past its expiry. */
    function IsExpired(key: K, now: int): (expired: bool)
      reads this
      ensures expired <==> key !in Sweep(store, now)
      ensures !expired ==> key in store && now <= store[key].expiry
    {
      if key !in store then true else now > store[key].expiry
    }

    /** Removes every entry that is expired at `now`: first collects the expired keys, then removes them one by one. */
    method Cleanup(now: int)
      modifies this`store
      ensures store == Sweep(old(store), now)
    {
      var expired := set key | key in store && IsExpired(key, now);
      ghost var all := expired;
      while expired != {}
        invariant expired <= all
        invariant store == old(store) - (all - expired)
        decreases |expired|
      {
        var key :| key in expired;
        store := store - {key};
        expired := expired - {key};
      }
      forall key ensures key in store <==> key in Sweep(old(store), now) {
        assert key in all <==> key in old(store) && !Live(old(store), key, now);
      }
      assert store == Sweep(old(store), now);
    }

    /** Writes `key`, replacing any previous value and expiry; `ttl` defaults to `defaultTtl`. */
    method Set(key: K, value: V, ttl: Option<int> := None, now: int)
      modifies this`store
      ensures store == old(store)[key := Entry(value, now + (if ttl.Some? then ttl.value else defaultTtl))]
    {
      var expiry := now + (if ttl.Some? then ttl.value else defaultTtl);
      store := store[key := Entry(value, expiry)];
    }

    /** The indexing read: the value if live, otherwise the key is dropped and `KeyError` raised. */
    method Lookup(key: K, now: int) returns (r: Result<V, CacheError>)
      modifies this`store
      ensures Live(old(store), key, now) ==> r == Ok(old(store)[key].value) && store == old(store)
      ensures !Live(old(store), key, now) ==> r == Err(KeyError) && store == old(store) - {key}
    {
      if IsExpired(key, now) {
        store := store - {key};
        return Err(KeyError);
      }
      r := Ok(store[key].value);
    }

    /**
     * `get`: the value if live, otherwise `default`, with the same eviction as `Lookup`.
     * `None` stands for Python's `None`, the default `default`.
     */
    method Get(key: K, default: Option<V> := None, now: int) returns (v: Option<V>)
      modifies this`store
      ensures Live(old(store), key, now) ==> v == Some(old(store)[key].value) && store == old(store)
      ensures !Live(old(store), key, now) ==> v == default && store == old(store) - {key}
    {
      var r := Lookup(key, now);
      v := if r.Ok? then Some(r.value) else default;
    }

    /** The indexing write: always uses `defaultTtl`. */
    method Put(key: K, value: V, now: int)
      modifies this`store
      ensures store == old(store)[key := Entry(value, now + defaultTtl)]
    {
      var expiry := now + defaultTtl;
      store := store[key := Entry(value, expiry)];
    }

    /** Deletion: removes `key` whether or not it has expired; `KeyError` when it is not stored. */
    method Delete(key: K) returns (r: Result<(), CacheError>)
      modifies this`store
      ensures r.Ok? <==> key in old(store)
      ensures r.Err? ==> r.error == KeyError
      ensures store == old(store) - {key}
    {
      if key !in store {
        return Err(KeyError);
      }
      store := store - {key};
      r := Ok(());
    }

    /** Iteration: sweeps, then yields the keys that remain. */
    method Keys(now: int) returns (keys: set<K>)
      modifies this`store
      ensures keys == LiveKeys(old(store), now) && keys == store.Keys
      ensures store == Sweep(old(store), now)
    {
      Cleanup(now);
      keys := store.Keys;
    }

    /** The size: sweeps, then counts what remains, which is never more than was stored. */
    method Count(now: int) returns (n: nat)
      modifies this`store
      ensures n == |LiveKeys(old(store), now)| && n <= |old(store)|
      ensures store == Sweep(old(store), now)
    {
      SweepSize(store, now);
      Cleanup(now);
      n := |store|;
    }

    /** Membership: true exactly for a live key; an expired key is dropped on the way. */
    method Contains(key: K, now: int) returns (b: bool)
      modifies this`store
      ensures b == Live(old(store), key, now)
      ensures store == if b then old(store) else old(store) - {key}
    {
      if IsExpired(key, now) {
        store := store - {key};
        return false;
      }
      b := key in store;
    }
  }
}
