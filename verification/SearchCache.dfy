/** The search service's result cache and its SCAN-and-delete invalidation. */
module SearchCache {
  import opened Common
  import opened MovieEvents

  const PREFIX := "search:query:"
  /** A cached search lives five minutes. */
  const CACHE_TTL := 300.0

  datatype Cached = Cached(text: string, expireAt: real)

  predicate HasPrefix(key: string, prefix: string) {
    prefix <= key
  }

  /** What is left of a keyspace when every key with the prefix is gone. */
  function Without(store: map<string, Cached>, prefix: string): map<string, Cached> {
    map k | k in store && !HasPrefix(k, prefix) :: store[k]
  }

  /** Some of the keys with the prefix are gone, and nothing else changed. */
  predicate Thinned(before: map<string, Cached>, after: map<string, Cached>, prefix: string) {
    && (forall k :: k in after ==> k in before && after[k] == before[k])
    && (forall k :: k in before && !HasPrefix(k, prefix) ==> k in after)
  }

  class RedisCache {
    const enabled: bool
    /** A walk over the table ends within so many SCAN calls. */
    const rounds: nat
    /** An entry past its time reads as absent, whether it is still held or not. */
    var store: map<string, Cached>

    ghost predicate Valid() {
      rounds >= 1
    }

    /** What Redis holds under a key at `now`. */
    function Held(key: string, now: real): Option<string>
      reads this
    {
      if key in store && now <= store[key].expireAt then Some(store[key].text) else None
    }

    constructor (enabled: bool, rounds: nat)
      requires rounds >= 1
      ensures Valid() && store == map[] && this.enabled == enabled && this.rounds == rounds
    {
      this.enabled, this.rounds := enabled, rounds;
      store := map[];
    }

    /** One SCAN call: some matching keys, perhaps again, and the cursor to go on from, 0 when the walk is over. By
        then it has returned every key that was there all along; `owed` are those still to come. */
    method Scan(cursor: nat, owed: set<string>, prefix: string) returns (next: nat, keys: set<string>)
      requires cursor < rounds
      ensures next == 0 || cursor < next < rounds
      ensures forall k :: k in keys ==> k in store && HasPrefix(k, prefix)
      ensures next == 0 ==> forall k :: k in owed && k in store && HasPrefix(k, prefix) ==> k in keys
    {
      var found: set<string>, over: bool := *, *;
      if over || cursor + 1 == rounds {
        next := 0;
        keys := set k | k in store && HasPrefix(k, prefix) && (k in owed || k in found);
      } else {
        next :| cursor < next < rounds;
        keys := set k | k in store && HasPrefix(k, prefix) && k in found;
      }
    }

    /** Deletes every cached search, whatever movie changed, and touches no other key. Redis fails after `working`
        commands; a failure half-way is swallowed and leaves the rest. */
    method InvalidateMovie(movieId: string, working: nat) returns (swept: bool)
      requires Valid()
      modifies this
      ensures Thinned(old(store), store, PREFIX)
      ensures swept ==> store == if enabled then Without(old(store), PREFIX) else old(store)
      ensures !enabled || working >= 2 * rounds ==> swept
    {
      if !enabled {
        return true;
      }
      var cursor, left, owed := 0, working, store.Keys;
      while true
        invariant cursor < rounds
        invariant Thinned(old(store), store, PREFIX)
        invariant forall k :: k in store && HasPrefix(k, PREFIX) ==> k in owed
        invariant working >= 2 * rounds ==> left >= 2 * (rounds - cursor)
        decreases rounds - cursor
      {
        if left == 0 {
          return false;
        }
        left := left - 1;
        var next, keys := Scan(cursor, owed, PREFIX);
        if keys != {} {
          if left == 0 {
            return false;
          }
          left := left - 1;
          store := store - keys;
        }
        owed := owed - keys;
        if next == 0 {
          break;
        }
        cursor := next;
      }
      assert store == Without(old(store), PREFIX);
      swept := true;
    }

    /** A failed read is a miss, and so is an empty value. */
    method GetSearchResults(queryHash: string, up: bool, now: real) returns (r: Option<string>)
      ensures var key := "search:query:" + queryHash;
              && (r.Some? <==>
                    up && enabled && key in store && now <= store[key].expireAt && store[key].text != "")
              && (r.Some? ==> r.value == store[key].text)
    {
      if !enabled {
        return None;
      }
      var cached := if up then Held(PREFIX + queryHash, now) else None;
      r := if cached == Some("") then None else cached;
    }

    /** A failed write is swallowed, and so is a response that JSON cannot print. */
    method SetSearchResults(queryHash: string, results: Response, up: bool, now: real)
      modifies this
      ensures !enabled || !up || results.dated ==> store == old(store)
      ensures enabled && up && !results.dated ==>
                store == old(store)["search:query:" + queryHash := Cached(results.text, now + 300.0)]
    {
      if !enabled {
        return;
      }
      if !results.dated && up {
        store := store[PREFIX + queryHash := Cached(results.text, now + CACHE_TTL)];
      }
    }
  }

  /** After an invalidation every search misses. */
  lemma InvalidatedMisses(store: map<string, Cached>, queryHash: string)
    ensures "search:query:" + queryHash !in Without(store, PREFIX)
  {
    assert HasPrefix(PREFIX + queryHash, PREFIX);
  }
}
