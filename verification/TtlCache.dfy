/**
  The TTL caches of the client (core/client/hft_client.go:531-701). The verification cache and
  the batch cache are the same code at two value types; here they are one generic class.
 */
module TtlCache {
  import opened Wrappers

  /** One call of `set`. */
  datatype Write<V> = Write(key: string, value: V, at: int)

  /** The most recent set of a key. */
  function Latest<V>(history: seq<Write<V>>, key: string): Option<Write<V>> {
    if history == [] then None
    else if history[|history| - 1].key == key then Some(history[|history| - 1])
    else Latest(history[..|history| - 1], key)
  }

  /** What a cache that never forgets answers: the most recent set of the key, if it is at most ttl old. */
  function Lookup<V>(history: seq<Write<V>>, key: string, now: int, ttl: int): Option<V> {
    var w := Latest(history, key);
    if w.Some? && now <= w.value.at + ttl then Some(w.value.value) else None
  }

  /** The set at index i is the most recent of its key. */
  ghost predicate IsLast<V(!new)>(history: seq<Write<V>>, i: int) {
    0 <= i < |history| && forall j :: i < j < |history| ==> history[j].key != history[i].key
  }

  /** A lookup answers v exactly when v was set by the last set of the key, at most ttl ago. */
  lemma LookupMeaning<V(!new)>(history: seq<Write<V>>, key: string, now: int, ttl: int, v: V)
    ensures Lookup(history, key, now, ttl) == Some(v) <==>
            exists i :: IsLast(history, i) && history[i].key == key && history[i].value == v && now <= history[i].at + ttl
  {
    if Latest(history, key).None? {
      LatestNone(history, key);
    } else {
      var k := LatestSome(history, key);
      forall i | IsLast(history, i) && history[i].key == key ensures i == k {
      }
    }
  }

  lemma {:induction false} LatestNone<V>(history: seq<Write<V>>, key: string)
    requires Latest(history, key).None?
    ensures forall i :: 0 <= i < |history| ==> history[i].key != key
  {
    if history != [] {
      LatestNone(history[..|history| - 1], key);
    }
  }

  lemma {:induction false} LatestSome<V(!new)>(history: seq<Write<V>>, key: string) returns (k: int)
    requires Latest(history, key).Some?
    ensures IsLast(history, k) && history[k].key == key && Latest(history, key) == Some(history[k])
  {
    var n := |history| - 1;
    if history[n].key == key {
      k := n;
    } else {
      k := LatestSome(history[..n], key);
      assert forall j :: k < j < n ==> history[..n][j].key != history[..n][k].key;
    }
  }

  lemma LatestAppend<V>(history: seq<Write<V>>, w: Write<V>, key: string)
    ensures Latest(history + [w], key) == if key == w.key then Some(w) else Latest(history, key)
  {
    assert (history + [w])[..|history|] == history;
  }

  /** Of the entries before, those that have not expired, and those not looked at yet, are left. */
  ghost predicate Pruned(before: map<string, int>, after: map<string, int>, rest: set<string>, now: int) {
    && (forall key :: key in after <==> key in before && (key in rest || now <= before[key]))
    && (forall key :: key in after ==> after[key] == before[key])
  }

  ghost predicate Restricted<V>(before: map<string, V>, after: map<string, V>) {
    forall key :: key in after ==> key in before && after[key] == before[key]
  }

  class TtlCache<V> {
    const ttl: int
    var cache: map<string, V>
    var expiration: map<string, int>

    /** Every set ever made, and the latest cleanup. */
    ghost var history: seq<Write<V>>
    ghost var cleanedAt: int

    /** An entry is the latest set of its key; a key without entry was never set, or had expired at a cleanup. */
    ghost predicate Reflects(key: string)
      reads this
    {
      var w := Latest(history, key);
      if key in cache then
        key in expiration && w == Some(Write(key, cache[key], expiration[key] - ttl))
      else
        w.None? || w.value.at + ttl < cleanedAt
    }

    ghost predicate Valid()
      reads this
    {
      && cache.Keys == expiration.Keys
      && forall key: string :: Reflects(key)
    }

    constructor (ttl: int, ghost now: int)
      ensures Valid() && history == [] && cleanedAt == now && this.ttl == ttl
    {
      this.ttl := ttl;
      cache := map[];
      expiration := map[];
      history := [];
      cleanedAt := now;
    }

    method Get(key: string, now: int) returns (r: Option<V>)
      requires Valid() && cleanedAt <= now
      ensures r == Lookup(history, key, now, ttl)
    {
      assert Reflects(key);
      if key !in cache {
        return None;
      }
      if key !in expiration || now > expiration[key] {
        return None;
      }
      return Some(cache[key]);
    }

    method Set(key: string, value: V, now: int)
      requires Valid()
      modifies this`cache, this`expiration, this`history
      ensures Valid() && history == old(history) + [Write(key, value, now)]
    {
      cache := cache[key := value];
      expiration := expiration[key := now + ttl];
      history := history + [Write(key, value, now)];
      forall other: string ensures Reflects(other) {
        LatestAppend(old(history), Write(key, value, now), other);
        assert old(Reflects(other));
      }
    }

    /**
      Drops exactly the expired entries from both maps. The history is untouched, so every later
      `Get`, at any reading, answers what it would have answered without the cleanup.
     */
    method Cleanup(now: int)
      requires Valid() && cleanedAt <= now
      modifies this`cache, this`expiration, this`cleanedAt
      ensures Valid() && cleanedAt == now
      ensures expiration == map key | key in old(expiration) && now <= old(expiration)[key] :: old(expiration)[key]
      ensures cache == map key | key in expiration && key in old(cache) :: old(cache)[key]
    {
      var rest := expiration.Keys;
      while rest != {}
        invariant rest <= old(expiration).Keys && rest <= expiration.Keys && cache.Keys == expiration.Keys
        invariant Pruned(old(expiration), expiration, rest, now) && Restricted(old(cache), cache)
        decreases |rest|
      {
        var key :| key in rest;
        if now > expiration[key] {
          cache := cache - {key};
          expiration := expiration - {key};
        }
        rest := rest - {key};
      }
      cleanedAt := now;
      forall key: string ensures Reflects(key) {
        assert old(Reflects(key));
      }
    }
  }
}
