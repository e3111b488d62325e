/** The GeoJSON cache of `EMSClient` (src/ems_client.ts:254-256): an
    `lru-cache` holding at most `max` entries. Only the contract the client
    relies on is modelled: `get` answers and marks the entry most recently
    used, `set` stores and evicts the least recently used entry when full,
    `reset` empties the cache. */
module Lru {
  import opened Wrappers
  import opened Dict

  /** `keys` lists the cached keys from least to most recently used. */
  datatype Cache<V> = Cache(max: nat, keys: seq<string>, vals: map<string, V>)

  predicate Valid<V>(c: Cache<V>) {
    && c.max >= 1
    && |c.keys| <= c.max
    && NoDup(c.keys)
    && (forall k :: k in c.vals ==> k in c.keys)
    && (forall i :: 0 <= i < |c.keys| ==> c.keys[i] in c.vals)
  }

  /** `new LRUCache({max})` */
  function New<V>(max: nat): (c: Cache<V>)
    requires max >= 1
    ensures Valid(c) && c.max == max && c.keys == []
  {
    Cache(max, [], map[])
  }

  /** The cached value, without touching the recency order. */
  function Peek<V>(c: Cache<V>, k: string): Option<V> {
    if k in c.vals then Some(c.vals[k]) else None
  }

  /** `ks` without `k`, in the same order. */
  function Remove(ks: seq<string>, k: string): (r: seq<string>)
    ensures forall x :: x in r <==> x in ks && x != k
    ensures NoDup(ks) ==> NoDup(r)
    ensures NoDup(ks) ==> |r| == if k in ks then |ks| - 1 else |ks|
    ensures k !in ks ==> r == ks
    decreases |ks|
  {
    if ks == [] then []
    else if ks[0] == k then Remove(ks[1..], k)
    else
      var r := [ks[0]] + Remove(ks[1..], k);
      assert NoDup(ks) ==> NoDup(r) by {
        if NoDup(ks) {
          assert NoDup(ks[1..]);
          assert ks[0] !in ks[1..];
        }
      }
      r
  }

  /** Moving `k` to the most recent end keeps the keys distinct. */
  lemma MoveToEnd(ks: seq<string>, k: string)
    requires NoDup(ks)
    ensures NoDup(Remove(ks, k) + [k])
    ensures forall x :: x in Remove(ks, k) + [k] <==> x in ks || x == k
  {
    var r := Remove(ks, k);
    assert k !in r;
    forall i, j | 0 <= i < j < |r + [k]| ensures (r + [k])[i] != (r + [k])[j] {
      if j < |r| {
      } else {
        assert (r + [k])[i] == r[i];
      }
    }
  }

  /** The recency update of `get`: a cached `k` becomes the most recently used. */
  function Touch<V>(c: Cache<V>, k: string): (r: Cache<V>)
    requires Valid(c)
    ensures Valid(r)
    ensures r.max == c.max && r.vals == c.vals
    ensures k in c.vals ==> r.keys == Remove(c.keys, k) + [k]
    ensures k !in c.vals ==> r == c
  {
    if k in c.vals then
      MoveToEnd(c.keys, k);
      var ks := Remove(c.keys, k) + [k];
      assert forall i :: 0 <= i < |ks| ==> ks[i] in c.vals by {
        forall i | 0 <= i < |ks| ensures ks[i] in c.vals {
          assert ks[i] in ks;
        }
      }
      Cache(c.max, ks, c.vals)
    else c
  }

  /** Dropping the least recently used key, and its value, from key and
      value collections that agree and are one over the bound leaves a valid
      cache. */
  lemma DropOldest<V>(max: nat, ks: seq<string>, vs: map<string, V>)
    requires max >= 1 && ks != [] && |ks| <= max + 1 && NoDup(ks)
    requires forall x :: x in vs ==> x in ks
    requires forall i :: 0 <= i < |ks| ==> ks[i] in vs
    ensures Valid(Cache(max, ks[1..], vs - {ks[0]}))
  {
    var rest := ks[1..];
    forall i, j | 0 <= i < j < |rest| ensures rest[i] != rest[j] {
      assert rest[i] == ks[i + 1] && rest[j] == ks[j + 1];
    }
    forall i | 0 <= i < |rest| ensures rest[i] in vs - {ks[0]} {
      assert rest[i] == ks[i + 1];
    }
    forall x | x in vs - {ks[0]} ensures x in rest {
      assert x in ks;
    }
  }

  /** The store step of `set` before any eviction: `k` holds `v` and is the
      most recently used key; the cache may be one over its bound. */
  function Bump<V>(c: Cache<V>, k: string, v: V): (r: Cache<V>)
    requires Valid(c)
    ensures r.max == c.max && r.vals == c.vals[k := v] && NoDup(r.keys)
    ensures |r.keys| == if k in c.vals then |c.keys| else |c.keys| + 1
    ensures r.keys != [] && r.keys[|r.keys| - 1] == k
    ensures k !in c.vals ==> r.keys == c.keys + [k]
    ensures r.keys == Remove(c.keys, k) + [k]
    ensures forall x :: x in r.vals ==> x in r.keys
    ensures forall i :: 0 <= i < |r.keys| ==> r.keys[i] in r.vals
  {
    var ks := Remove(c.keys, k) + [k];
    var vs := c.vals[k := v];
    MoveToEnd(c.keys, k);
    assert forall i :: 0 <= i < |ks| ==> ks[i] in vs by {
      forall i | 0 <= i < |ks| ensures ks[i] in vs {
        assert ks[i] in ks;
      }
    }
    assert k !in c.vals ==> k !in c.keys;
    Cache(c.max, ks, vs)
  }

  /** `cache.set(k, v)` */
  function Set<V>(c: Cache<V>, k: string, v: V): (r: Cache<V>)
    requires Valid(c)
    ensures Valid(r) && r.max == c.max
    ensures Peek(r, k) == Some(v)
    ensures r.keys != [] && r.keys[|r.keys| - 1] == k
    ensures r.vals == if k !in c.vals && |c.keys| == c.max then c.vals[k := v] - {c.keys[0]} else c.vals[k := v]
    ensures r.keys == if k !in c.vals && |c.keys| == c.max then (Remove(c.keys, k) + [k])[1..] else Remove(c.keys, k) + [k]
  {
    var b := Bump(c, k, v);
    if |b.keys| > c.max then
      DropOldest(c.max, b.keys, b.vals);
      assert b.keys[0] == c.keys[0] != k;
      Cache(c.max, b.keys[1..], b.vals - {b.keys[0]})
    else
      b
  }

  /** `cache.reset()` */
  function Reset<V>(c: Cache<V>): (r: Cache<V>)
    requires Valid(c)
    ensures Valid(r) && r.max == c.max && r.keys == []
    ensures forall k :: Peek(r, k) == None
  {
    Cache(c.max, [], map[])
  }

  /** The cache never holds more than `max` entries; it grows by one on a new key until full. */
  lemma SetSize<V>(c: Cache<V>, k: string, v: V)
    requires Valid(c)
    ensures |Set(c, k, v).keys| == if k in c.vals then |c.keys| else if |c.keys| < c.max then |c.keys| + 1 else c.max
  {
    MoveToEnd(c.keys, k);
  }

  /** A stored value stays readable through a later `set` of another key as
      long as it is not the least recently used entry of a full cache. */
  lemma SetKeepsOthers<V>(c: Cache<V>, k: string, v: V, k': string)
    requires Valid(c) && k' != k
    requires k in c.vals || |c.keys| < c.max || c.keys[0] != k'
    ensures Peek(Set(c, k, v), k') == Peek(c, k')
  {
    var m := c.vals[k := v];
    assert k' in m <==> k' in c.vals;
    assert k' in c.vals ==> m[k'] == c.vals[k'];
    if k !in c.vals && |c.keys| == c.max {
      var e := m - {c.keys[0]};
      assert k' in e <==> k' in c.vals;
      assert k' in c.vals ==> e[k'] == c.vals[k'];
    }
  }

  /** The most recently stored entry survives one more `set` when the cache
      has room for two entries. */
  lemma MostRecentSurvives<V>(c: Cache<V>, k: string, v: V, k2: string, v2: V)
    requires Valid(c) && c.max >= 2 && k2 != k
    ensures Peek(Set(Set(c, k, v), k2, v2), k) == Some(v)
  {
    var c1 := Set(c, k, v);
    assert k in c1.vals && c1.vals[k] == v;
    if |c1.keys| >= 2 {
      assert c1.keys[0] != c1.keys[|c1.keys| - 1];
    }
    SetKeepsOthers(c1, k2, v2, k);
  }

  /** Reading marks an entry most recently used and changes no value. */
  lemma TouchKeepsValues<V>(c: Cache<V>, k: string, k': string)
    requires Valid(c)
    ensures Peek(Touch(c, k), k') == Peek(c, k')
  {
  }
}
