/** Ordered string-keyed dictionaries: the model of a JavaScript plain object
    (query parameters, `Object.getOwnPropertyNames(sources)`, `Object.keys(paint)`).
    `keys` is the insertion order: assigning an existing key keeps its
    position; assigning a new key appends it. JavaScript enumerates
    integer-like keys (`"2"`) first, in ascending order, before the other
    keys; that reordering is not part of this model. */
module Dict {
  import opened Wrappers

  /** `keys` is the enumeration order, `vals` the contents. */
  datatype Dict<V> = Dict(keys: seq<string>, vals: map<string, V>)

  predicate NoDup(ks: seq<string>) {
    forall i, j :: 0 <= i < j < |ks| ==> ks[i] != ks[j]
  }

  /** Dropping the last key of a duplicate-free sequence leaves one without
      duplicates that does not hold that key. */
  lemma NoDupLast(ks: seq<string>)
    requires NoDup(ks) && ks != []
    ensures NoDup(ks[..|ks| - 1]) && ks[|ks| - 1] !in ks[..|ks| - 1]
    ensures ks == ks[..|ks| - 1] + [ks[|ks| - 1]]
  {
    var init := ks[..|ks| - 1];
    forall i | 0 <= i < |init|
      ensures init[i] != ks[|ks| - 1]
    {
      assert init[i] == ks[i];
    }
  }

  /** Every key is enumerated exactly once. */
  predicate Valid<V>(d: Dict<V>) {
    && NoDup(d.keys)
    && (forall k :: k in d.vals ==> k in d.keys)
    && (forall i :: 0 <= i < |d.keys| ==> d.keys[i] in d.vals)
  }

  function Empty<V>(): Dict<V> {
    Dict([], map[])
  }

  /** `obj[k]`: the value stored under `k`, or `undefined`. */
  function Lookup<V>(d: Dict<V>, k: string): Option<V> {
    if k in d.vals then Some(d.vals[k]) else None
  }

  /** `obj[k] = v` */
  function Put<V>(d: Dict<V>, k: string, v: V): Dict<V> {
    Dict(if k in d.vals then d.keys else d.keys + [k], d.vals[k := v])
  }

  /** An assignment keeps the position of an existing key and appends a new
      one; it sets `k` and leaves every other key alone. */
  lemma PutSpec<V>(d: Dict<V>, k: string, v: V)
    ensures Valid(d) ==> Valid(Put(d, k, v))
    ensures Put(d, k, v).keys == if k in d.vals then d.keys else d.keys + [k]
    ensures Lookup(Put(d, k, v), k) == Some(v)
    ensures forall k' :: k' != k ==> Lookup(Put(d, k, v), k') == Lookup(d, k')
  {
  }

  /** An object literal: the pairs assigned in order (a repeated key keeps its
      first position and its last value). */
  function FromPairs<V>(ps: seq<(string, V)>): Dict<V>
    decreases |ps|
  {
    if ps == [] then Dict([], map[]) else Put(FromPairs(ps[..|ps| - 1]), ps[|ps| - 1].0, ps[|ps| - 1].1)
  }

  /** An object literal enumerates each of its keys once. */
  lemma {:induction false} FromPairsValid<V>(ps: seq<(string, V)>)
    ensures Valid(FromPairs(ps))
    decreases |ps|
  {
    if ps != [] {
      FromPairsValid(ps[..|ps| - 1]);
    }
  }

  /** The entries in enumeration order. */
  function Entries<V>(d: Dict<V>): (r: seq<(string, V)>)
    requires Valid(d)
    ensures |r| == |d.keys|
    ensures forall i :: 0 <= i < |r| ==> r[i] == (d.keys[i], d.vals[d.keys[i]])
  {
    seq(|d.keys|, i requires 0 <= i < |d.keys| => (d.keys[i], d.vals[d.keys[i]]))
  }

  /** The keys of `es` that are not in `known`, each once, in first-occurrence order. */
  function Fresh(known: set<string>, es: seq<string>): (r: seq<string>)
    ensures forall x :: x in r ==> x !in known && x in es
    ensures NoDup(r)
    decreases |es|
  {
    if es == [] then []
    else if es[0] in known then Fresh(known, es[1..])
    else [es[0]] + Fresh(known + {es[0]}, es[1..])
  }

  /** Assigns `src[k]` for every `k` of `ks` that `src` has, in order, onto `d`. */
  function Assign<V>(d: Dict<V>, ks: seq<string>, src: map<string, V>): Dict<V>
    decreases |ks|
  {
    if ks == [] then d
    else Assign(if ks[0] in src then Put(d, ks[0], src[ks[0]]) else d, ks[1..], src)
  }

  /** After the assignments, a key of `ks` holds its value from `src`; any other
      key keeps its value. */
  lemma {:induction false} AssignLookup<V>(d: Dict<V>, ks: seq<string>, src: map<string, V>)
    requires forall i :: 0 <= i < |ks| ==> ks[i] in src
    ensures forall k :: Lookup(Assign(d, ks, src), k) == if k in ks then Some(src[k]) else Lookup(d, k)
    decreases |ks|
  {
    if ks != [] {
      var d' := Put(d, ks[0], src[ks[0]]);
      AssignLookup(d', ks[1..], src);
      assert forall k :: k in ks <==> k == ks[0] || k in ks[1..];
    }
  }

  /** One assignment of `AssignKeys`: `k` is appended exactly when it is new. */
  lemma AssignKeysStep<V>(d: Dict<V>, k: string, v: V, rest: seq<string>)
    ensures var d' := Put(d, k, v);
      d'.keys + Fresh(d'.vals.Keys, rest) == d.keys + Fresh(d.vals.Keys, [k] + rest)
  {
    var ks := [k] + rest;
    assert ks[0] == k && ks[1..] == rest;
    var d' := Put(d, k, v);
    if k in d.vals {
      assert d'.vals.Keys == d.vals.Keys;
    } else {
      assert d'.vals.Keys == d.vals.Keys + {k};
      var f := Fresh(d.vals.Keys + {k}, rest);
      assert (d.keys + [k]) + f == d.keys + ([k] + f);
    }
  }

  /** The assigned keys that were missing are appended, each once, in order. */
  lemma {:induction false} AssignKeys<V>(d: Dict<V>, ks: seq<string>, src: map<string, V>)
    requires forall i :: 0 <= i < |ks| ==> ks[i] in src
    ensures Assign(d, ks, src).keys == d.keys + Fresh(d.vals.Keys, ks)
    ensures Valid(d) ==> Valid(Assign(d, ks, src))
    decreases |ks|
  {
    if ks != [] {
      var d' := Put(d, ks[0], src[ks[0]]);
      PutSpec(d, ks[0], src[ks[0]]);
      AssignKeys(d', ks[1..], src);
      AssignKeysStep(d, ks[0], src[ks[0]], ks[1..]);
      assert [ks[0]] + ks[1..] == ks;
    }
  }

  /** `Object.assign({}, d, e)`, or lodash's merge of flat string objects: every
      pair of `e`, in `e`'s order, assigned onto a copy of `d`. */
  function Overlay<V>(d: Dict<V>, e: Dict<V>): Dict<V> {
    Assign(d, e.keys, e.vals)
  }

  /** Existing keys keep their position and take `e`'s value; keys new to `d`
      are appended in `e`'s order; every other key keeps its value. */
  lemma OverlaySpec<V>(d: Dict<V>, e: Dict<V>)
    requires Valid(e)
    ensures Overlay(d, e).keys == d.keys + Fresh(d.vals.Keys, e.keys)
    ensures Valid(d) ==> Valid(Overlay(d, e))
    ensures forall k :: Lookup(Overlay(d, e), k) == if k in e.vals then Lookup(e, k) else Lookup(d, k)
  {
    AssignKeys(d, e.keys, e.vals);
    AssignLookup(d, e.keys, e.vals);
  }

  /** Assigning values that are all already present changes nothing. */
  lemma {:induction false} AssignNoChange<V>(d: Dict<V>, ks: seq<string>, src: map<string, V>)
    requires Valid(d)
    requires forall i :: 0 <= i < |ks| ==> ks[i] in src && Lookup(d, ks[i]) == Some(src[ks[i]])
    ensures Assign(d, ks, src) == d
    decreases |ks|
  {
    if ks != [] {
      assert d.vals[ks[0] := src[ks[0]]] == d.vals;
      assert Put(d, ks[0], src[ks[0]]) == d;
      AssignNoChange(d, ks[1..], src);
    }
  }

  /** When every supplied value already equals the stored one, the overlay is the identity. */
  lemma OverlayNoChange<V>(d: Dict<V>, e: Dict<V>)
    requires Valid(d) && Valid(e)
    requires forall k :: k in e.vals ==> Lookup(d, k) == Some(e.vals[k])
    ensures Overlay(d, e) == d
  {
    AssignNoChange(d, e.keys, e.vals);
  }

  /** Overlaying the same parameters twice is the same as overlaying them once. */
  lemma OverlayIdempotent<V>(d: Dict<V>, e: Dict<V>)
    requires Valid(d) && Valid(e)
    ensures Overlay(Overlay(d, e), e) == Overlay(d, e)
  {
    OverlaySpec(d, e);
    OverlayNoChange(Overlay(d, e), e);
  }

  /** Two dictionaries with the same key order and the same lookups are equal. */
  lemma DictEq<V>(a: Dict<V>, b: Dict<V>)
    requires a.keys == b.keys
    requires forall k :: Lookup(a, k) == Lookup(b, k)
    ensures a == b
  {
    assert a.vals.Keys == b.vals.Keys by {
      forall k ensures k in a.vals <==> k in b.vals {
        assert Lookup(a, k).Some? <==> Lookup(b, k).Some?;
      }
    }
    forall k | k in a.vals ensures a.vals[k] == b.vals[k] {
      assert Lookup(a, k) == Lookup(b, k);
    }
  }

  lemma {:induction false} FreshOfDistinct(known: set<string>, ks: seq<string>)
    requires NoDup(ks)
    requires forall i :: 0 <= i < |ks| ==> ks[i] !in known
    ensures Fresh(known, ks) == ks
    decreases |ks|
  {
    if ks != [] {
      FreshOfDistinct(known + {ks[0]}, ks[1..]);
    }
  }

  /** Overlaying onto an empty object copies the overlay: `_.assign({}, e)` is `e`. */
  lemma OverlayOnEmpty<V>(params: Dict<V>)
    requires Valid(params)
    ensures Overlay(Empty(), params) == params
  {
    var e: Dict<V> := Empty();
    var r := Overlay(e, params);
    OverlaySpec(e, params);
    assert e.vals.Keys == {};
    FreshOfDistinct({}, params.keys);
    assert r.keys == [] + Fresh({}, params.keys);
    assert r.keys == params.keys;
    DictEq(r, params);
  }
}
