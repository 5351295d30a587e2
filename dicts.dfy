/** Python's `dict` with string keys: a mapping that remembers the order in
    which keys were first inserted. Iteration (`for k in d`, `d.items()`)
    follows `keys`; lookups go through `items`. */
module Dicts {

  import opened Text

  datatype DictRep<V> = DictRep(keys: seq<string>, items: map<string, V>) {
    ghost predicate Valid() {
      Distinct(keys) && (forall k :: k in items <==> k in keys)
    }
  }

  /** A dict: each key listed once, and listed exactly when it has a value. */
  type Dict<V> = d: DictRep<V> | d.Valid() witness DictRep([], map[])

  /** `{}` */
  function Empty<V>(): (r: Dict<V>)
    ensures r.keys == [] && r.items == map[]
  {
    DictRep([], map[])
  }

  /** `d.get(k, default)` */
  function Get<V>(d: Dict<V>, k: string, default: V): V {
    if k in d.items then d.items[k] else default
  }

  /** `d[k] = v`: a new key is added at the end, an existing key keeps its
      place and gets the new value. */
  function Set<V>(d: Dict<V>, k: string, v: V): (r: Dict<V>)
    ensures r.items == d.items[k := v]
    ensures r.keys == if k in d.items then d.keys else d.keys + [k]
  {
    if k in d.items then DictRep(d.keys, d.items[k := v])
    else DictRep(d.keys + [k], d.items[k := v])
  }

  /** The keys of `ks` that `d` does not have yet, in order and each once:
      the keys an update with `ks` appends. */
  function NewKeys(ks: seq<string>, present: set<string>): (r: seq<string>)
    ensures forall x :: x in r <==> x in ks && x !in present
    ensures Distinct(r)
    decreases |ks|
  {
    if |ks| == 0 then []
    else
      var front := NewKeys(ks[..|ks| - 1], present);
      var k := ks[|ks| - 1];
      if k in present || k in front then front else front + [k]
  }

  /** Applies the entries of `src` under the keys `ks` to `d`, one
      `d[k] = v` at a time, in the order of `ks`. */
  function UpdateWith<V>(d: Dict<V>, src: map<string, V>, ks: seq<string>): Dict<V>
    requires forall k :: k in ks ==> k in src
    decreases |ks|
  {
    if |ks| == 0 then d
    else Set(UpdateWith(d, src, ks[..|ks| - 1]), ks[|ks| - 1], src[ks[|ks| - 1]])
  }

  /** The entries `r` has after applying `src` under `ks` to `d`: the keys
      of both, `src`'s value under `ks`, `d`'s value elsewhere. */
  ghost predicate UpdatedEntries<V>(r: Dict<V>, d: Dict<V>, src: map<string, V>, ks: seq<string>)
    requires forall k :: k in ks ==> k in src
  {
    && (forall k :: k in r.items <==> k in d.items || k in ks)
    && (forall k :: k in ks ==> r.items[k] == src[k])
    && (forall k :: k in d.items && k !in ks ==> r.items[k] == d.items[k])
  }

  lemma {:induction false} UpdateWithItems<V>(d: Dict<V>, src: map<string, V>, ks: seq<string>)
    requires forall k :: k in ks ==> k in src
    ensures UpdatedEntries(UpdateWith(d, src, ks), d, src, ks)
    decreases |ks|
  {
    if |ks| > 0 {
      var front := ks[..|ks| - 1];
      var k := ks[|ks| - 1];
      FrontAndLast(ks);
      UpdateWithItems(d, src, front);
      UpdateEntriesStep(UpdateWith(d, src, front), d, src, front, k);
    }
  }

  /** One more `d[k] = src[k]` keeps the entries right. */
  lemma UpdateEntriesStep<V>(prev: Dict<V>, d: Dict<V>, src: map<string, V>, front: seq<string>, k: string)
    requires k in src && forall x :: x in front ==> x in src
    requires UpdatedEntries(prev, d, src, front)
    ensures UpdatedEntries(Set(prev, k, src[k]), d, src, front + [k])
  {
    assert forall x :: x in front + [k] <==> x in front || x == k;
  }

  lemma {:induction false} UpdateWithKeys<V>(d: Dict<V>, src: map<string, V>, ks: seq<string>)
    requires forall k :: k in ks ==> k in src
    ensures UpdateWith(d, src, ks).keys == d.keys + NewKeys(ks, d.items.Keys)
    decreases |ks|
  {
    if |ks| > 0 {
      var front := ks[..|ks| - 1];
      UpdateWithKeys(d, src, front);
      UpdateWithItems(d, src, front);
      var k := ks[|ks| - 1];
      var prev := UpdateWith(d, src, front);
      assert k in prev.items <==> k in d.items.Keys || k in NewKeys(front, d.items.Keys);
    }
  }

  /** `d.update(other)`: every key of either dict, the value from `other`
      where both have one, and `d`'s keys first, then `other`'s new keys in
      `other`'s order. */
  function Update<V>(d: Dict<V>, other: Dict<V>): (r: Dict<V>)
    ensures forall k :: k in r.items <==> k in d.items || k in other.items
    ensures forall k :: k in other.items ==> r.items[k] == other.items[k]
    ensures forall k :: k in d.items && k !in other.items ==> r.items[k] == d.items[k]
    ensures r.keys == d.keys + NewKeys(other.keys, d.items.Keys)
  {
    UpdateWithItems(d, other.items, other.keys);
    UpdateWithKeys(d, other.items, other.keys);
    UpdateWith(d, other.items, other.keys)
  }

  /** `d[ks[0]] = vs[0]`, then `d[ks[1]] = vs[1]`, and so on: every key of
      `ks` is added, a repeated key ends with the value of its last
      occurrence, and the other entries of `d` are kept. */
  function SetAll<V>(d: Dict<V>, ks: seq<string>, vs: seq<V>): (r: Dict<V>)
    requires |ks| == |vs|
    ensures SetEntries(r, d, ks, vs)
    decreases |ks|
  {
    if |ks| == 0 then d
    else
      var n := |ks| - 1;
      var front := SetAll(d, ks[..n], vs[..n]);
      SetAllStep(d, ks, vs, ks[..n], vs[..n], front);
      Set(front, ks[n], vs[n])
  }

  /** One more `d[k] = v` keeps the set of keys and the untouched entries
      of `SetAll`'s contract. */
  /** The entries `r` has after `d[k] = v` for each `k`, `v` of `ks`, `vs`
      in turn: the keys of both, the last value given for a key of `ks`,
      `d`'s value elsewhere. */
  ghost predicate SetEntries<V>(r: Dict<V>, d: Dict<V>, ks: seq<string>, vs: seq<V>)
    requires |ks| == |vs|
  {
    && (forall k :: k in r.items <==> k in d.items || k in ks)
    && (forall j :: 0 <= j < |ks| && LastOccurrence(ks, j) ==> r.items[ks[j]] == vs[j])
    && (forall k :: k in d.items && k !in ks ==> r.items[k] == d.items[k])
  }

  lemma SetAllStep<V>(d: Dict<V>, ks: seq<string>, vs: seq<V>,
                      frontKeys: seq<string>, frontValues: seq<V>, front: Dict<V>)
    requires |ks| == |vs| > 0
    requires frontKeys == ks[..|ks| - 1] && frontValues == vs[..|ks| - 1]
    requires SetEntries(front, d, frontKeys, frontValues)
    ensures SetEntries(Set(front, ks[|ks| - 1], vs[|ks| - 1]), d, ks, vs)
  {
    var n := |ks| - 1;
    var r := Set(front, ks[n], vs[n]);
    FrontAndLast(ks);
    forall k ensures k in r.items <==> k in d.items || k in ks {
      assert k in ks <==> k in frontKeys || k == ks[n];
    }
    forall k | k in d.items && k !in ks ensures r.items[k] == d.items[k] {
      assert k !in frontKeys && k != ks[n];
    }
    SetAllLastStep(d, ks, vs, frontKeys, frontValues, front);
  }

  /** One more `d[k] = v` keeps "the last occurrence of a key wins". */
  lemma SetAllLastStep<V>(d: Dict<V>, ks: seq<string>, vs: seq<V>,
                          frontKeys: seq<string>, frontValues: seq<V>, front: Dict<V>)
    requires |ks| == |vs| > 0
    requires frontKeys == ks[..|ks| - 1] && frontValues == vs[..|ks| - 1]
    requires forall k :: k in front.items <==> k in d.items || k in frontKeys
    requires forall j :: 0 <= j < |frontKeys| && LastOccurrence(frontKeys, j) ==>
      front.items[frontKeys[j]] == frontValues[j]
    ensures var n := |ks| - 1; var r := Set(front, ks[n], vs[n]);
      forall j :: 0 <= j < |ks| && LastOccurrence(ks, j) ==> r.items[ks[j]] == vs[j]
  {
    var n := |ks| - 1;
    var r := Set(front, ks[n], vs[n]);
    forall j | 0 <= j < |ks| && LastOccurrence(ks, j)
      ensures r.items[ks[j]] == vs[j]
    {
      if j < n {
        LastOccurrenceInFront(ks, j);
        assert frontKeys[j] == ks[j] && frontValues[j] == vs[j];
      }
    }
  }

  /** The last occurrence of a key before the end is also its last
      occurrence in the list without its final key, and differs from it. */
  lemma LastOccurrenceInFront(ks: seq<string>, j: nat)
    requires j < |ks| - 1 && LastOccurrence(ks, j)
    ensures ks[j] != ks[|ks| - 1] && LastOccurrence(ks[..|ks| - 1], j)
  {
    var front := ks[..|ks| - 1];
    forall l | j < l < |front| ensures front[l] != front[j] {
      assert ks[l] != ks[j];
    }
  }

  /** Applying one more key after a prefix. */
  lemma SetAllSnoc<V>(d: Dict<V>, ks: seq<string>, vs: seq<V>, i: nat)
    requires |ks| == |vs| && i < |ks|
    ensures SetAll(d, ks[..i + 1], vs[..i + 1]) == Set(SetAll(d, ks[..i], vs[..i]), ks[i], vs[i])
  {
    assert ks[..i + 1][..i] == ks[..i] && vs[..i + 1][..i] == vs[..i];
  }
}
