/// Python's insertion-ordered dict with string keys, and the three ways the
/// metadata tool fills one: appending to a list per key (setdefault), counting
/// per key (get(k, 0) + 1), and a dict comprehension (a later key overwrites).
module Dicts {
  import opened Sequences

  /** The keys in insertion order, and what each key maps to. */
  datatype Dict<V> = Dict(keys: seq<string>, entries: map<string, V>) {
    ghost predicate Valid() {
      NoDup(keys) && forall k :: k in entries <==> k in keys
    }
  }

  /** d.items(), in insertion order. */
  function Items<V>(d: Dict<V>): seq<(string, V)>
    requires d.Valid()
  {
    seq(|d.keys|, i requires 0 <= i < |d.keys| => (d.keys[i], d.entries[d.keys[i]]))
  }

  /** The items are exactly the (key, value) pairs of the dict. */
  lemma ItemsAreEntries<V>(d: Dict<V>, x: (string, V))
    requires d.Valid()
    ensures x in Items(d) <==> x.0 in d.entries && d.entries[x.0] == x.1
  {
    if x.0 in d.entries && d.entries[x.0] == x.1 {
      var i :| 0 <= i < |d.keys| && d.keys[i] == x.0;
      assert Items(d)[i] == x;
    }
  }

  /** len(d) is the number of keys. */
  lemma SizeIsKeyCount<V>(d: Dict<V>)
    requires d.Valid()
    ensures |d.entries| == |d.keys|
  {
    NoDupCardinality(d.keys);
    assert d.entries.Keys == set k | k in d.keys;
  }

  /** Filtering the keys keeps exactly one key per entry that passes. */
  lemma FilterKeysCount<V>(d: Dict<V>, p: string -> bool)
    requires d.Valid()
    ensures |Filter(d.keys, p)| == |set k | k in d.entries && p(k)|
  {
    var r := Filter(d.keys, p);
    NoDupCardinality(r);
    assert (set k | k in r) == set k | k in d.entries && p(k);
  }

  /** d.setdefault(k, []).append(v) */
  function SetDefaultAppend<V>(d: Dict<seq<V>>, k: string, v: V): Dict<seq<V>> {
    if k in d.entries then d.(entries := d.entries[k := d.entries[k] + [v]])
    else Dict(d.keys + [k], d.entries[k := [v]])
  }

  /** d is what the setdefault-append loop has built from pairs. */
  ghost predicate GroupedFrom<V(!new)>(d: Dict<seq<V>>, pairs: seq<(string, V)>) {
    && d.Valid()
    && d.keys == Distinct(KeysOf(pairs))
    && forall k | k in d.entries :: d.entries[k] == Collect(pairs, k)
  }

  lemma SetDefaultAppendStep<V(!new)>(d: Dict<seq<V>>, pairs: seq<(string, V)>, k: string, v: V)
    requires GroupedFrom(d, pairs)
    ensures GroupedFrom(SetDefaultAppend(d, k, v), pairs + [(k, v)])
  {
    KeysOfSnoc(pairs, (k, v));
    DistinctSnoc(KeysOf(pairs), k);
    forall k' ensures Collect(pairs + [(k, v)], k') == Collect(pairs, k') + (if k == k' then [v] else []) {
      CollectSnoc(pairs, (k, v), k');
    }
    var d' := SetDefaultAppend(d, k, v);
    forall k' | k' in d'.entries ensures d'.entries[k'] == Collect(pairs + [(k, v)], k') {
      if k' != k {
        assert k' in d.entries;
      } else if k !in d.entries {
        assert k !in KeysOf(pairs);
        CollectNonEmpty(pairs, k);
      }
    }
  }

  lemma GroupRowsStep<V(!new)>(d: Dict<seq<V>>, pairs: seq<(string, V)>, i: nat)
    requires i < |pairs| && GroupedFrom(d, pairs[..i])
    ensures GroupedFrom(SetDefaultAppend(d, pairs[i].0, pairs[i].1), pairs[..i + 1])
  {
    TakeSnoc(pairs, i);
    SetDefaultAppendStep(d, pairs[..i], pairs[i].0, pairs[i].1);
  }

  lemma GroupedAll<V(!new)>(d: Dict<seq<V>>, pairs: seq<(string, V)>)
    requires GroupedFrom(d, pairs[..|pairs|])
    ensures GroupedFrom(d, pairs)
  {
    assert pairs[..|pairs|] == pairs;
  }

  /** The loop `for k, v in pairs: d.setdefault(k, []).append(v)` on a fresh
      dict: one key per distinct k, in order of first occurrence, holding
      every value paired with it, in order. */
  method GroupRows<V(==,!new)>(pairs: seq<(string, V)>) returns (d: Dict<seq<V>>)
    ensures d.Valid()
    ensures d.keys == Distinct(KeysOf(pairs))
    ensures forall k | k in d.entries :: d.entries[k] == Collect(pairs, k)
  {
    d := Dict([], map[]);
    for i := 0 to |pairs|
      invariant GroupedFrom(d, pairs[..i])
    {
      GroupRowsStep(d, pairs, i);
      d := SetDefaultAppend(d, pairs[i].0, pairs[i].1);
    }
    GroupedAll(d, pairs);
  }

  /** A key the grouping loop never created has no values paired with it. */
  lemma GroupedMissing<V(!new)>(d: Dict<seq<V>>, pairs: seq<(string, V)>, k: string)
    requires d.Valid() && d.keys == Distinct(KeysOf(pairs)) && k !in d.entries
    ensures Collect(pairs, k) == []
  {
    CollectNonEmpty(pairs, k);
  }

  /** The counter that the loop of CountOccurrences builds: each distinct
      name, in order of first occurrence, with its number of occurrences. */
  function Counter(names: seq<string>): (c: Dict<int>)
    ensures c.Valid()
    ensures forall k | k in c.entries :: c.entries[k] >= 1
  {
    Dict(Distinct(names), map k | k in names :: multiset(names)[k])
  }

  /** d[k] = d.get(k, 0) + 1 */
  function Increment(d: Dict<int>, k: string): Dict<int> {
    var count := if k in d.entries then d.entries[k] else 0;
    Dict(if k in d.entries then d.keys else d.keys + [k], d.entries[k := count + 1])
  }

  /** d is what the counting loop has built from names. */
  ghost predicate CountedFrom(d: Dict<int>, names: seq<string>) {
    && d.Valid()
    && d.keys == Distinct(names)
    && forall k | k in d.entries :: d.entries[k] == multiset(names)[k]
  }

  lemma IncrementStep(d: Dict<int>, names: seq<string>, k: string)
    requires CountedFrom(d, names)
    ensures CountedFrom(Increment(d, k), names + [k])
  {
    DistinctSnoc(names, k);
    assert multiset(names + [k]) == multiset(names) + multiset{k};
  }

  /** What the counting loop builds is the Counter of the names. */
  lemma CountedIsCounter(d: Dict<int>, names: seq<string>)
    requires CountedFrom(d, names)
    ensures d == Counter(names)
  {
    var c := Counter(names);
    assert d.entries.Keys == c.entries.Keys;
  }

  /** The loop `for k in names: d[k] = d.get(k, 0) + 1` on a fresh dict. */
  method CountOccurrences(names: seq<string>) returns (d: Dict<int>)
    ensures d.Valid()
    ensures d.keys == Distinct(names)
    ensures forall k | k in d.entries :: d.entries[k] == multiset(names)[k]
    ensures d == Counter(names)
  {
    d := Dict([], map[]);
    for i := 0 to |names|
      invariant CountedFrom(d, names[..i])
    {
      TakeSnoc(names, i);
      IncrementStep(d, names[..i], names[i]);
      d := Increment(d, names[i]);
    }
    assert names[..|names|] == names;
    CountedIsCounter(d, names);
  }

  /** {k: v for k, v in pairs}: the keys in order of first occurrence, each
      holding the value of the last pair with that key. */
  function FromPairs<V>(pairs: seq<(string, V)>): (d: Dict<V>)
    ensures d.Valid()
    ensures d.keys == Distinct(KeysOf(pairs))
    decreases |pairs|
  {
    if pairs == [] then Dict([], map[])
    else
      var init, last := pairs[..|pairs| - 1], pairs[|pairs| - 1];
      assert pairs == init + [last];
      KeysOfSnoc(init, last);
      DistinctSnoc(KeysOf(init), last.0);
      var d := FromPairs(init);
      Dict(if last.0 in d.entries then d.keys else d.keys + [last.0], d.entries[last.0 := last.1])
  }

  /** No pair after position i has key k, if none in the prefix does and the last does not. */
  lemma NoLaterKey<V>(pairs: seq<(string, V)>, init: seq<(string, V)>, i: nat, k: string)
    requires |pairs| > 0 && init == pairs[..|pairs| - 1] && pairs[|pairs| - 1].0 != k
    requires i < |init| && forall j | i < j < |init| :: init[j].0 != k
    ensures forall j | i < j < |pairs| :: pairs[j].0 != k
  {
    forall j | i < j < |pairs| ensures pairs[j].0 != k {
      if j < |init| {
        assert init[j] == pairs[j];
      }
    }
  }

  /** The last pair sets its key. */
  lemma FromPairsLast<V>(pairs: seq<(string, V)>)
    requires pairs != []
    ensures FromPairs(pairs).entries == FromPairs(pairs[..|pairs| - 1]).entries[pairs[|pairs| - 1].0 := pairs[|pairs| - 1].1]
  {
  }

  /** In a dict comprehension a later pair for a key overwrites the value of
      an earlier one: each key holds the value of the last pair with that key. */
  lemma {:induction false} FromPairsLastWins<V>(pairs: seq<(string, V)>, k: string)
    requires k in FromPairs(pairs).entries
    ensures exists i | 0 <= i < |pairs| ::
      && pairs[i].0 == k && pairs[i].1 == FromPairs(pairs).entries[k]
      && forall j | i < j < |pairs| :: pairs[j].0 != k
    decreases |pairs|
  {
    var init, last := pairs[..|pairs| - 1], pairs[|pairs| - 1];
    var d, d0 := FromPairs(pairs), FromPairs(init);
    FromPairsLast(pairs);
    if last.0 != k {
      assert k in d0.entries && d.entries[k] == d0.entries[k];
      FromPairsLastWins(init, k);
      var i :| 0 <= i < |init| && init[i].0 == k && init[i].1 == d0.entries[k]
        && forall j | i < j < |init| :: init[j].0 != k;
      assert pairs[i] == init[i];
      NoLaterKey(pairs, init, i, k);
    } else {
      var i := |pairs| - 1;
      assert pairs[i].0 == k && pairs[i].1 == d.entries[k];
    }
  }

}
