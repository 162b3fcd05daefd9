/// The optional value that the lookups return in place of Python's None.
module Options {
  datatype Option<T> = None | Some(value: T)
}

/// Sequence operations behind the list comprehensions, the insertion-ordered
/// grouping and the `sorted(..., reverse=True)` calls of the metadata tool.
module Sequences {

  predicate NoDup<T(==)>(s: seq<T>) {
    forall i, j | 0 <= i < j < |s| :: s[i] != s[j]
  }

  /** A duplicate-free sequence has as many distinct elements as positions. */
  lemma {:induction false} NoDupCardinality<T>(s: seq<T>)
    requires NoDup(s)
    ensures |set x | x in s| == |s|
  {
    if s != [] {
      NoDupCardinality(s[1..]);
      assert (set x | x in s) == (set x | x in s[1..]) + {s[0]};
      assert s[0] !in s[1..];
    }
  }

  /** [x for x in s if p(x)] */
  function Filter<T(==,!new)>(s: seq<T>, p: T -> bool): (r: seq<T>)
    ensures |r| <= |s|
    ensures forall x :: x in r <==> x in s && p(x)
    ensures NoDup(s) ==> NoDup(r)
  {
    if s == [] then []
    else
      var rest := Filter(s[1..], p);
      assert NoDup(s) ==> s[0] !in rest;
      (if p(s[0]) then [s[0]] else []) + rest
  }

  /** Filtering keeps relative order: it commutes with concatenation. */
  lemma {:induction false} FilterAppend<T(!new)>(a: seq<T>, b: seq<T>, p: T -> bool)
    ensures Filter(a + b, p) == Filter(a, p) + Filter(b, p)
  {
    if a == [] {
      assert a + b == b;
    } else {
      assert (a + b)[0] == a[0];
      assert (a + b)[1..] == a[1..] + b;
      FilterAppend(a[1..], b, p);
    }
  }

  /** The index of the first occurrence of x in s. */
  function FirstIndex<T(==)>(s: seq<T>, x: T): (i: nat)
    requires x in s
    ensures i < |s| && s[i] == x
    ensures forall j | 0 <= j < i :: s[j] != x
  {
    if s[0] == x then 0 else 1 + FirstIndex(s[1..], x)
  }

  lemma FirstIndexInPrefix<T>(s: seq<T>, t: seq<T>, x: T)
    requires x in s
    ensures FirstIndex(s + t, x) == FirstIndex(s, x)
  {
    var a, b := FirstIndex(s, x), FirstIndex(s + t, x);
    assert forall j | 0 <= j < |s| :: (s + t)[j] == s[j];
    assert (s + t)[a] == x;
  }

  /** The elements of s in order of first occurrence, each once: the key
      order of a Python dict filled by inserting the elements of s. */
  function Distinct<T(==,!new)>(s: seq<T>): (r: seq<T>)
    ensures NoDup(r)
    ensures forall x :: x in r <==> x in s
    decreases |s|
  {
    if s == [] then []
    else
      var init, last := s[..|s| - 1], s[|s| - 1];
      assert s == init + [last];
      var r := Distinct(init);
      if last in r then r else r + [last]
  }

  /** Appending one element extends Distinct only when the element is new. */
  lemma DistinctSnoc<T(!new)>(s: seq<T>, x: T)
    ensures Distinct(s + [x]) == if x in Distinct(s) then Distinct(s) else Distinct(s) + [x]
  {
    assert (s + [x])[..|s|] == s;
  }

  /** Distinct lists elements in the order in which they first occur. */
  lemma {:induction false} DistinctKeepsFirstOccurrenceOrder<T(!new)>(s: seq<T>, i: nat, j: nat)
    requires i < j < |Distinct(s)|
    ensures FirstIndex(s, Distinct(s)[i]) < FirstIndex(s, Distinct(s)[j])
    decreases |s|
  {
    var init, last := s[..|s| - 1], s[|s| - 1];
    assert s == init + [last];
    var r, r' := Distinct(s), Distinct(init);
    var x, y := r[i], r[j];
    assert x in r' by {
      if last !in r' { assert i < |r'|; }
    }
    FirstIndexInPrefix(init, [last], x);
    if j < |r'| {
      FirstIndexInPrefix(init, [last], y);
      DistinctKeepsFirstOccurrenceOrder(init, i, j);
    } else {
      assert y == last && last !in init;
      assert FirstIndex(s, y) == |s| - 1;
    }
  }

  /** One more element of the prefix. */
  lemma TakeSnoc<T>(s: seq<T>, i: nat)
    requires i < |s|
    ensures s[..i + 1] == s[..i] + [s[i]]
  {
  }

  function KeysOf<K, V>(pairs: seq<(K, V)>): seq<K> {
    seq(|pairs|, i requires 0 <= i < |pairs| => pairs[i].0)
  }

  /** The values paired with k, in the order of the pairs: what
      `d.setdefault(k, []).append(v)` accumulates for k over all pairs. */
  function Collect<K(==), V(==,!new)>(pairs: seq<(K, V)>, k: K): (r: seq<V>)
    ensures forall v :: v in r <==> (k, v) in pairs
    ensures |r| == multiset(KeysOf(pairs))[k]
    decreases |pairs|
  {
    if pairs == [] then []
    else
      var init, last := pairs[..|pairs| - 1], pairs[|pairs| - 1];
      assert pairs == init + [last];
      assert KeysOf(pairs) == KeysOf(init) + [last.0];
      Collect(init, k) + (if last.0 == k then [last.1] else [])
  }

  lemma KeysOfSnoc<K, V>(pairs: seq<(K, V)>, p: (K, V))
    ensures KeysOf(pairs + [p]) == KeysOf(pairs) + [p.0]
  {
  }

  /** Appending one pair extends exactly the collection of its key. */
  lemma CollectSnoc<K, V(!new)>(pairs: seq<(K, V)>, p: (K, V), k: K)
    ensures Collect(pairs + [p], k) == Collect(pairs, k) + (if p.0 == k then [p.1] else [])
  {
    assert (pairs + [p])[..|pairs|] == pairs;
  }

  /** Collecting keeps the order of the pairs: it commutes with concatenation. */
  lemma {:induction false} CollectAppend<K, V(!new)>(a: seq<(K, V)>, b: seq<(K, V)>, k: K)
    ensures Collect(a + b, k) == Collect(a, k) + Collect(b, k)
    decreases |b|
  {
    if b == [] {
      assert a + b == a;
    } else {
      var init, last := b[..|b| - 1], b[|b| - 1];
      assert b == init + [last];
      CollectAppend(a, init, k);
      CollectAppendSnoc(a, init, last, k);
    }
  }

  lemma SnocAssociates<T>(a: seq<T>, b: seq<T>, p: T)
    ensures a + (b + [p]) == (a + b) + [p]
  {
  }

  /** The step of CollectAppend: one more pair at the end of b. */
  lemma CollectAppendSnoc<K, V(!new)>(a: seq<(K, V)>, b: seq<(K, V)>, p: (K, V), k: K)
    requires Collect(a + b, k) == Collect(a, k) + Collect(b, k)
    ensures Collect(a + (b + [p]), k) == Collect(a, k) + Collect(b + [p], k)
  {
    SnocAssociates(a, b, p);
    CollectSnoc(a + b, p, k);
    CollectSnoc(b, p, k);
  }

  /** A key is collected from at least one pair exactly when it occurs among the keys. */
  lemma CollectNonEmpty<K, V(!new)>(pairs: seq<(K, V)>, k: K)
    ensures Collect(pairs, k) != [] <==> k in KeysOf(pairs)
  {
    var ks := KeysOf(pairs);
    if k in ks {
      var i :| 0 <= i < |ks| && ks[i] == k;
      assert (k, pairs[i].1) in pairs;
      assert pairs[i].1 in Collect(pairs, k);
    } else {
      assert multiset(ks)[k] == 0;
    }
  }

  /** A count ranking: (name, count) pairs in non-increasing count order. */
  predicate NonIncreasing<K>(s: seq<(K, int)>) {
    forall i, j | 0 <= i < j < |s| :: s[i].1 >= s[j].1
  }

  /** Puts x after every element with a larger count and before the rest,
      so that it precedes the elements of equal count. */
  function Insert<K(==)>(x: (K, int), s: seq<(K, int)>): (r: seq<(K, int)>)
    ensures multiset(r) == multiset(s) + multiset{x}
  {
    if s == [] || s[0].1 <= x.1 then
      [x] + s
    else
      assert s == [s[0]] + s[1..];
      [s[0]] + Insert(x, s[1..])
  }

  /** Inserting keeps every count under a bound that all of them respect. */
  lemma InsertBelow<K>(x: (K, int), s: seq<(K, int)>, bound: int)
    requires x.1 <= bound && forall i | 0 <= i < |s| :: s[i].1 <= bound
    ensures forall y | y in Insert(x, s) :: y.1 <= bound
  {
    forall y | y in Insert(x, s) ensures y.1 <= bound {
      assert y in multiset(Insert(x, s));
      if y != x {
        assert y in multiset(s);
      }
    }
  }

  /** Inserting into a ranking gives a ranking. */
  lemma {:induction false} InsertKeepsRanking<K>(x: (K, int), s: seq<(K, int)>)
    requires NonIncreasing(s)
    ensures NonIncreasing(Insert(x, s))
  {
    if s != [] && s[0].1 > x.1 {
      var tail := s[1..];
      var rest := Insert(x, tail);
      InsertKeepsRanking(x, tail);
      assert forall i | 0 <= i < |tail| :: tail[i] == s[i + 1];
      InsertBelow(x, tail, s[0].1);
      var r := [s[0]] + rest;
      assert Insert(x, s) == r;
      forall i, j | 0 <= i < j < |r| ensures r[i].1 >= r[j].1 {
        assert r[j] == rest[j - 1];
        if i > 0 {
          assert r[i] == rest[i - 1];
        } else {
          assert r[j] in rest;
        }
      }
    }
  }

  /** sorted(s, key=lambda p: p[1], reverse=True): a stable sort by
      descending count (equal counts keep their relative order). */
  function SortDesc<K(==)>(s: seq<(K, int)>): (r: seq<(K, int)>)
    ensures NonIncreasing(r)
    ensures multiset(r) == multiset(s)
  {
    if s == [] then []
    else
      assert s == [s[0]] + s[1..];
      InsertKeepsRanking(s[0], SortDesc(s[1..]));
      Insert(s[0], SortDesc(s[1..]))
  }

  /** The position of the first element with the largest count. */
  function FirstMax<K>(s: seq<(K, int)>): (m: nat)
    requires |s| > 0
    ensures m < |s|
    ensures forall j | 0 <= j < |s| :: s[j].1 <= s[m].1
    ensures forall j | 0 <= j < m :: s[j].1 < s[m].1
  {
    if |s| == 1 then 0
    else
      var k := FirstMax(s[1..]) + 1;
      if s[0].1 >= s[k].1 then 0 else k
  }

  /** Stability at the head: the first element of the descending sort is the
      first element of s that has the largest count. */
  lemma {:induction false} SortDescHead<K>(s: seq<(K, int)>)
    requires |s| > 0
    ensures |SortDesc(s)| == |s|
    ensures SortDesc(s)[0] == s[FirstMax(s)]
  {
    assert |SortDesc(s)| == |multiset(SortDesc(s))| == |multiset(s)| == |s|;
    if |s| > 1 {
      var t := SortDesc(s[1..]);
      SortDescHead(s[1..]);
      var k := FirstMax(s[1..]) + 1;
      assert t[0] == s[1..][k - 1] == s[k];
      assert SortDesc(s) == Insert(s[0], t);
      assert Insert(s[0], t)[0] == if t[0].1 <= s[0].1 then s[0] else t[0];
      assert FirstMax(s) == if s[0].1 >= s[k].1 then 0 else k;
    }
  }

  /** sorted(s, key=lambda p: p[1], reverse=True)[:n] */
  function Top<K(==)>(s: seq<(K, int)>, n: nat): (r: seq<(K, int)>)
    ensures |r| == if |s| < n then |s| else n
    ensures NonIncreasing(r)
    ensures forall x | x in r :: x in s
    ensures multiset(r) <= multiset(s)
  {
    var sorted := SortDesc(s);
    assert |sorted| == |multiset(sorted)| == |s|;
    var k := if |sorted| < n then |sorted| else n;
    PrefixSubMultiset(sorted, k);
    assert forall x | x in sorted :: x in multiset(s);
    sorted[..k]
  }

  /** A prefix takes each element no more often than the whole sequence. */
  lemma PrefixSubMultiset<T>(s: seq<T>, k: nat)
    requires k <= |s|
    ensures multiset(s[..k]) <= multiset(s)
    ensures forall x | x in s[..k] :: x in s
  {
    assert s == s[..k] + s[k..];
  }

  /** Each element occurs at most once in a duplicate-free sequence. */
  lemma {:induction false} NoDupMultiplicity<T>(s: seq<T>, x: T)
    requires NoDup(s)
    ensures multiset(s)[x] <= 1
    decreases |s|
  {
    if s != [] {
      var init := s[..|s| - 1];
      NoDupMultiplicity(init, x);
      assert s == init + [s[|s| - 1]];
      assert s[|s| - 1] !in init;
    }
  }

  /** Taking no element more often than a duplicate-free sequence holds it
      gives a duplicate-free sequence. */
  lemma NoDupOfSubMultiset<T>(r: seq<T>, s: seq<T>)
    requires NoDup(s) && multiset(r) <= multiset(s)
    ensures NoDup(r)
  {
    forall i, j | 0 <= i < j < |r|
      ensures r[i] != r[j]
    {
      NoDupMultiplicity(s, r[i]);
      assert r == r[..j] + [r[j]] + r[j + 1..];
      assert r[i] in multiset(r[..j]);
    }
  }

  /** What the top n leaves out counts no more than anything it keeps, and
      it leaves something out only when it already holds n pairs. */
  lemma TopKeepsLargest<K>(s: seq<(K, int)>, n: nat, x: (K, int))
    requires x in s && x !in Top(s, n)
    ensures |Top(s, n)| == n
    ensures forall y | y in Top(s, n) :: x.1 <= y.1
  {
    var sorted := SortDesc(s);
    assert x in multiset(sorted);
    var i :| 0 <= i < |sorted| && sorted[i] == x;
    var r := Top(s, n);
    assert r == sorted[..|r|];
    assert i >= |r|;
    forall y | y in r ensures x.1 <= y.1 {
      var k :| 0 <= k < |r| && r[k] == y;
      assert sorted[k] == y;
    }
  }
}
