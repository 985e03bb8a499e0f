/** Order-preserving filters, first-match search, sums and the
    count-by-key grouping that the pages compute over fetched rows. */
module Seqs {
  import opened Wrappers

  /** `a` can be obtained from `b` by deleting elements: order is kept. */
  predicate IsSubseq<T(==)>(a: seq<T>, b: seq<T>)
    decreases |b|
  {
    if a == [] then true
    else if b == [] then false
    else if a[0] == b[0] then IsSubseq(a[1..], b[1..])
    else IsSubseq(a, b[1..])
  }

  lemma {:induction false} SubseqRefl<T>(xs: seq<T>)
    ensures IsSubseq(xs, xs)
  {
    if xs != [] {
      SubseqRefl(xs[1..]);
    }
  }

  /** JavaScript's `Array.prototype.filter`. */
  function Filter<T(==,!new)>(xs: seq<T>, p: T -> bool): (r: seq<T>)
    ensures |r| <= |xs|
    ensures forall x :: multiset(r)[x] == if p(x) then multiset(xs)[x] else 0
    ensures forall x :: x in r <==> x in xs && p(x)
    ensures IsSubseq(r, xs)
  {
    if xs == [] then []
    else
      var rest := Filter(xs[1..], p);
      assert xs == [xs[0]] + xs[1..];
      if p(xs[0]) then
        assert ([xs[0]] + rest)[1..] == rest;
        [xs[0]] + rest
      else
        assert rest != [] ==> p(rest[0]) && rest[0] != xs[0] by {
          if rest != [] { assert rest[0] in rest; }
        }
        rest
  }

  lemma FilterLengthCons<T(!new)>(xs: seq<T>, p: T -> bool)
    requires xs != []
    ensures |Filter(xs, p)| == (if p(xs[0]) then 1 else 0) + |Filter(xs[1..], p)|
  {
  }

  /** Two predicates that never hold together split a list into two
      filters whose lengths add up to at most the list's length. */
  lemma {:induction false} FilterDisjointLength<T(!new)>(xs: seq<T>, p: T -> bool, q: T -> bool)
    requires forall x :: !(p(x) && q(x))
    ensures |Filter(xs, p)| + |Filter(xs, q)| <= |xs|
  {
    if xs != [] {
      FilterDisjointLength(xs[1..], p, q);
    }
  }

  /** JavaScript's `Array.prototype.find`, giving the index of the first
      element that satisfies `p`. */
  function Find<T>(xs: seq<T>, p: T -> bool): (r: Option<nat>)
    ensures r.Some? ==> r.value < |xs| && p(xs[r.value])
    ensures r.Some? ==> forall j :: 0 <= j < r.value ==> !p(xs[j])
    ensures r.None? ==> forall j :: 0 <= j < |xs| ==> !p(xs[j])
  {
    if xs == [] then None
    else if p(xs[0]) then Some(0)
    else match Find(xs[1..], p)
      case None => None
      case Some(k) => Some(k + 1)
  }

  /** `xs.reduce((sum, x) => sum + f(x), 0)`. */
  function Sum<T>(xs: seq<T>, f: T -> int): int
  {
    if xs == [] then 0 else f(xs[0]) + Sum(xs[1..], f)
  }

  /** The sum of `f` over the elements that satisfy `p`, as a reference
      definition that does not build the filtered list. */
  function SumWhere<T>(xs: seq<T>, p: T -> bool, f: T -> int): int
  {
    if xs == [] then 0 else (if p(xs[0]) then f(xs[0]) else 0) + SumWhere(xs[1..], p, f)
  }

  /** Summing a filtered list is summing the original under the predicate. */
  lemma {:induction false} SumFilter<T(!new)>(xs: seq<T>, p: T -> bool, f: T -> int)
    ensures Sum(Filter(xs, p), f) == SumWhere(xs, p, f)
  {
    if xs != [] {
      SumFilter(xs[1..], p, f);
      var rest := Filter(xs[1..], p);
      if p(xs[0]) {
        assert ([xs[0]] + rest)[1..] == rest;
      }
    }
  }

  /** Elements outside `p` that weigh 0 can be left out of a sum. */
  lemma {:induction false} SumSkipsZeros<T>(xs: seq<T>, p: T -> bool, f: T -> int)
    requires forall x :: !p(x) ==> f(x) == 0
    ensures Sum(xs, f) == SumWhere(xs, p, f)
  {
    if xs != [] {
      SumSkipsZeros(xs[1..], p, f);
    }
  }

  predicate NoDups<T(==)>(xs: seq<T>)
  {
    forall i, j :: 0 <= i < j < |xs| ==> xs[i] != xs[j]
  }

  /** The distinct elements of `xs` in order of first occurrence: the key
      order of a JavaScript object filled by `forEach` over `xs`. */
  function Distinct<T(==,!new)>(xs: seq<T>): (d: seq<T>)
    ensures NoDups(d)
    ensures forall x :: x in d <==> x in xs
  {
    if xs == [] then []
    else
      var d := Distinct(xs[..|xs| - 1]);
      var x := xs[|xs| - 1];
      assert xs == xs[..|xs| - 1] + [x];
      if x in d then d else d + [x]
  }

  /** `Distinct` keeps the order of first occurrence: an element listed
      earlier first occurs earlier in `xs`. */
  lemma {:induction false} DistinctFirstOccurrence<T(!new)>(xs: seq<T>)
    ensures forall i, j :: 0 <= i < j < |Distinct(xs)| ==>
      IndexOf(xs, Distinct(xs)[i]) < IndexOf(xs, Distinct(xs)[j])
  {
    if xs != [] {
      var init := xs[..|xs| - 1];
      var x := xs[|xs| - 1];
      assert xs == init + [x];
      DistinctFirstOccurrence(init);
      var d := Distinct(init);
      forall y | y in d
        ensures IndexOf(xs, y) == IndexOf(init, y)
      {
        IndexOfAppend(init, x, y);
      }
      if x !in d {
        IndexOfLast(init, x);
        assert Distinct(xs) == d + [x];
        forall i | 0 <= i < |d|
          ensures IndexOf(xs, d[i]) < IndexOf(xs, x)
        {
          assert d[i] in d;
        }
      }
    }
  }

  lemma {:induction false} IndexOfAppend<T>(xs: seq<T>, y: T, x: T)
    requires x in xs
    ensures IndexOf(xs + [y], x) == IndexOf(xs, x)
  {
    if xs[0] != x {
      assert (xs + [y])[1..] == xs[1..] + [y];
      IndexOfAppend(xs[1..], y, x);
    }
  }

  lemma {:induction false} IndexOfLast<T>(xs: seq<T>, x: T)
    requires x !in xs
    ensures IndexOf(xs + [x], x) == |xs|
  {
    if xs != [] {
      assert (xs + [x])[1..] == xs[1..] + [x];
      IndexOfLast(xs[1..], x);
    }
  }

  /** One entry of a count-by-key grouping. */
  datatype Group<K> = Group(key: K, count: nat)

  /** The entries for the keys `ds`, each with its number of occurrences in `keys`. */
  function GroupsOver<K(==)>(ds: seq<K>, keys: seq<K>): (gs: seq<Group<K>>)
    ensures |gs| == |ds|
    ensures forall i :: 0 <= i < |ds| ==> gs[i] == Group(ds[i], multiset(keys)[ds[i]])
  {
    if ds == [] then [] else [Group(ds[0], multiset(keys)[ds[0]])] + GroupsOver(ds[1..], keys)
  }

  /** `Object.entries` of the record built by `groups[k] = (groups[k] || 0) + 1`. */
  function Grouping<K(==,!new)>(keys: seq<K>): (gs: seq<Group<K>>)
    ensures forall i, j :: 0 <= i < j < |gs| ==> gs[i].key != gs[j].key
    ensures forall k :: k in keys <==> exists i :: 0 <= i < |gs| && gs[i].key == k
    ensures forall i :: 0 <= i < |gs| ==> gs[i].count == multiset(keys)[gs[i].key] > 0
  {
    var ds := Distinct(keys);
    var gs := GroupsOver(ds, keys);
    assert forall k :: k in keys ==> gs[IndexOf(ds, k)].key == k;
    assert forall i :: 0 <= i < |ds| ==> ds[i] in keys;
    gs
  }

  /** The grouping lists its keys in order of first occurrence. */
  lemma GroupingFirstOccurrence<K(!new)>(keys: seq<K>)
    ensures forall i, j :: 0 <= i < j < |Grouping(keys)| ==>
      IndexOf(keys, Grouping(keys)[i].key) < IndexOf(keys, Grouping(keys)[j].key)
  {
    DistinctFirstOccurrence(keys);
    assert Grouping(keys) == GroupsOver(Distinct(keys), keys);
  }

  /** Grouping elements by a key `f`: every element's key is listed. */
  lemma GroupingListsEveryKey<T, K(!new)>(xs: seq<T>, f: T -> K, keys: seq<K>)
    requires |keys| == |xs| && forall i :: 0 <= i < |xs| ==> keys[i] == f(xs[i])
    ensures forall x :: x in xs ==> exists i :: 0 <= i < |Grouping(keys)| && Grouping(keys)[i].key == f(x)
  {
    var gs := Grouping(keys);
    forall x | x in xs ensures exists i :: 0 <= i < |gs| && gs[i].key == f(x) {
      var k :| 0 <= k < |xs| && xs[k] == x;
      assert keys[k] in keys;
    }
  }

  /** Grouping elements by a key `f`: every listed key is some element's key. */
  lemma GroupingListsOnlyKeys<T, K(!new)>(xs: seq<T>, f: T -> K, keys: seq<K>)
    requires |keys| == |xs| && forall i :: 0 <= i < |xs| ==> keys[i] == f(xs[i])
    ensures forall i :: 0 <= i < |Grouping(keys)| ==> exists x :: x in xs && f(x) == Grouping(keys)[i].key
  {
    var gs := Grouping(keys);
    forall i | 0 <= i < |gs| ensures exists x :: x in xs && f(x) == gs[i].key {
      var k :| 0 <= k < |keys| && keys[k] == gs[i].key;
      assert xs[k] in xs;
    }
  }

  /** The number of occurrences of a key among the projected keys is the
      number of elements with that key. */
  lemma KeyCountIsFilterLength<T(!new), K>(xs: seq<T>, f: T -> K, keys: seq<K>, k: K, p: T -> bool)
    requires |keys| == |xs| && forall i :: 0 <= i < |xs| ==> keys[i] == f(xs[i])
    requires forall x :: p(x) <==> f(x) == k
    ensures multiset(keys)[k] == |Filter(xs, p)|
  {
    KeyCountIsCount(xs, f, keys, k, p);
    FilterLengthIsCount(xs, p);
  }

  /** The number of elements of `xs` that satisfy `p`. */
  function CountWhere<T>(xs: seq<T>, p: T -> bool): nat
  {
    if xs == [] then 0 else (if p(xs[0]) then 1 else 0) + CountWhere(xs[1..], p)
  }

  lemma {:induction false} KeyCountIsCount<T, K>(xs: seq<T>, f: T -> K, keys: seq<K>, k: K, p: T -> bool)
    requires |keys| == |xs| && forall i :: 0 <= i < |xs| ==> keys[i] == f(xs[i])
    requires forall x :: p(x) <==> f(x) == k
    ensures multiset(keys)[k] == CountWhere(xs, p)
  {
    if xs != [] {
      KeyCountIsCount(xs[1..], f, keys[1..], k, p);
      assert keys == [keys[0]] + keys[1..];
    }
  }

  lemma {:induction false} FilterLengthIsCount<T(!new)>(xs: seq<T>, p: T -> bool)
    ensures |Filter(xs, p)| == CountWhere(xs, p)
  {
    if xs != [] {
      FilterLengthIsCount(xs[1..], p);
      FilterLengthCons(xs, p);
    }
  }

  function IndexOf<T(==)>(xs: seq<T>, x: T): (i: nat)
    requires x in xs
    ensures i < |xs| && xs[i] == x
  {
    if xs[0] == x then 0 else 1 + IndexOf(xs[1..], x)
  }

  function SumCounts<K>(gs: seq<Group<K>>): nat
  {
    if gs == [] then 0 else gs[0].count + SumCounts(gs[1..])
  }

  lemma {:induction false} SumCountsNoKeys<K>(ds: seq<K>)
    ensures SumCounts(GroupsOver(ds, [])) == 0
  {
    if ds != [] {
      SumCountsNoKeys(ds[1..]);
    }
  }

  /** Adding one key raises the total by one exactly when the key is listed. */
  lemma {:induction false} SumCountsSnoc<K>(ds: seq<K>, keys: seq<K>, x: K)
    requires NoDups(ds)
    ensures SumCounts(GroupsOver(ds, keys + [x]))
         == SumCounts(GroupsOver(ds, keys)) + (if x in ds then 1 else 0)
  {
    if ds != [] {
      assert NoDups(ds[1..]);
      SumCountsSnoc(ds[1..], keys, x);
      assert multiset(keys + [x]) == multiset(keys) + multiset{x};
      assert x in ds <==> x == ds[0] || x in ds[1..];
      assert x == ds[0] ==> x !in ds[1..];
    }
  }

  lemma {:induction false} SumCountsCovering<K>(ds: seq<K>, keys: seq<K>)
    requires NoDups(ds)
    requires forall k :: k in keys ==> k in ds
    ensures SumCounts(GroupsOver(ds, keys)) == |keys|
  {
    if keys == [] {
      SumCountsNoKeys(ds);
    } else {
      var init, x := keys[..|keys| - 1], keys[|keys| - 1];
      assert keys == init + [x];
      SumCountsCovering(ds, init);
      SumCountsSnoc(ds, init, x);
    }
  }

  /** The counts of a grouping add up to the number of grouped elements. */
  lemma GroupingTotal<K(!new)>(keys: seq<K>)
    ensures SumCounts(Grouping(keys)) == |keys|
  {
    SumCountsCovering(Distinct(keys), keys);
  }
}
