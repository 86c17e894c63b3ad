/** Grouping a list by a key into buckets kept in first-appearance order: the
    `find`-or-`push` loops of the hooks, and the order JavaScript gives the keys of a plain
    object used as a bucket table. */
module Grouping {
  import opened Common

  /** A bucket: a key and the items filed under it, in the order they were met. */
  datatype Group<K, T> = Group(key: K, members: seq<T>)

  function KeyIs<K(==), T>(k: K): Group<K, T> -> bool
  {
    (g: Group<K, T>) => g.key == k
  }

  /** One step of the loop: file `x` under `k`, opening a new bucket at the end when there
      is none for `k` yet. */
  function AddTo<K(==), T>(groups: seq<Group<K, T>>, k: K, x: T): (r: seq<Group<K, T>>)
    ensures |groups| <= |r| <= |groups| + 1
  {
    var m := FirstWhere(groups, KeyIs(k));
    if m == -1 then groups + [Group(k, [x])] else groups[m := Group(k, groups[m].members + [x])]
  }

  /** The buckets after every item was filed; an item whose key is absent is skipped. */
  function GroupBy<K(==), T>(xs: seq<T>, key: T -> Option<K>): (r: seq<Group<K, T>>)
    ensures |r| <= |xs|
  {
    if |xs| == 0 then []
    else
      var before := GroupBy(xs[..|xs| - 1], key);
      var k := key(xs[|xs| - 1]);
      if k.Some? then AddTo(before, k.value, xs[|xs| - 1]) else before
  }

  /** The items with key `k`, in order. */
  function Members<K(==), T>(xs: seq<T>, key: T -> Option<K>, k: K): (r: seq<T>)
    ensures |r| <= |xs|
  {
    if |xs| == 0 then []
    else Members(xs[..|xs| - 1], key, k) + (if key(xs[|xs| - 1]) == Some(k) then [xs[|xs| - 1]] else [])
  }

  function HasKeyOf<K(==), T>(key: T -> Option<K>, k: K): T -> bool
  {
    (x: T) => key(x) == Some(k)
  }

  /** The position of the first item with key `k`, or -1. */
  function FirstWith<K(==), T>(xs: seq<T>, key: T -> Option<K>, k: K): int
  {
    FirstWhere(xs, HasKeyOf(key, k))
  }

  /** Some bucket has key `k`. */
  ghost predicate KeyIn<K(!new), T>(groups: seq<Group<K, T>>, k: K)
  {
    exists p :: 0 <= p < |groups| && groups[p].key == k
  }

  /** Some item has key `k`. */
  ghost predicate Met<K(!new), T>(xs: seq<T>, key: T -> Option<K>, k: K)
  {
    exists i :: 0 <= i < |xs| && key(xs[i]) == Some(k)
  }

  ghost predicate DistinctKeys<K(!new), T>(groups: seq<Group<K, T>>)
  {
    forall p, q :: 0 <= p < q < |groups| ==> groups[p].key != groups[q].key
  }

  ghost predicate MembersFrom<K(!new), T>(groups: seq<Group<K, T>>, xs: seq<T>, key: T -> Option<K>)
  {
    forall p :: 0 <= p < |groups| ==> groups[p].members == Members(xs, key, groups[p].key)
  }

  ghost predicate KeysMet<K(!new), T>(groups: seq<Group<K, T>>, xs: seq<T>, key: T -> Option<K>)
  {
    forall k :: KeyIn(groups, k) <==> Met(xs, key, k)
  }

  ghost predicate FirstAppearance<K(!new), T>(groups: seq<Group<K, T>>, xs: seq<T>, key: T -> Option<K>)
  {
    forall p, q :: 0 <= p < q < |groups| ==> FirstWith(xs, key, groups[p].key) < FirstWith(xs, key, groups[q].key)
  }

  /** `groups` is the bucketing of `xs`: one bucket per key met, no key twice, each bucket
      holding exactly the items of its key in order, and the buckets in the order in which
      their keys first appear. */
  ghost predicate GroupedFrom<K(!new), T>(groups: seq<Group<K, T>>, xs: seq<T>, key: T -> Option<K>)
  {
    DistinctKeys(groups) && MembersFrom(groups, xs, key) && KeysMet(groups, xs, key) && FirstAppearance(groups, xs, key)
  }

  /** A key is met in a list exactly when it has a first position. */
  lemma FirstWithMet<K(!new), T>(xs: seq<T>, key: T -> Option<K>, k: K)
    ensures Met(xs, key, k) <==> FirstWith(xs, key, k) != -1
    ensures FirstWith(xs, key, k) < |xs|
  {
    if Met(xs, key, k) {
      var i :| 0 <= i < |xs| && key(xs[i]) == Some(k);
      assert HasKeyOf(key, k)(xs[i]);
    }
  }

  /** One more item: a key is met when it was before or is the new item's; its first
      position moves only when it was not met before. */
  lemma Snoc<K(!new), T>(xs: seq<T>, key: T -> Option<K>, k: K)
    requires |xs| > 0
    ensures Met(xs, key, k) <==> Met(xs[..|xs| - 1], key, k) || key(xs[|xs| - 1]) == Some(k)
    ensures FirstWith(xs, key, k) ==
              if Met(xs[..|xs| - 1], key, k) then FirstWith(xs[..|xs| - 1], key, k)
              else if key(xs[|xs| - 1]) == Some(k) then |xs| - 1 else -1
    ensures Members(xs, key, k) == Members(xs[..|xs| - 1], key, k) + (if key(xs[|xs| - 1]) == Some(k) then [xs[|xs| - 1]] else [])
  {
    MetSnoc(xs, key, k);
    FirstWithSnoc(xs, key, k);
  }

  lemma MetSnoc<K(!new), T>(xs: seq<T>, key: T -> Option<K>, k: K)
    requires |xs| > 0
    ensures Met(xs, key, k) <==> Met(xs[..|xs| - 1], key, k) || key(xs[|xs| - 1]) == Some(k)
  {
    var init := xs[..|xs| - 1];
    if Met(xs, key, k) {
      var i :| 0 <= i < |xs| && key(xs[i]) == Some(k);
      if i < |init| {
        assert key(init[i]) == Some(k);
      }
    }
    if Met(init, key, k) {
      var i :| 0 <= i < |init| && key(init[i]) == Some(k);
      assert key(xs[i]) == Some(k);
    }
  }

  lemma FirstWithSnoc<K(!new), T>(xs: seq<T>, key: T -> Option<K>, k: K)
    requires |xs| > 0
    ensures FirstWith(xs, key, k) ==
              if Met(xs[..|xs| - 1], key, k) then FirstWith(xs[..|xs| - 1], key, k)
              else if key(xs[|xs| - 1]) == Some(k) then |xs| - 1 else -1
  {
    FirstWhereSnoc(xs, HasKeyOf(key, k));
    FirstWithMet(xs[..|xs| - 1], key, k);
    assert HasKeyOf(key, k)(xs[|xs| - 1]) <==> key(xs[|xs| - 1]) == Some(k);
  }

  /** No item has key `k`: there is no member. */
  lemma {:induction false} MembersNone<K(!new), T>(xs: seq<T>, key: T -> Option<K>, k: K)
    requires !Met(xs, key, k)
    ensures Members(xs, key, k) == []
  {
    if |xs| > 0 {
      var init := xs[..|xs| - 1];
      forall i | 0 <= i < |init|
        ensures key(init[i]) != Some(k)
      {
        assert init[i] == xs[i];
      }
      MembersNone(init, key, k);
      assert key(xs[|xs| - 1]) != Some(k);
    }
  }

  /** An item is a member of the bucket of `k` exactly when it is in the list with key `k`. */
  lemma {:induction false} MembersHave<K(!new), T>(xs: seq<T>, key: T -> Option<K>, k: K)
    ensures forall x :: x in Members(xs, key, k) <==> x in xs && key(x) == Some(k)
  {
    if |xs| > 0 {
      var init, last := xs[..|xs| - 1], xs[|xs| - 1];
      MembersHave(init, key, k);
      assert xs == init + [last];
      forall x
        ensures x in xs <==> x in init || x == last
      {
      }
    }
  }

  /** The bucket with key `k` is the one `find` returns. */
  lemma KeyInFound<K(!new), T>(groups: seq<Group<K, T>>, k: K)
    ensures KeyIn(groups, k) <==> FirstWhere(groups, KeyIs(k)) != -1
  {
    if KeyIn(groups, k) {
      var p :| 0 <= p < |groups| && groups[p].key == k;
      assert KeyIs(k)(groups[p]);
    }
  }

  /** A key seen for the first time opens the last bucket. */
  lemma GroupedNewKey<K(!new), T>(before: seq<Group<K, T>>, xs: seq<T>, key: T -> Option<K>, k: K)
    requires |xs| > 0 && key(xs[|xs| - 1]) == Some(k)
    requires GroupedFrom(before, xs[..|xs| - 1], key)
    requires !KeyIn(before, k)
    ensures GroupedFrom(before + [Group(k, [xs[|xs| - 1]])], xs, key)
  {
    var after := before + [Group(k, [xs[|xs| - 1]])];
    forall p, q | 0 <= p < q < |after|
      ensures after[p].key != after[q].key
    {
      if q == |before| {
        assert before[p].key != k;
      }
    }
    NewKeyMembers(before, xs, key, k);
    NewKeyKeys(before, xs, key, k);
    NewKeyFirst(before, xs, key, k);
  }

  lemma NewKeyMembers<K(!new), T>(before: seq<Group<K, T>>, xs: seq<T>, key: T -> Option<K>, k: K)
    requires |xs| > 0 && key(xs[|xs| - 1]) == Some(k)
    requires MembersFrom(before, xs[..|xs| - 1], key) && KeysMet(before, xs[..|xs| - 1], key)
    requires !KeyIn(before, k)
    ensures MembersFrom(before + [Group(k, [xs[|xs| - 1]])], xs, key)
  {
    var after := before + [Group(k, [xs[|xs| - 1]])];
    assert !Met(xs[..|xs| - 1], key, k);
    MembersNone(xs[..|xs| - 1], key, k);
    forall p | 0 <= p < |after|
      ensures after[p].members == Members(xs, key, after[p].key)
    {
      Snoc(xs, key, after[p].key);
      if p < |before| {
        assert before[p].key != k;
      }
    }
  }

  lemma NewKeyKeys<K(!new), T>(before: seq<Group<K, T>>, xs: seq<T>, key: T -> Option<K>, k: K)
    requires |xs| > 0 && key(xs[|xs| - 1]) == Some(k)
    requires KeysMet(before, xs[..|xs| - 1], key)
    ensures KeysMet(before + [Group(k, [xs[|xs| - 1]])], xs, key)
  {
    var after := before + [Group(k, [xs[|xs| - 1]])];
    forall k': K
      ensures KeyIn(after, k') <==> Met(xs, key, k')
    {
      Snoc(xs, key, k');
      if KeyIn(after, k') {
        var p :| 0 <= p < |after| && after[p].key == k';
        if p < |before| {
          assert KeyIn(before, k');
        }
      }
      if KeyIn(before, k') {
        var p :| 0 <= p < |before| && before[p].key == k';
        assert after[p].key == k';
      }
      if k' == k {
        assert after[|before|].key == k';
      }
    }
  }

  lemma NewKeyFirst<K(!new), T>(before: seq<Group<K, T>>, xs: seq<T>, key: T -> Option<K>, k: K)
    requires |xs| > 0 && key(xs[|xs| - 1]) == Some(k)
    requires KeysMet(before, xs[..|xs| - 1], key) && FirstAppearance(before, xs[..|xs| - 1], key)
    requires !KeyIn(before, k)
    ensures FirstAppearance(before + [Group(k, [xs[|xs| - 1]])], xs, key)
  {
    var init := xs[..|xs| - 1];
    var after := before + [Group(k, [xs[|xs| - 1]])];
    forall p, q | 0 <= p < q < |after|
      ensures FirstWith(xs, key, after[p].key) < FirstWith(xs, key, after[q].key)
    {
      var kp, kq := after[p].key, after[q].key;
      assert KeyIn(before, kp);
      Snoc(xs, key, kp);
      Snoc(xs, key, kq);
      FirstWithMet(init, key, kp);
      if q < |before| {
        assert KeyIn(before, kq);
      } else {
        assert !Met(init, key, kq);
      }
    }
  }

  /** A key seen before adds the item to the end of its bucket. */
  lemma GroupedOldKey<K(!new), T>(before: seq<Group<K, T>>, xs: seq<T>, key: T -> Option<K>, k: K, m: int)
    requires |xs| > 0 && key(xs[|xs| - 1]) == Some(k)
    requires GroupedFrom(before, xs[..|xs| - 1], key)
    requires 0 <= m < |before| && before[m].key == k
    ensures GroupedFrom(before[m := Group(k, before[m].members + [xs[|xs| - 1]])], xs, key)
  {
    var after := before[m := Group(k, before[m].members + [xs[|xs| - 1]])];
    assert DistinctKeys(after);
    forall p | 0 <= p < |after|
      ensures after[p].members == Members(xs, key, after[p].key)
    {
      Snoc(xs, key, after[p].key);
    }
    OldKeyKeys(before, xs, key, k, m);
    OldKeyFirst(before, xs, key, k, m);
  }

  lemma OldKeyKeys<K(!new), T>(before: seq<Group<K, T>>, xs: seq<T>, key: T -> Option<K>, k: K, m: int)
    requires |xs| > 0 && key(xs[|xs| - 1]) == Some(k)
    requires KeysMet(before, xs[..|xs| - 1], key)
    requires 0 <= m < |before| && before[m].key == k
    ensures KeysMet(before[m := Group(k, before[m].members + [xs[|xs| - 1]])], xs, key)
  {
    var after := before[m := Group(k, before[m].members + [xs[|xs| - 1]])];
    forall k': K
      ensures KeyIn(after, k') <==> Met(xs, key, k')
    {
      Snoc(xs, key, k');
      if KeyIn(after, k') {
        var p :| 0 <= p < |after| && after[p].key == k';
        assert before[p].key == k';
      }
      if KeyIn(before, k') {
        var p :| 0 <= p < |before| && before[p].key == k';
        assert after[p].key == k';
      }
      if k' == k {
        assert after[m].key == k';
      }
    }
  }

  lemma OldKeyFirst<K(!new), T>(before: seq<Group<K, T>>, xs: seq<T>, key: T -> Option<K>, k: K, m: int)
    requires |xs| > 0 && key(xs[|xs| - 1]) == Some(k)
    requires KeysMet(before, xs[..|xs| - 1], key) && FirstAppearance(before, xs[..|xs| - 1], key)
    requires 0 <= m < |before| && before[m].key == k
    ensures FirstAppearance(before[m := Group(k, before[m].members + [xs[|xs| - 1]])], xs, key)
  {
    var after := before[m := Group(k, before[m].members + [xs[|xs| - 1]])];
    forall p, q | 0 <= p < q < |after|
      ensures FirstWith(xs, key, after[p].key) < FirstWith(xs, key, after[q].key)
    {
      assert KeyIn(before, after[p].key) && KeyIn(before, after[q].key);
      Snoc(xs, key, after[p].key);
      Snoc(xs, key, after[q].key);
    }
  }

  /** An item without a key leaves the buckets as they were. */
  lemma GroupedNoKey<K(!new), T>(before: seq<Group<K, T>>, xs: seq<T>, key: T -> Option<K>)
    requires |xs| > 0 && key(xs[|xs| - 1]).None?
    requires GroupedFrom(before, xs[..|xs| - 1], key)
    ensures GroupedFrom(before, xs, key)
  {
    forall p | 0 <= p < |before|
      ensures before[p].members == Members(xs, key, before[p].key)
    {
      Snoc(xs, key, before[p].key);
    }
    forall k': K
      ensures KeyIn(before, k') <==> Met(xs, key, k')
    {
      Snoc(xs, key, k');
    }
    forall p, q | 0 <= p < q < |before|
      ensures FirstWith(xs, key, before[p].key) < FirstWith(xs, key, before[q].key)
    {
      assert KeyIn(before, before[p].key) && KeyIn(before, before[q].key);
      Snoc(xs, key, before[p].key);
      Snoc(xs, key, before[q].key);
    }
  }

  /** The bucketing is what it claims to be. */
  lemma {:induction false} GroupByMeaning<K(!new), T>(xs: seq<T>, key: T -> Option<K>)
    ensures GroupedFrom(GroupBy(xs, key), xs, key)
  {
    if |xs| > 0 {
      var init, x := xs[..|xs| - 1], xs[|xs| - 1];
      var before := GroupBy(init, key);
      GroupByMeaning(init, key);
      var k := key(x);
      if k.Some? {
        KeyInFound(before, k.value);
        var m := FirstWhere(before, KeyIs(k.value));
        if m == -1 {
          GroupedNewKey(before, xs, key, k.value);
        } else {
          GroupedOldKey(before, xs, key, k.value, m);
        }
      } else {
        GroupedNoKey(before, xs, key);
      }
    }
  }

  /** The `forEach` that looks up each item's bucket with `find` and pushes into it,
      opening a bucket when there is none. */
  method GroupItems<K(==), T>(xs: seq<T>, key: T -> Option<K>) returns (groups: seq<Group<K, T>>)
    ensures groups == GroupBy(xs, key)
  {
    groups := [];
    for i := 0 to |xs|
      invariant groups == GroupBy(xs[..i], key)
    {
      var k := key(xs[i]);
      assert xs[..i + 1][..i] == xs[..i];
      if k.Some? {
        var m := FirstWhere(groups, KeyIs(k.value));
        if m == -1 {
          groups := groups + [Group(k.value, [xs[i]])];
        } else {
          groups := groups[m := Group(k.value, groups[m].members + [xs[i]])];
        }
      }
    }
    assert xs[..|xs|] == xs;
  }

  // --------------------------------------------------------------- sums

  /** `f(s[0]) + ... + f(s[|s| - 1])`. */
  function SumOf<T>(s: seq<T>, f: T -> int): int
  {
    if |s| == 0 then 0 else SumOf(s[..|s| - 1], f) + f(s[|s| - 1])
  }

  lemma {:induction false} SumOfAppend<T>(a: seq<T>, b: seq<T>, f: T -> int)
    ensures SumOf(a + b, f) == SumOf(a, f) + SumOf(b, f)
  {
    if |b| > 0 {
      assert (a + b)[..|a + b| - 1] == a + b[..|b| - 1];
      SumOfAppend(a, b[..|b| - 1], f);
    } else {
      assert a + b == a;
    }
  }

  lemma SumOfCons<T>(x: T, s: seq<T>, f: T -> int)
    ensures SumOf([x] + s, f) == f(x) + SumOf(s, f)
  {
    SumOfAppend([x], s, f);
    assert [x][..0] == [];
  }

  /** A sum does not depend on the order of its terms. */
  lemma {:induction false} SumOfPermutation<T>(a: seq<T>, b: seq<T>, f: T -> int)
    requires multiset(a) == multiset(b)
    ensures SumOf(a, f) == SumOf(b, f)
  {
    if |a| > 0 {
      var x := a[|a| - 1];
      var init := a[..|a| - 1];
      assert x in multiset(b);
      var j :| 0 <= j < |b| && b[j] == x;
      var rest := b[..j] + b[j + 1..];
      assert b == b[..j] + [x] + b[j + 1..];
      assert a == init + [x];
      assert multiset(init) == multiset(a) - multiset{x};
      assert multiset(rest) == multiset(b) - multiset{x};
      SumOfPermutation(a[..|a| - 1], rest, f);
      SumOfAppend(b[..j] + [x], b[j + 1..], f);
      SumOfAppend(b[..j], [x], f);
      SumOfAppend(b[..j], b[j + 1..], f);
      assert [x][..0] == [];
    } else {
      assert |b| == 0;
    }
  }

  /** Changing one term changes the sum by the difference. */
  lemma SumOfUpdate<T>(s: seq<T>, m: int, v: T, f: T -> int)
    requires 0 <= m < |s|
    ensures SumOf(s[m := v], f) == SumOf(s, f) - f(s[m]) + f(v)
  {
    assert s == s[..m] + [s[m]] + s[m + 1..];
    assert s[m := v] == s[..m] + [v] + s[m + 1..];
    SumOfAppend(s[..m] + [s[m]], s[m + 1..], f);
    SumOfAppend(s[..m], [s[m]], f);
    SumOfAppend(s[..m] + [v], s[m + 1..], f);
    SumOfAppend(s[..m], [v], f);
    assert [v][..0] == [] && [s[m]][..0] == [];
  }

  /** Two term functions that agree on the list give the same sum. */
  lemma {:induction false} SumOfCongruent<T>(s: seq<T>, f: T -> int, g: T -> int)
    requires forall k :: 0 <= k < |s| ==> f(s[k]) == g(s[k])
    ensures SumOf(s, f) == SumOf(s, g)
  {
    if |s| > 0 {
      SumOfCongruent(s[..|s| - 1], f, g);
    }
  }

  /** The sum of `f` over a bucket's items. */
  function MemberSum<K, T>(f: T -> int): Group<K, T> -> int
  {
    (g: Group<K, T>) => SumOf(g.members, f)
  }

  /** When every item has a key, summing over the buckets sums over every item once. */
  lemma {:induction false} GroupBySum<K(!new), T>(xs: seq<T>, key: T -> Option<K>, f: T -> int)
    requires forall i :: 0 <= i < |xs| ==> key(xs[i]).Some?
    ensures SumOf(GroupBy(xs, key), MemberSum(f)) == SumOf(xs, f)
  {
    if |xs| > 0 {
      var init, x := xs[..|xs| - 1], xs[|xs| - 1];
      forall i | 0 <= i < |init|
        ensures key(init[i]).Some?
      {
        assert init[i] == xs[i];
      }
      var before := GroupBy(init, key);
      GroupBySum(init, key, f);
      var k := key(x).value;
      var m := FirstWhere(before, KeyIs(k));
      assert SumOf(xs, f) == SumOf(init, f) + f(x);
      if m == -1 {
        assert GroupBy(xs, key) == before + [Group(k, [x])];
        SumOfAppend(before, [Group(k, [x])], MemberSum(f));
        assert [Group(k, [x])][..0] == [] && [x][..0] == [];
        assert SumOf([x], f) == f(x);
        assert SumOf([Group(k, [x])], MemberSum(f)) == f(x);
      } else {
        var grown := before[m].members + [x];
        assert GroupBy(xs, key) == before[m := Group(k, grown)];
        assert grown[..|grown| - 1] == before[m].members;
        assert MemberSum(f)(Group(k, grown)) == MemberSum(f)(before[m]) + f(x);
        SumOfUpdate(before, m, Group(k, grown), MemberSum(f));
      }
    }
  }

  // ---------------------------------------------------------- object keys

  /** A bucket table keyed by a possibly missing integer: a non-negative integer key is an
      array index of the object. */
  predicate IsIndexKey<T>(g: Group<Option<int>, T>)
  {
    g.key.Some? && g.key.value >= 0
  }

  function IndexKeyTest<T>(): Group<Option<int>, T> -> bool
  {
    (g: Group<Option<int>, T>) => IsIndexKey(g)
  }

  function OtherKeyTest<T>(): Group<Option<int>, T> -> bool
  {
    (g: Group<Option<int>, T>) => !IsIndexKey(g)
  }

  function IndexKeyValue<T>(): Group<Option<int>, T> -> int
  {
    (g: Group<Option<int>, T>) => if g.key.Some? then g.key.value else 0
  }

  /** `Object.keys` order over buckets created in the order of `groups`: the array-index
      keys ascending, then the other keys in creation order. */
  function ObjectKeyOrder<T>(groups: seq<Group<Option<int>, T>>): (r: seq<Group<Option<int>, T>>)
  {
    SortedIndexed(groups) + Filter(groups, OtherKeyTest())
  }

  /** The buckets with array-index keys, ascending. */
  function SortedIndexed<T>(groups: seq<Group<Option<int>, T>>): seq<Group<Option<int>, T>>
  {
    SortBy(Filter(groups, IndexKeyTest()), IndexKeyValue())
  }

  /** The reordering keeps every bucket, puts the index keys first and in ascending order,
      and leaves the other keys in creation order after them. */
  lemma ObjectKeyOrderMeaning<T>(groups: seq<Group<Option<int>, T>>)
    ensures multiset(ObjectKeyOrder(groups)) == multiset(groups)
    ensures var c := |Filter(groups, IndexKeyTest())|;
            c <= |ObjectKeyOrder(groups)| &&
            (forall i :: 0 <= i < c ==> IsIndexKey(ObjectKeyOrder(groups)[i])) &&
            (forall i, j :: 0 <= i < j < c ==> ObjectKeyOrder(groups)[i].key.value <= ObjectKeyOrder(groups)[j].key.value) &&
            ObjectKeyOrder(groups)[c..] == Filter(groups, OtherKeyTest())
  {
    FilterComplement(groups, IndexKeyTest(), OtherKeyTest());
    ObjectKeyOrderAscending(groups);
    ObjectKeyOrderRest(groups);
  }

  /** The sorted part holds index keys only. */
  lemma SortedIndexKeys<T>(groups: seq<Group<Option<int>, T>>)
    ensures forall i :: 0 <= i < |SortedIndexed(groups)| ==> IsIndexKey(SortedIndexed(groups)[i])
  {
    var indexed := Filter(groups, IndexKeyTest());
    var sorted := SortedIndexed(groups);
    forall i | 0 <= i < |sorted|
      ensures IsIndexKey(sorted[i])
    {
      assert sorted[i] in multiset(indexed);
      FilterMembers(groups, IndexKeyTest(), sorted[i]);
    }
  }

  /** The index keys come first, ascending. */
  lemma ObjectKeyOrderAscending<T>(groups: seq<Group<Option<int>, T>>)
    ensures var c := |Filter(groups, IndexKeyTest())|;
            var r := ObjectKeyOrder(groups);
            c <= |r| &&
            (forall i :: 0 <= i < c ==> IsIndexKey(r[i])) &&
            (forall i, j :: 0 <= i < j < c ==> r[i].key.value <= r[j].key.value)
  {
    var sorted := SortedIndexed(groups);
    var r := ObjectKeyOrder(groups);
    SortedIndexKeys(groups);
    assert r[..|sorted|] == sorted;
    forall i, j | 0 <= i < j < |sorted|
      ensures IsIndexKey(r[i]) && IsIndexKey(r[j]) && r[i].key.value <= r[j].key.value
    {
      assert r[i] == sorted[i] && r[j] == sorted[j];
      assert IndexKeyValue()(sorted[i]) <= IndexKeyValue()(sorted[j]);
    }
  }

  /** The other keys follow in creation order. */
  lemma ObjectKeyOrderRest<T>(groups: seq<Group<Option<int>, T>>)
    ensures var c := |Filter(groups, IndexKeyTest())|;
            c <= |ObjectKeyOrder(groups)| && ObjectKeyOrder(groups)[c..] == Filter(groups, OtherKeyTest())
  {
    var sorted := SortedIndexed(groups);
    assert (sorted + Filter(groups, OtherKeyTest()))[|sorted|..] == Filter(groups, OtherKeyTest());
  }

  /** Reordering buckets keeps their keys distinct. */
  lemma DistinctKeysPermutation<K(!new), T>(a: seq<Group<K, T>>, b: seq<Group<K, T>>)
    requires multiset(a) == multiset(b) && DistinctKeys(b)
    ensures DistinctKeys(a)
  {
    forall p, q | 0 <= p < q < |a|
      ensures a[p].key != a[q].key
    {
      if a[p] == a[q] {
        RepeatCounts(a, p, q);
        CountsRepeat(b, a[p]);
      } else {
        assert a[p] in multiset(b) && a[q] in multiset(b);
        var p' :| 0 <= p' < |b| && b[p'] == a[p];
        var q' :| 0 <= q' < |b| && b[q'] == a[q];
        if q' < p' {
          assert b[q'].key != b[p'].key;
        }
      }
    }
  }

  /** Reordering buckets keeps the same keys. */
  lemma KeysMetPermutation<K(!new), T>(a: seq<Group<K, T>>, b: seq<Group<K, T>>, xs: seq<T>, key: T -> Option<K>)
    requires multiset(a) == multiset(b) && KeysMet(b, xs, key)
    ensures KeysMet(a, xs, key)
  {
    forall k
      ensures KeyIn(a, k) <==> KeyIn(b, k)
    {
      if KeyIn(a, k) {
        var p :| 0 <= p < |a| && a[p].key == k;
        assert a[p] in multiset(b);
      }
      if KeyIn(b, k) {
        var p :| 0 <= p < |b| && b[p].key == k;
        assert b[p] in multiset(a);
      }
    }
  }

  /** Reordering buckets keeps each bucket's members. */
  lemma MembersFromPermutation<K(!new), T>(a: seq<Group<K, T>>, b: seq<Group<K, T>>, xs: seq<T>, key: T -> Option<K>)
    requires multiset(a) == multiset(b) && MembersFrom(b, xs, key)
    ensures MembersFrom(a, xs, key)
  {
    forall p | 0 <= p < |a|
      ensures a[p].members == Members(xs, key, a[p].key)
    {
      assert a[p] in multiset(b);
    }
  }
}
