/** Helpers shared by every module: an Option type, the JavaScript string operations the
    source relies on (`padStart`, `padEnd`, `split`, `join`, `indexOf`, template rendering of
    integers), and sorting. */
module Common {

  datatype Option<+T> = None | Some(value: T) {
    function GetOr(default: T): T {
      if Some? then value else default
    }
  }

  /** `s[i]` in JavaScript: the element, or `undefined` outside the sequence. */
  function Lookup<T>(s: seq<T>, i: int): (r: Option<T>)
    ensures r.Some? <==> 0 <= i < |s|
    ensures r.Some? ==> r.value == s[i]
  {
    if 0 <= i < |s| then Some(s[i]) else None
  }

  /** `a || b` on two possibly missing strings: the empty string is falsy. */
  function OrElse(a: Option<string>, b: Option<string>): (r: Option<string>)
    ensures a.Some? && a.value != "" ==> r == a
    ensures (a.None? || a.value == "") ==> r == b
  {
    if a.Some? && a.value != "" then a else b
  }

  function Max(a: int, b: int): int { if a < b then b else a }

  // ---------------------------------------------------------------- padding

  function Spaces(n: nat): (r: string)
    ensures |r| == n
    ensures forall k :: 0 <= k < n ==> r[k] == ' '
  {
    if n == 0 then "" else Spaces(n - 1) + " "
  }

  /** `s.padStart(width, ' ')`: spaces on the left up to `width`; a longer `s` is kept whole. */
  function PadStart(s: string, width: nat): (r: string)
    ensures |r| == Max(|s|, width)
    ensures r[|r| - |s|..] == s
    ensures forall k :: 0 <= k < |r| - |s| ==> r[k] == ' '
  {
    if |s| >= width then s else Spaces(width - |s|) + s
  }

  /** `s.padEnd(width, ' ')`: spaces on the right up to `width`. */
  function PadEnd(s: string, width: nat): (r: string)
    ensures |r| == Max(|s|, width)
    ensures r[..|s|] == s
    ensures forall k :: |s| <= k < |r| ==> r[k] == ' '
  {
    if |s| >= width then s else s + Spaces(width - |s|)
  }

  // ------------------------------------------------------- split and join

  /** `parts.join(sep)` for a non-empty array of strings. */
  function Join(parts: seq<string>, sep: char): string
    requires |parts| >= 1
  {
    if |parts| == 1 then parts[0] else parts[0] + [sep] + Join(parts[1..], sep)
  }

  /** `s.split(sep)` for a one-character separator. Joining the parts again gives back `s`,
      and no part contains the separator. */
  function Split(s: string, sep: char): (parts: seq<string>)
    ensures |parts| >= 1
    ensures forall k :: 0 <= k < |parts| ==> sep !in parts[k]
    ensures Join(parts, sep) == s
  {
    if |s| == 0 then [""]
    else
      var rest := Split(s[1..], sep);
      if s[0] == sep then
        assert Join([""] + rest, sep) == "" + [sep] + Join(rest, sep);
        [""] + rest
      else
        var parts := [[s[0]] + rest[0]] + rest[1..];
        assert parts[1..] == rest[1..];
        assert forall k :: 1 <= k < |parts| ==> parts[k] == rest[k];
        parts
  }

  /** A string without the separator splits into itself alone. */
  lemma {:induction false} SplitNoSep(s: string, sep: char)
    requires sep !in s
    ensures Split(s, sep) == [s]
  {
    if |s| > 0 {
      SplitNoSep(s[1..], sep);
      assert [s[0]] + s[1..] == s;
    }
  }

  /** Joining with one more part appends the separator and that part. */
  lemma {:induction false} JoinSnoc(parts: seq<string>, sep: char)
    requires |parts| >= 2
    ensures Join(parts, sep) == Join(parts[..|parts| - 1], sep) + [sep] + parts[|parts| - 1]
  {
    if |parts| > 2 {
      JoinSnoc(parts[1..], sep);
      assert parts[1..][..|parts| - 2] == parts[..|parts| - 1][1..];
    }
  }

  /** The first part is a prefix of the string. */
  lemma {:induction false} JoinFirstIsPrefix(parts: seq<string>, sep: char)
    requires |parts| >= 1
    ensures parts[0] <= Join(parts, sep)
  {
  }

  /** The last part is a suffix of the string. */
  lemma {:induction false} JoinLastIsSuffix(parts: seq<string>, sep: char)
    requires |parts| >= 1
    ensures |parts[|parts| - 1]| <= |Join(parts, sep)|
    ensures Join(parts, sep)[|Join(parts, sep)| - |parts[|parts| - 1]|..] == parts[|parts| - 1]
  {
    if |parts| >= 2 {
      JoinSnoc(parts, sep);
    }
  }

  lemma AppendAssoc<T>(a: seq<T>, b: seq<T>, c: seq<T>)
    ensures a + b + c == a + (b + c)
  {
  }

  /** The pieces written one after another. */
  function Flatten<T>(parts: seq<seq<T>>): seq<T>
  {
    if |parts| == 0 then [] else Flatten(parts[..|parts| - 1]) + parts[|parts| - 1]
  }

  /** Writing two lists of pieces is writing the first list, then the second. */
  lemma {:induction false} FlattenAppend<T>(a: seq<seq<T>>, b: seq<seq<T>>)
    ensures Flatten(a + b) == Flatten(a) + Flatten(b)
  {
    if |b| > 0 {
      var init, last := b[..|b| - 1], b[|b| - 1];
      FlattenAppend(a, init);
      assert (a + b)[..|a + b| - 1] == a + init;
      assert (a + b)[|a + b| - 1] == last;
      var x, y := Flatten(a), Flatten(init);
      assert Flatten(a + b) == Flatten(a + init) + last;
      assert Flatten(b) == y + last;
      AppendAssoc(x, y, last);
    } else {
      assert a + b == a;
    }
  }

  /** Splicing out one entry leaves a sub-multiset one shorter. */
  lemma RemoveAtShrinks<T>(s: seq<T>, i: int)
    requires 0 <= i < |s|
    ensures multiset(s[..i] + s[i + 1..]) <= multiset(s)
    ensures |s[..i] + s[i + 1..]| == |s| - 1
  {
    assert s == s[..i] + [s[i]] + s[i + 1..];
  }

  /** The lists `g(x)` of the elements `x` of `xs`, one after another. */
  function ConcatMap<T, U>(xs: seq<T>, g: T -> seq<U>): seq<U>
  {
    if |xs| == 0 then [] else ConcatMap(xs[..|xs| - 1], g) + g(xs[|xs| - 1])
  }

  /** An entry of the concatenation is an entry of the list of one of the elements. */
  lemma {:induction false} ConcatMapMembers<T, U>(xs: seq<T>, g: T -> seq<U>, y: U)
    ensures y in ConcatMap(xs, g) <==> exists k :: 0 <= k < |xs| && y in g(xs[k])
  {
    if |xs| > 0 {
      var init := xs[..|xs| - 1];
      ConcatMapMembers(init, g, y);
      if y in ConcatMap(init, g) {
        var k :| 0 <= k < |init| && y in g(init[k]);
        assert init[k] == xs[k];
      }
      if exists k :: 0 <= k < |xs| && y in g(xs[k]) {
        var k :| 0 <= k < |xs| && y in g(xs[k]);
        if k < |init| {
          assert init[k] == xs[k];
        }
      }
    }
  }

  /** The defined results of `f` over `xs`, in order: what a loop pushing each defined
      result builds. */
  function FilterMap<T, U>(xs: seq<T>, f: T -> Option<U>): (r: seq<U>)
    ensures |r| <= |xs|
  {
    if |xs| == 0 then []
    else
      var last := f(xs[|xs| - 1]);
      FilterMap(xs[..|xs| - 1], f) + (if last.Some? then [last.value] else [])
  }

  lemma FilterMapNext<T, U>(xs: seq<T>, f: T -> Option<U>, e: int)
    requires 0 <= e < |xs|
    ensures FilterMap(xs[..e + 1], f) ==
            FilterMap(xs[..e], f) + (if f(xs[e]).Some? then [f(xs[e]).value] else [])
  {
    assert xs[..e + 1][..e] == xs[..e];
  }

  /** Every result comes from some element, and every element with a result contributes it. */
  lemma {:induction false} FilterMapMembers<T, U>(xs: seq<T>, f: T -> Option<U>)
    ensures forall y :: y in FilterMap(xs, f) ==> exists j :: 0 <= j < |xs| && f(xs[j]) == Some(y)
    ensures forall j :: 0 <= j < |xs| && f(xs[j]).Some? ==> f(xs[j]).value in FilterMap(xs, f)
  {
    if |xs| > 0 {
      var init := xs[..|xs| - 1];
      FilterMapMembers(init, f);
      forall j | 0 <= j < |init|
        ensures init[j] == xs[j]
      {
      }
    }
  }

  /** `xs.filter(p)`. */
  function Filter<T>(xs: seq<T>, p: T -> bool): (r: seq<T>)
    ensures |r| <= |xs|
    ensures forall k :: 0 <= k < |r| ==> p(r[k])
  {
    if |xs| == 0 then [] else Filter(xs[..|xs| - 1], p) + (if p(xs[|xs| - 1]) then [xs[|xs| - 1]] else [])
  }

  /** An element is kept exactly when it is there and passes the test. */
  lemma {:induction false} FilterMembers<T>(xs: seq<T>, p: T -> bool, x: T)
    ensures x in Filter(xs, p) <==> x in xs && p(x)
  {
    if |xs| > 0 {
      FilterMembers(xs[..|xs| - 1], p, x);
      assert xs == xs[..|xs| - 1] + [xs[|xs| - 1]];
    }
  }

  /** Filtering by a test and by its negation splits the list. */
  lemma FilterComplement<T>(xs: seq<T>, p: T -> bool, q: T -> bool)
    requires forall i :: 0 <= i < |xs| ==> q(xs[i]) == !p(xs[i])
    ensures multiset(Filter(xs, p)) + multiset(Filter(xs, q)) == multiset(xs)
  {
    forall y
      ensures (multiset(Filter(xs, p)) + multiset(Filter(xs, q)))[y] == multiset(xs)[y]
    {
      FilterCounts(xs, p, q, y);
    }
    UnionByCounts(multiset(Filter(xs, p)), multiset(Filter(xs, q)), multiset(xs));
  }

  /** Two multisets are equal when every value occurs as often in both. */
  lemma UnionByCounts<T>(a: multiset<T>, b: multiset<T>, c: multiset<T>)
    requires forall y :: (a + b)[y] == c[y]
    ensures a + b == c
  {
  }

  /** Each value occurs in the two filtered lists together as often as in the list. */
  lemma {:induction false} FilterCounts<T>(xs: seq<T>, p: T -> bool, q: T -> bool, y: T)
    requires forall i :: 0 <= i < |xs| ==> q(xs[i]) == !p(xs[i])
    ensures multiset(Filter(xs, p))[y] + multiset(Filter(xs, q))[y] == multiset(xs)[y]
  {
    if |xs| > 0 {
      var init := xs[..|xs| - 1];
      assert forall i :: 0 <= i < |init| ==> init[i] == xs[i];
      FilterCounts(init, p, q, y);
      FilterSnocCount(xs, p, y);
      FilterSnocCount(xs, q, y);
      SnocCount(xs, y);
    }
  }

  /** Filtering a longer list adds the last element when it passes. */
  lemma FilterSnocCount<T>(xs: seq<T>, p: T -> bool, y: T)
    requires |xs| > 0
    ensures var x := xs[|xs| - 1];
            multiset(Filter(xs, p))[y] == multiset(Filter(xs[..|xs| - 1], p))[y] + (if p(x) && x == y then 1 else 0)
  {
  }

  lemma SnocCount<T>(xs: seq<T>, y: T)
    requires |xs| > 0
    ensures multiset(xs)[y] == multiset(xs[..|xs| - 1])[y] + (if xs[|xs| - 1] == y then 1 else 0)
  {
    assert xs == xs[..|xs| - 1] + [xs[|xs| - 1]];
  }

  /** `[f(0), ..., f(n - 1)]`, built by appending. */
  function Tabulate<T>(n: nat, f: nat -> T): (r: seq<T>)
    ensures |r| == n
  {
    if n == 0 then [] else Tabulate(n - 1, f) + [f(n - 1)]
  }

  lemma {:induction false} TabulateAt<T>(n: nat, f: nat -> T, j: nat)
    requires j < n
    ensures Tabulate(n, f)[j] == f(j)
  {
    SnocAt(Tabulate(n - 1, f), f(n - 1), j);
    if j < n - 1 {
      TabulateAt(n - 1, f, j);
    }
  }

  /** Indexing a sequence extended by one element. */
  lemma SnocAt<T>(prev: seq<T>, last: T, j: int)
    requires 0 <= j <= |prev|
    ensures (prev + [last])[j] == if j < |prev| then prev[j] else last
  {
  }

  /** Extending a prefix by the next element. */
  lemma SliceNext<T>(s: seq<T>, i: int)
    requires 0 <= i < |s|
    ensures s[..i + 1] == s[..i] + [s[i]]
  {
  }

  /** Extending a slice by the next element. */
  lemma AppendNext<T>(before: seq<T>, s: seq<T>, i: int)
    requires 0 <= i < |s|
    ensures before + s[..i + 1] == (before + s[..i]) + [s[i]]
  {
    assert s[..i + 1] == s[..i] + [s[i]];
  }

  // ------------------------------------------------------ integers as text

  function DigitChar(d: nat): (c: char)
    requires d < 10
    ensures '0' <= c <= '9'
  {
    (48 + d) as char
  }

  /** The decimal rendering of a natural number, as `${n}` gives it. */
  function NatToString(n: nat): (r: string)
    ensures |r| >= 1
    ensures forall k :: 0 <= k < |r| ==> '0' <= r[k] <= '9'
    ensures n >= 10 ==> |r| >= 2
  {
    if n < 10 then [DigitChar(n)] else NatToString(n / 10) + [DigitChar(n % 10)]
  }

  /** Distinct numbers render as distinct strings. */
  lemma {:induction false} NatToStringInjective(a: nat, b: nat)
    requires NatToString(a) == NatToString(b)
    ensures a == b
  {
    if a >= 10 && b >= 10 {
      var sa, sb := NatToString(a), NatToString(b);
      assert sa[|sa| - 1] == sb[|sb| - 1];
      assert a % 10 == b % 10;
      assert sa[..|sa| - 1] == NatToString(a / 10);
      assert sb[..|sb| - 1] == NatToString(b / 10);
      NatToStringInjective(a / 10, b / 10);
    }
  }

  /** `${i}` for an integer. */
  function IntToString(i: int): string
  {
    if i < 0 then "-" + NatToString(-i) else NatToString(i)
  }

  // ------------------------------------------------------------- scanning

  /** `s.indexOf(x)`. */
  function IndexOf<T(==)>(s: seq<T>, x: T): (r: int)
    ensures -1 <= r < |s|
    ensures r == -1 <==> x !in s
    ensures r >= 0 ==> s[r] == x && forall j :: 0 <= j < r ==> s[j] != x
  {
    if |s| == 0 then -1
    else if s[0] == x then 0
    else
      var k := IndexOf(s[1..], x);
      assert x in s <==> x in s[1..] by { assert s == [s[0]] + s[1..]; }
      if k == -1 then -1 else k + 1
  }

  /** `s.lastIndexOf(x)`. */
  function LastIndexOf<T(==)>(s: seq<T>, x: T): (r: int)
    ensures -1 <= r < |s|
    ensures r == -1 <==> x !in s
    ensures r >= 0 ==> s[r] == x && forall j :: r < j < |s| ==> s[j] != x
  {
    if |s| == 0 then -1
    else if s[|s| - 1] == x then |s| - 1
    else
      var k := LastIndexOf(s[..|s| - 1], x);
      assert x in s <==> x in s[..|s| - 1] by { assert s == s[..|s| - 1] + [s[|s| - 1]]; }
      k
  }

  /** The index of an `x` with no `x` before it is `s.indexOf(x)`. */
  lemma IndexOfIs<T>(s: seq<T>, x: T, r: int)
    requires 0 <= r < |s| && s[r] == x
    requires forall j :: 0 <= j < r ==> s[j] != x
    ensures IndexOf(s, x) == r
  {
    assert x in s;
  }

  /** The index of an `x` with no `x` after it is `s.lastIndexOf(x)`. */
  lemma LastIndexOfIs<T>(s: seq<T>, x: T, r: int)
    requires 0 <= r < |s| && s[r] == x
    requires forall j :: r < j < |s| ==> s[j] != x
    ensures LastIndexOf(s, x) == r
  {
    var k := LastIndexOf(s, x);
    assert x in s;
    if k > r {
      assert s[k] == x;
    }
  }

  /** `s.findIndex(p)`: the first position whose element satisfies `p`, or -1. */
  function FirstWhere<T>(s: seq<T>, p: T -> bool): (r: int)
    ensures -1 <= r < |s|
    ensures r >= 0 ==> p(s[r]) && forall j :: 0 <= j < r ==> !p(s[j])
    ensures r == -1 ==> forall j :: 0 <= j < |s| ==> !p(s[j])
  {
    if |s| == 0 then -1
    else if p(s[0]) then 0
    else
      var k := FirstWhere(s[1..], p);
      if k == -1 then -1 else k + 1
  }

  /** Searching one element further changes the answer only when the shorter search
      found nothing. */
  lemma FirstWhereSnoc<T>(s: seq<T>, p: T -> bool)
    requires |s| > 0
    ensures FirstWhere(s, p) ==
              var b := FirstWhere(s[..|s| - 1], p);
              if b != -1 then b else if p(s[|s| - 1]) then |s| - 1 else -1
  {
    var init := s[..|s| - 1];
    forall j | 0 <= j < |init|
      ensures init[j] == s[j]
    {
    }
  }

  /** `s.find(p)`: the first element satisfying `p`, or `undefined`. */
  function Find<T>(s: seq<T>, p: T -> bool): (r: Option<T>)
    ensures r.None? <==> forall j :: 0 <= j < |s| ==> !p(s[j])
    ensures r.Some? ==> exists j :: 0 <= j < |s| && s[j] == r.value && p(r.value) && forall i :: 0 <= i < j ==> !p(s[i])
  {
    var k := FirstWhere(s, p);
    if k == -1 then None else Some(s[k])
  }

  /** `findIndex` over the positions `0 .. n - 1` with a test on the position. */
  function FirstIndex(n: nat, p: nat -> bool): (r: int)
    ensures -1 <= r < n
    ensures r >= 0 ==> p(r) && forall j: nat :: j < r ==> !p(j)
    ensures r == -1 ==> forall j: nat :: j < n ==> !p(j)
  {
    if n == 0 then -1
    else
      var k := FirstIndex(n - 1, p);
      if k != -1 then k else if p(n - 1) then n - 1 else -1
  }

  /** `findLastIndex` over the positions `0 .. n - 1` with a test on the position. */
  function LastIndex(n: nat, p: nat -> bool): (r: int)
    ensures -1 <= r < n
    ensures r >= 0 ==> p(r) && forall j: nat :: r < j < n ==> !p(j)
    ensures r == -1 ==> forall j: nat :: j < n ==> !p(j)
  {
    if n == 0 then -1 else if p(n - 1) then n - 1 else LastIndex(n - 1, p)
  }

  // -------------------------------------------------------------- sorting

  ghost predicate SortedBy<T>(s: seq<T>, key: T -> int)
  {
    forall i, j :: 0 <= i < j < |s| ==> key(s[i]) <= key(s[j])
  }

  lemma SortedByCons<T>(x: T, s: seq<T>, key: T -> int)
    requires SortedBy(s, key)
    requires forall k :: 0 <= k < |s| ==> key(x) <= key(s[k])
    ensures SortedBy([x] + s, key)
  {
    forall i, j | 0 <= i < j < |s| + 1
      ensures key(([x] + s)[i]) <= key(([x] + s)[j])
    {
      assert ([x] + s)[j] == s[j - 1];
      if i > 0 {
        assert ([x] + s)[i] == s[i - 1];
      }
    }
  }

  /** A key below `x`'s and the keys of the tail of `s` is below the key of everything in
      `t`, which holds `x` and that tail. */
  lemma KeyLeMultiset<T>(y: int, x: T, s: seq<T>, t: seq<T>, key: T -> int)
    requires |s| > 0 && y <= key(x)
    requires forall k :: 1 <= k < |s| ==> y <= key(s[k])
    requires multiset(t) == multiset(s[1..]) + multiset{x}
    ensures forall k :: 0 <= k < |t| ==> y <= key(t[k])
  {
    forall k | 0 <= k < |t| ensures y <= key(t[k]) {
      assert t[k] in multiset(t);
      if t[k] != x {
        assert t[k] in multiset(s[1..]);
        var m :| 0 <= m < |s[1..]| && s[1..][m] == t[k];
        assert s[m + 1] == t[k];
      }
    }
  }

  function InsertBy<T>(x: T, s: seq<T>, key: T -> int): (r: seq<T>)
    requires SortedBy(s, key)
    ensures SortedBy(r, key)
    ensures multiset(r) == multiset(s) + multiset{x}
  {
    if |s| == 0 then [x]
    else if key(x) <= key(s[0]) then
      SortedByCons(x, s, key);
      [x] + s
    else
      var t := InsertBy(x, s[1..], key);
      KeyLeMultiset(key(s[0]), x, s, t, key);
      SortedByCons(s[0], t, key);
      assert s == [s[0]] + s[1..];
      [s[0]] + t
  }

  /** `s.sort((a, b) => key(a) - key(b))`: ascending by an integer key, a permutation. */
  function SortBy<T>(s: seq<T>, key: T -> int): (r: seq<T>)
    ensures SortedBy(r, key)
    ensures multiset(r) == multiset(s)
    ensures |r| == |s|
  {
    if |s| == 0 then []
    else
      assert s == [s[0]] + s[1..];
      var r := InsertBy(s[0], SortBy(s[1..], key), key);
      assert |r| == |multiset(r)| == |multiset(s)| == |s|;
      r
  }

  function SortInts(s: seq<int>): (r: seq<int>)
    ensures forall i, j :: 0 <= i < j < |r| ==> r[i] <= r[j]
    ensures multiset(r) == multiset(s)
  {
    SortBy(s, (x: int) => x)
  }

  /** JavaScript's default string order: code unit by code unit, a proper prefix first. */
  predicate StrLe(a: string, b: string)
  {
    |a| == 0 || (|b| > 0 && (a[0] < b[0] || (a[0] == b[0] && StrLe(a[1..], b[1..]))))
  }

  lemma {:induction false} StrLeReflexive(a: string)
    ensures StrLe(a, a)
  {
    if |a| > 0 {
      StrLeReflexive(a[1..]);
    }
  }

  lemma {:induction false} StrLeTotal(a: string, b: string)
    ensures StrLe(a, b) || StrLe(b, a)
  {
    if |a| > 0 && |b| > 0 && a[0] == b[0] {
      StrLeTotal(a[1..], b[1..]);
    }
  }

  lemma {:induction false} StrLeAntisymmetric(a: string, b: string)
    requires StrLe(a, b) && StrLe(b, a)
    ensures a == b
  {
    if |a| > 0 && |b| > 0 {
      StrLeAntisymmetric(a[1..], b[1..]);
      assert a == [a[0]] + a[1..] && b == [b[0]] + b[1..];
    }
  }

  lemma {:induction false} StrLeTransitive(a: string, b: string, c: string)
    requires StrLe(a, b) && StrLe(b, c)
    ensures StrLe(a, c)
  {
    if |a| > 0 && |b| > 0 && |c| > 0 && a[0] == b[0] == c[0] {
      StrLeTransitive(a[1..], b[1..], c[1..]);
    }
  }

  ghost predicate StrSorted(s: seq<string>)
  {
    forall i, j :: 0 <= i < j < |s| ==> StrLe(s[i], s[j])
  }

  lemma StrSortedCons(x: string, s: seq<string>)
    requires StrSorted(s)
    requires forall k :: 0 <= k < |s| ==> StrLe(x, s[k])
    ensures StrSorted([x] + s)
  {
    forall i, j | 0 <= i < j < |s| + 1
      ensures StrLe(([x] + s)[i], ([x] + s)[j])
    {
      assert ([x] + s)[j] == s[j - 1];
      if i > 0 {
        assert ([x] + s)[i] == s[i - 1];
      }
    }
  }

  /** What is no smaller than the head of a sorted list is no smaller than all of it. */
  lemma StrLeAll(x: string, s: seq<string>)
    requires StrSorted(s) && |s| > 0 && StrLe(x, s[0])
    ensures forall k :: 0 <= k < |s| ==> StrLe(x, s[k])
  {
    forall k | 0 <= k < |s| ensures StrLe(x, s[k]) {
      if k > 0 {
        StrLeTransitive(x, s[0], s[k]);
      }
    }
  }

  /** The head of a sorted list comes no later than `x` and the rest of the list. */
  lemma StrLeMultiset(y: string, x: string, s: seq<string>, t: seq<string>)
    requires StrSorted(s) && |s| > 0 && StrLe(y, x) && StrLe(y, s[0])
    requires multiset(t) == multiset(s[1..]) + multiset{x}
    ensures forall k :: 0 <= k < |t| ==> StrLe(y, t[k])
  {
    StrLeAll(y, s);
    forall k | 0 <= k < |t| ensures StrLe(y, t[k]) {
      assert t[k] in multiset(t);
      if t[k] != x {
        assert t[k] in multiset(s[1..]);
        var m :| 0 <= m < |s[1..]| && s[1..][m] == t[k];
        assert s[m + 1] == t[k];
      }
    }
  }

  function InsertStr(x: string, s: seq<string>): (r: seq<string>)
    requires StrSorted(s)
    ensures StrSorted(r)
    ensures multiset(r) == multiset(s) + multiset{x}
  {
    if |s| == 0 then [x]
    else if StrLe(x, s[0]) then
      StrLeAll(x, s);
      StrSortedCons(x, s);
      [x] + s
    else
      StrLeTotal(x, s[0]);
      StrSortedTail(s);
      var t := InsertStr(x, s[1..]);
      StrLeReflexive(s[0]);
      StrLeMultiset(s[0], x, s, t);
      StrSortedCons(s[0], t);
      MultisetTail(s);
      [s[0]] + t
  }

  /** `s.sort()` on strings: sorted and a permutation of `s`. */
  function SortStrings(s: seq<string>): (r: seq<string>)
    ensures StrSorted(r)
    ensures multiset(r) == multiset(s)
  {
    if |s| == 0 then []
    else
      assert s == [s[0]] + s[1..];
      InsertStr(s[0], SortStrings(s[1..]))
  }

  lemma StrSortedTail(a: seq<string>)
    requires StrSorted(a) && |a| > 0
    ensures StrSorted(a[1..])
  {
    forall i, j | 0 <= i < j < |a| - 1
      ensures StrLe(a[1..][i], a[1..][j])
    {
      assert a[1..][i] == a[i + 1] && a[1..][j] == a[j + 1];
    }
  }

  /** The head of a sorted list comes first among its elements. */
  lemma StrSortedHeadFirst(a: seq<string>, x: string)
    requires StrSorted(a) && x in multiset(a)
    ensures StrLe(a[0], x)
  {
    var i :| 0 <= i < |a| && a[i] == x;
    if i == 0 {
      StrLeReflexive(x);
    } else {
      assert StrLe(a[0], a[i]);
    }
  }

  lemma MultisetTail(a: seq<string>)
    requires |a| > 0
    ensures multiset(a[1..]) == multiset(a) - multiset{a[0]}
  {
    assert a == [a[0]] + a[1..];
  }

  lemma SameHeadSameTail<T>(a: seq<T>, b: seq<T>)
    requires |a| > 0 && |b| > 0 && a[0] == b[0] && a[1..] == b[1..]
    ensures a == b
  {
    assert a == [a[0]] + a[1..] && b == [b[0]] + b[1..];
  }

  /** Two sorted lists with the same elements are the same list. */
  lemma {:induction false} StrSortedUnique(a: seq<string>, b: seq<string>)
    requires StrSorted(a) && StrSorted(b)
    requires multiset(a) == multiset(b)
    ensures a == b
  {
    if |a| == 0 {
      assert |multiset(b)| == 0;
    } else {
      assert |b| == |multiset(b)| == |multiset(a)| == |a|;
      assert a[0] in multiset(a) && b[0] in multiset(b);
      StrSortedHeadFirst(a, b[0]);
      StrSortedHeadFirst(b, a[0]);
      StrLeAntisymmetric(a[0], b[0]);
      MultisetTail(a);
      MultisetTail(b);
      StrSortedTail(a);
      StrSortedTail(b);
      StrSortedUnique(a[1..], b[1..]);
      SameHeadSameTail(a, b);
    }
  }

  /** Two equal entries at different positions count twice. */
  lemma RepeatCounts<T>(s: seq<T>, p: int, q: int)
    requires 0 <= p < q < |s| && s[p] == s[q]
    ensures multiset(s)[s[p]] >= 2
  {
    assert s == s[..q] + s[q..];
    assert s[p] in s[..q] && s[q] in s[q..];
  }

  /** An entry that counts twice sits at two different positions. */
  lemma {:induction false} CountsRepeat<T>(s: seq<T>, x: T)
    requires multiset(s)[x] >= 2
    ensures exists p, q :: 0 <= p < q < |s| && s[p] == x && s[q] == x
  {
    var init, last := s[..|s| - 1], s[|s| - 1];
    assert s == init + [last];
    if last == x {
      assert x in multiset(init);
      var p :| 0 <= p < |init| && init[p] == x;
      assert s[p] == x && s[|s| - 1] == x;
    } else {
      CountsRepeat(init, x);
      var p, q :| 0 <= p < q < |init| && init[p] == x && init[q] == x;
      assert s[p] == x && s[q] == x;
    }
  }

  /** The positions below `n` that pass `keep`, in increasing order. */
  function KeptBy(n: nat, keep: nat -> bool): (r: seq<nat>)
    ensures |r| <= n
    ensures forall k :: 0 <= k < |r| ==> r[k] < n
  {
    if n == 0 then [] else KeptBy(n - 1, keep) + (if keep(n - 1) then [n - 1] else [])
  }

  /** The kept positions increase. */
  lemma {:induction false} KeptByIncreasing(n: nat, keep: nat -> bool)
    ensures forall p, q :: 0 <= p < q < |KeptBy(n, keep)| ==> KeptBy(n, keep)[p] < KeptBy(n, keep)[q]
  {
    if n > 0 {
      KeptByIncreasing(n - 1, keep);
      var before := KeptBy(n - 1, keep);
      forall p, q | 0 <= p < q < |KeptBy(n, keep)|
        ensures KeptBy(n, keep)[p] < KeptBy(n, keep)[q]
      {
        if q == |before| {
          assert before[p] < n - 1;
        }
      }
    }
  }

  /** A position below `n` is kept exactly when it passes `keep`. */
  lemma {:induction false} KeptByMember(n: nat, keep: nat -> bool, i: nat)
    requires i < n
    ensures i in KeptBy(n, keep) <==> keep(i)
  {
    var last: seq<nat> := if keep(n - 1) then [n - 1] else [];
    assert KeptBy(n, keep) == KeptBy(n - 1, keep) + last;
    if i < n - 1 {
      KeptByMember(n - 1, keep, i);
      assert i !in last;
    } else {
      assert i !in KeptBy(n - 1, keep);
    }
  }
}
