/** The custom-representation hook: the bundle of element ranges a component is built from,
    the transform table keyed by structure and atom, and the visibility toggle over it. */
module TransformRepres {
  import opened Common
  import opened StructureModel
  import opened GetLocation
  import opened Grouping
  import opened Surrounding

  // ----------------------------------------------------------------- label

  /** The characters `String.prototype.trim` removes: the ECMAScript white space and line
      terminators. */
  predicate IsSpace(c: char)
  {
    var n := c as int;
    n == 0x09 || n == 0x0A || n == 0x0B || n == 0x0C || n == 0x0D || n == 0x20 ||
    n == 0xA0 || n == 0x1680 || (0x2000 <= n <= 0x200A) || n == 0x2028 || n == 0x2029 ||
    n == 0x202F || n == 0x205F || n == 0x3000 || n == 0xFEFF
  }

  /** The position of the first character at or after `i` that is not white space. */
  function SpaceRunEnd(s: string, i: nat): (r: nat)
    requires i <= |s|
    ensures i <= r <= |s|
    ensures forall k :: i <= k < r ==> IsSpace(s[k])
    ensures r < |s| ==> !IsSpace(s[r])
    decreases |s| - i
  {
    if i < |s| && IsSpace(s[i]) then SpaceRunEnd(s, i + 1) else i
  }

  /** The position just after the last character before `j`, and not before `lo`, that is
      not white space. */
  function SpaceRunStart(s: string, lo: nat, j: nat): (r: nat)
    requires lo <= j <= |s|
    ensures lo <= r <= j
    ensures forall k :: r <= k < j ==> IsSpace(s[k])
    ensures r > lo ==> !IsSpace(s[r - 1])
    decreases j
  {
    if j > lo && IsSpace(s[j - 1]) then SpaceRunStart(s, lo, j - 1) else j
  }

  /** `s.trim()`: the text without its leading and trailing white space. */
  function Trim(s: string): string
  {
    var i := SpaceRunEnd(s, 0);
    s[i..SpaceRunStart(s, i, |s|)]
  }

  /** The trimmed text is a slice of the text with only white space cut on either side, and
      none left at its ends. */
  lemma TrimMeaning(s: string)
    ensures exists i, j :: 0 <= i <= j <= |s| && Trim(s) == s[i..j] &&
              (forall k :: 0 <= k < i ==> IsSpace(s[k])) && (forall k :: j <= k < |s| ==> IsSpace(s[k]))
    ensures |Trim(s)| > 0 ==> !IsSpace(Trim(s)[0]) && !IsSpace(Trim(s)[|Trim(s)| - 1])
  {
    var i := SpaceRunEnd(s, 0);
    var j := SpaceRunStart(s, i, |s|);
    if i < j {
      assert Trim(s)[0] == s[i];
      assert Trim(s)[|Trim(s)| - 1] == s[j - 1];
    }
  }

  /** Trimming twice is trimming once. */
  lemma TrimIdempotent(s: string)
    ensures Trim(Trim(s)) == Trim(s)
  {
    var t := Trim(s);
    TrimMeaning(s);
    if |t| > 0 {
      assert SpaceRunEnd(t, 0) == 0;
      assert SpaceRunStart(t, 0, |t|) == |t|;
      assert t[0..|t|] == t;
    } else {
      assert Trim(t) == [];
    }
  }

  /** `(label || '').trim()` (lines 183-184): a missing label becomes the empty text. */
  function Label(given: Option<string>): (r: string)
    ensures given.None? ==> r == ""
    ensures |r| > 0 ==> !IsSpace(r[0]) && !IsSpace(r[|r| - 1])
  {
    TrimMeaning(given.GetOr(""));
    Trim(given.GetOr(""))
  }

  // ------------------------------------------------- one entry per chain index

  /** `t => t.chainIndex === c`. */
  function ChainIndexIs(c: JsNum): Location -> bool
  {
    (t: Location) => StrictEq(t.chainIndex, c)
  }

  /** Entry `i` survives the filter of line 200: the first entry with its chain index is
      itself (an entry whose chain index is `NaN` is found nowhere and is dropped). */
  predicate FirstOfChainIndex(s: seq<Location>, i: int)
    requires 0 <= i < |s|
  {
    FirstWhere(s, ChainIndexIs(s[i].chainIndex)) == i
  }

  /** `x` is the first entry of `s` with its chain index. */
  predicate IsFirstOf(s: seq<Location>, x: Location)
  {
    var j := FirstWhere(s, ChainIndexIs(x.chainIndex));
    j >= 0 && s[j] == x
  }

  function FirstOfChainIndexTest(s: seq<Location>): nat -> bool
  {
    (i: nat) => i < |s| && FirstOfChainIndex(s, i)
  }

  /** The positions of the survivors, in increasing order. */
  function ChainFirstIndices(s: seq<Location>): (r: seq<nat>)
    ensures forall k :: 0 <= k < |r| ==> r[k] < |s|
  {
    KeptBy(|s|, FirstOfChainIndexTest(s))
  }

  /** `.filter((item, i, arr) => i === arr.findIndex(t => t.chainIndex === item.chainIndex))`. */
  function UniqueChainIndex(s: seq<Location>): (r: seq<Location>)
    ensures |r| == |ChainFirstIndices(s)|
    ensures forall k :: 0 <= k < |r| ==> r[k] == s[ChainFirstIndices(s)[k]]
  {
    var idx := ChainFirstIndices(s);
    seq(|idx|, k requires 0 <= k < |idx| => s[idx[k]])
  }

  /** A surviving position is the first of its chain index, and every such position survives. */
  lemma ChainFirstIndicesMeaning(s: seq<Location>, i: nat)
    requires i < |s|
    ensures i in ChainFirstIndices(s) <==> FirstOfChainIndex(s, i)
  {
    KeptByMember(|s|, FirstOfChainIndexTest(s), i);
  }

  /** The filter keeps the first entry of every chain index that is not `NaN`, and nothing
      else: no two survivors share a chain index. */
  lemma UniqueChainIndexMeaning(s: seq<Location>)
    ensures var r := UniqueChainIndex(s);
            (forall k :: 0 <= k < |r| ==> IsFirstOf(s, r[k])) &&
            (forall p, q :: 0 <= p < q < |r| ==> r[p].chainIndex != r[q].chainIndex) &&
            (forall j :: 0 <= j < |s| && !s[j].chainIndex.NaN? ==>
               exists k :: 0 <= k < |r| && r[k].chainIndex == s[j].chainIndex)
  {
    UniqueChainIndexFirst(s);
    UniqueChainIndexDistinct(s);
    UniqueChainIndexCover(s);
  }

  lemma UniqueChainIndexFirst(s: seq<Location>)
    ensures var r := UniqueChainIndex(s);
            forall k :: 0 <= k < |r| ==> IsFirstOf(s, r[k])
  {
    var idx := ChainFirstIndices(s);
    forall k | 0 <= k < |idx|
      ensures IsFirstOf(s, s[idx[k]])
    {
      ChainFirstIndicesMeaning(s, idx[k]);
    }
  }

  lemma UniqueChainIndexDistinct(s: seq<Location>)
    ensures var r := UniqueChainIndex(s);
            forall p, q :: 0 <= p < q < |r| ==> r[p].chainIndex != r[q].chainIndex
  {
    var idx := ChainFirstIndices(s);
    KeptByIncreasing(|s|, FirstOfChainIndexTest(s));
    forall p, q | 0 <= p < q < |idx|
      ensures s[idx[p]].chainIndex != s[idx[q]].chainIndex
    {
      ChainFirstIndicesMeaning(s, idx[p]);
      ChainFirstIndicesMeaning(s, idx[q]);
    }
  }

  lemma UniqueChainIndexCover(s: seq<Location>)
    ensures var r := UniqueChainIndex(s);
            forall j :: 0 <= j < |s| && !s[j].chainIndex.NaN? ==>
              exists k :: 0 <= k < |r| && r[k].chainIndex == s[j].chainIndex
  {
    var r := UniqueChainIndex(s);
    var idx := ChainFirstIndices(s);
    forall j | 0 <= j < |s| && !s[j].chainIndex.NaN?
      ensures exists k :: 0 <= k < |r| && r[k].chainIndex == s[j].chainIndex
    {
      var f := FirstWhere(s, ChainIndexIs(s[j].chainIndex));
      assert ChainIndexIs(s[j].chainIndex)(s[j]);
      assert s[f].chainIndex == s[j].chainIndex;
      ChainFirstIndicesMeaning(s, f);
      var k :| 0 <= k < |idx| && idx[k] == f;
      assert r[k] == s[f];
    }
  }

  /** A survivor is an entry of the list and its chain index is not `NaN`. */
  lemma FirstOfIn(s: seq<Location>, x: Location)
    requires IsFirstOf(s, x)
    ensures x in s && !x.chainIndex.NaN?
  {
    var j := FirstWhere(s, ChainIndexIs(x.chainIndex));
    assert ChainIndexIs(x.chainIndex)(s[j]);
  }

  /** The sort key the model orders a bucket by: the chain index, and 0 for an undefined one.
      On numbers it orders as `(a, b) => a.chainIndex - b.chainIndex` (line 201) does; that
      comparator gives `NaN` for an undefined chain index, which leaves its position to the
      engine's sort, so the model's placement of such an entry is one choice among those. */
  function ChainIndexKey(): Location -> int
  {
    (l: Location) => if l.chainIndex.Num? then l.chainIndex.value else 0
  }

  /** A chain bucket after lines 199-201: one entry per chain index, ascending. */
  function ChainRun(members: seq<Location>): seq<Location>
  {
    SortBy(UniqueChainIndex(members), ChainIndexKey())
  }

  /** The bucket holds the first entry of each chain index that is not `NaN`, once, ascending
      by chain index. */
  lemma ChainRunMeaning(members: seq<Location>)
    ensures var r := ChainRun(members);
            (forall k :: 0 <= k < |r| ==> IsFirstOf(members, r[k])) &&
            (forall p, q :: 0 <= p < q < |r| ==> r[p].chainIndex != r[q].chainIndex) &&
            (forall p, q :: 0 <= p < q < |r| && r[p].chainIndex.Num? && r[q].chainIndex.Num? ==>
               r[p].chainIndex.value < r[q].chainIndex.value) &&
            (forall j :: 0 <= j < |members| && !members[j].chainIndex.NaN? ==>
               exists k :: 0 <= k < |r| && r[k].chainIndex == members[j].chainIndex)
  {
    ChainRunFirst(members);
    ChainRunDistinct(members);
    ChainRunAscending(members);
    ChainRunCover(members);
  }

  lemma ChainRunFirst(members: seq<Location>)
    ensures forall k :: 0 <= k < |ChainRun(members)| ==> IsFirstOf(members, ChainRun(members)[k])
  {
    var u := UniqueChainIndex(members);
    var r := ChainRun(members);
    UniqueChainIndexFirst(members);
    forall k | 0 <= k < |r|
      ensures IsFirstOf(members, r[k])
    {
      assert r[k] in multiset(u);
    }
  }

  lemma ChainRunDistinct(members: seq<Location>)
    ensures forall p, q :: 0 <= p < q < |ChainRun(members)| ==> ChainRun(members)[p].chainIndex != ChainRun(members)[q].chainIndex
  {
    var u := UniqueChainIndex(members);
    var r := ChainRun(members);
    UniqueChainIndexDistinct(members);
    forall p, q | 0 <= p < q < |r|
      ensures r[p].chainIndex != r[q].chainIndex
    {
      assert r[p] in multiset(u) && r[q] in multiset(u);
      var a :| 0 <= a < |u| && u[a] == r[p];
      var b :| 0 <= b < |u| && u[b] == r[q];
      if a == b {
        RepeatCounts(r, p, q);
        CountsRepeat(u, r[p]);
      }
    }
  }

  lemma ChainRunAscending(members: seq<Location>)
    ensures forall p, q :: 0 <= p < q < |ChainRun(members)| && ChainRun(members)[p].chainIndex.Num? && ChainRun(members)[q].chainIndex.Num? ==>
              ChainRun(members)[p].chainIndex.value < ChainRun(members)[q].chainIndex.value
  {
    var r := ChainRun(members);
    ChainRunDistinct(members);
    forall p, q | 0 <= p < q < |r| && r[p].chainIndex.Num? && r[q].chainIndex.Num?
      ensures r[p].chainIndex.value < r[q].chainIndex.value
    {
      assert ChainIndexKey()(r[p]) <= ChainIndexKey()(r[q]);
    }
  }

  lemma ChainRunCover(members: seq<Location>)
    ensures forall j :: 0 <= j < |members| && !members[j].chainIndex.NaN? ==>
              exists k :: 0 <= k < |ChainRun(members)| && ChainRun(members)[k].chainIndex == members[j].chainIndex
  {
    var u := UniqueChainIndex(members);
    var r := ChainRun(members);
    UniqueChainIndexCover(members);
    forall j | 0 <= j < |members| && !members[j].chainIndex.NaN?
      ensures exists k :: 0 <= k < |r| && r[k].chainIndex == members[j].chainIndex
    {
      var k :| 0 <= k < |u| && u[k].chainIndex == members[j].chainIndex;
      assert u[k] in multiset(r);
    }
  }

  // ------------------------------------------------------------ the bundle

  /** One element of the bundle: the unit it addresses, two positions per location, and the
      (always empty) `set`. */
  datatype BundleElement = BundleElement(groupedUnits: seq<seq<Option<int>>>, ranges: seq<int>, elementSet: seq<int>)

  /** What the component is created from: the elements and the label. */
  datatype BundleParams = BundleParams(elements: seq<BundleElement>, text: string)

  function HasChainGroup(c: int): Unit -> bool
  {
    (u: Unit) => u.chainGroupId == c
  }

  /** `molData.structure?.units.find(unit => unit.chainGroupId === chainId)` (line 206). */
  function UnitFor(structure: Option<Structure>, chainId: Option<int>): (u: Option<Unit>)
    ensures u.Some? ==> structure.Some? && chainId.Some? && u.value in structure.value.units &&
                        u.value.chainGroupId == chainId.value
    ensures u.None? && structure.Some? && chainId.Some? ==>
              forall i :: 0 <= i < |structure.value.units| ==> structure.value.units[i].chainGroupId != chainId.value
  {
    if structure.None? || chainId.None? then None
    else
      var f := Find(structure.value.units, HasChainGroup(chainId.value));
      if f.None? then None else Some(f.value)
  }

  /** `location.elements[0]`, `undefined` when there is none. */
  function FirstElement(l: Location): JsNum
  {
    if |l.elements| > 0 then l.elements[0] else Undefined
  }

  /** `location.elements[location.elements.length - 1]`. */
  function LastElement(l: Location): JsNum
  {
    if |l.elements| > 0 then l.elements[|l.elements| - 1] else Undefined
  }

  /** `unitElements.indexOf(e)`: an absent element is -1. */
  function ElementIndex(unitElements: seq<int>, e: JsNum): int
  {
    if e.Num? then IndexOf(unitElements, e.value) else -1
  }

  /** `i` is where `e` first stands in `unitElements`, or -1 when it is not there. */
  predicate Locates(unitElements: seq<int>, e: JsNum, i: int)
  {
    (i == -1 <==> !(e.Num? && e.value in unitElements)) &&
    (i != -1 ==> e.Num? && 0 <= i < |unitElements| && unitElements[i] == e.value &&
                 forall j :: 0 <= j < i ==> unitElements[j] != e.value)
  }

  /** The ranges of lines 220-225 for the first `n` locations. */
  function Ranges(unitElements: seq<int>, group: seq<Location>): (r: seq<int>)
    ensures |r| == 2 * |group|
  {
    if |group| == 0 then []
    else
      var l := group[|group| - 1];
      Ranges(unitElements, group[..|group| - 1]) + [ElementIndex(unitElements, FirstElement(l)), ElementIndex(unitElements, LastElement(l))]
  }

  /** Each location contributes, in order, the position of its first element and of its last
      element in the unit. */
  lemma {:induction false} RangesMeaning(unitElements: seq<int>, group: seq<Location>)
    ensures var r := Ranges(unitElements, group);
            forall k :: 0 <= k < |group| ==>
              Locates(unitElements, FirstElement(group[k]), r[2 * k]) &&
              Locates(unitElements, LastElement(group[k]), r[2 * k + 1])
  {
    if |group| > 0 {
      var init := group[..|group| - 1];
      RangesMeaning(unitElements, init);
      var r := Ranges(unitElements, group);
      forall k | 0 <= k < |group|
        ensures Locates(unitElements, FirstElement(group[k]), r[2 * k])
        ensures Locates(unitElements, LastElement(group[k]), r[2 * k + 1])
      {
        if k < |init| {
          assert group[k] == init[k];
        }
      }
    }
  }

  /** The pushes of lines 220-225. */
  method BuildRanges(unitElements: seq<int>, group: seq<Location>) returns (ranges: seq<int>)
    ensures ranges == Ranges(unitElements, group)
  {
    ranges := [];
    for i := 0 to |group|
      invariant ranges == Ranges(unitElements, group[..i])
    {
      var location := group[i];
      var elementStart := FirstElement(location);
      var elementEnd := LastElement(location);
      assert group[..i + 1][..i] == group[..i];
      ranges := ranges + [ElementIndex(unitElements, elementStart), ElementIndex(unitElements, elementEnd)];
    }
    assert group[..|group|] == group;
  }

  /** The element of a non-empty chain bucket (lines 205-226). */
  function ElementFor(structure: Option<Structure>, group: seq<Location>): (e: BundleElement)
    requires |group| > 0
    ensures |e.ranges| == if UnitFor(structure, group[0].chainGroupId).None? then 0 else 2 * |group|
  {
    var chainId := group[0].chainGroupId;
    var unit := UnitFor(structure, chainId);
    BundleElement([[chainId]], if unit.None? then [] else Ranges(unit.value.elements, group), [])
  }

  /** The chain buckets after the filter and sort, in `Object.keys` order (lines 190-202). */
  function ChainRuns(selections: seq<Location>): (runs: seq<seq<Location>>)
    ensures |runs| == |ChainGroups(selections)|
  {
    var groups := ChainGroups(selections);
    seq(|groups|, i requires 0 <= i < |groups| => ChainRun(groups[i].members))
  }

  /** `Object.values(groups).map(...)` over the buckets (lines 204-227): a bucket left empty by
      the filter makes `group[0].chainGroupId` throw. */
  function ElementsOf(structure: Option<Structure>, runs: seq<seq<Location>>): (r: Outcome<seq<BundleElement>>)
    ensures r.Throws? <==> exists i :: 0 <= i < |runs| && |runs[i]| == 0
    ensures r.Ok? ==> |r.value| == |runs|
  {
    if exists i :: 0 <= i < |runs| && |runs[i]| == 0 then Throws
    else Ok(seq(|runs|, i requires 0 <= i < |runs| => ElementFor(structure, runs[i])))
  }

  /** The bundle elements of lines 190-227. */
  function BundleOf(structure: Option<Structure>, selections: seq<Location>): Outcome<seq<BundleElement>>
  {
    ElementsOf(structure, ChainRuns(selections))
  }

  /** Every entry of `members` has a `NaN` chain index. */
  ghost predicate AllNaN(members: seq<Location>)
  {
    forall j :: 0 <= j < |members| ==> members[j].chainIndex.NaN?
  }

  /** A bucket is left empty by the filter exactly when all its chain indices are `NaN`. */
  lemma ChainRunEmpty(members: seq<Location>)
    ensures |ChainRun(members)| == 0 <==> AllNaN(members)
  {
    ChainRunMeaning(members);
    var r := ChainRun(members);
    if |r| > 0 {
      FirstOfIn(members, r[0]);
    }
  }

  /** The selections whose chain group is `c` all have a `NaN` chain index. */
  ghost predicate AllNaNIn(selections: seq<Location>, c: Option<int>)
  {
    forall j :: 0 <= j < |selections| && selections[j].chainGroupId == c ==> selections[j].chainIndex.NaN?
  }

  /** A bucket left empty names a chain group all of whose selections have a `NaN` chain
      index. */
  lemma EmptyRunNamesGroup(groups: seq<Group<Option<int>, Location>>, selections: seq<Location>, p: int)
    requires MembersFrom(groups, selections, ChainKey()) && KeysMet(groups, selections, ChainKey())
    requires 0 <= p < |groups| && |ChainRun(groups[p].members)| == 0
    ensures exists i :: 0 <= i < |selections| && AllNaNIn(selections, selections[i].chainGroupId)
  {
    var key := groups[p].key;
    ChainRunEmpty(groups[p].members);
    assert KeyIn(groups, key);
    var i :| 0 <= i < |selections| && ChainKey()(selections[i]) == Some(key);
    MembersHave(selections, ChainKey(), key);
    forall j | 0 <= j < |selections| && selections[j].chainGroupId == key
      ensures selections[j].chainIndex.NaN?
    {
      assert selections[j] in groups[p].members;
    }
    assert AllNaNIn(selections, selections[i].chainGroupId);
  }

  /** A chain group all of whose selections have a `NaN` chain index leaves its bucket empty. */
  lemma GroupNamesEmptyRun(groups: seq<Group<Option<int>, Location>>, selections: seq<Location>, i: int)
    requires MembersFrom(groups, selections, ChainKey()) && KeysMet(groups, selections, ChainKey())
    requires 0 <= i < |selections| && AllNaNIn(selections, selections[i].chainGroupId)
    ensures exists p :: 0 <= p < |groups| && |ChainRun(groups[p].members)| == 0
  {
    var key := selections[i].chainGroupId;
    assert ChainKey()(selections[i]) == Some(key);
    assert Met(selections, ChainKey(), key);
    var p :| 0 <= p < |groups| && groups[p].key == key;
    MembersHave(selections, ChainKey(), key);
    forall j | 0 <= j < |groups[p].members|
      ensures groups[p].members[j].chainIndex.NaN?
    {
      assert groups[p].members[j] in selections;
    }
    ChainRunEmpty(groups[p].members);
  }

  /** Building the bundle throws exactly when some chain group met in the selections has no
      chain index that is a number or `undefined`. */
  lemma BundleThrows(structure: Option<Structure>, selections: seq<Location>)
    ensures BundleOf(structure, selections).Throws? <==>
              exists i :: 0 <= i < |selections| && AllNaNIn(selections, selections[i].chainGroupId)
  {
    var groups := ChainGroups(selections);
    var runs := ChainRuns(selections);
    ChainGroupsMembers(selections);
    ChainGroupsKeys(selections);
    if exists p :: 0 <= p < |runs| && |runs[p]| == 0 {
      var p :| 0 <= p < |runs| && |runs[p]| == 0;
      assert runs[p] == ChainRun(groups[p].members);
      EmptyRunNamesGroup(groups, selections, p);
    }
    if exists i :: 0 <= i < |selections| && AllNaNIn(selections, selections[i].chainGroupId) {
      var i :| 0 <= i < |selections| && AllNaNIn(selections, selections[i].chainGroupId);
      GroupNamesEmptyRun(groups, selections, i);
      var p :| 0 <= p < |groups| && |ChainRun(groups[p].members)| == 0;
      assert runs[p] == ChainRun(groups[p].members);
    }
  }

  /** When the bundle builds, it has one element per chain group, addressing that chain group,
      with the ranges of its de-duplicated bucket in the unit of that chain group, or none when
      the structure has no such unit. */
  lemma BundleElements(structure: Option<Structure>, selections: seq<Location>)
    requires BundleOf(structure, selections).Ok?
    ensures var groups := ChainGroups(selections);
            var es := BundleOf(structure, selections).value;
            |es| == |groups| &&
            forall k :: 0 <= k < |es| ==>
              es[k].groupedUnits == [[groups[k].key]] && es[k].elementSet == [] &&
              var unit := UnitFor(structure, groups[k].key);
              es[k].ranges == if unit.None? then [] else Ranges(unit.value.elements, ChainRun(groups[k].members))
  {
    var groups := ChainGroups(selections);
    var runs: seq<seq<Location>> := ChainRuns(selections);
    var es: seq<BundleElement> := BundleOf(structure, selections).value;
    ChainGroupsMembers(selections);
    forall k | 0 <= k < |es|
      ensures runs[k][0].chainGroupId == groups[k].key
    {
      var members := groups[k].members;
      ChainRunMeaning(members);
      FirstOfIn(members, runs[k][0]);
      MembersHave(selections, ChainKey(), groups[k].key);
    }
  }

  /** `getTransformRepreComponent` up to the engine call (lines 182-242): nothing when the
      structure cell does not resolve to data, the bundle parameters otherwise. */
  function ComponentRequest(resolves: bool, structure: Option<Structure>, selections: seq<Location>, given: Option<string>): (r: Outcome<Option<BundleParams>>)
    ensures !resolves ==> r == Ok(None)
    ensures r.Ok? && r.value.Some? ==> r.value.value.text == Label(given)
  {
    if !resolves then Ok(None)
    else match BundleOf(structure, selections)
      case Throws => Throws
      case Ok(es) => Ok(Some(BundleParams(es, Label(given))))
  }

  /** `Object.keys(groups).forEach(chainId => groups[chainId] = f(groups[chainId]))`
      (lines 198-202), read back in order. */
  method MapMembers<K, T, U>(groups: seq<Group<K, T>>, f: seq<T> -> U) returns (runs: seq<U>)
    ensures |runs| == |groups|
    ensures forall k :: 0 <= k < |groups| ==> runs[k] == f(groups[k].members)
  {
    runs := [];
    for i := 0 to |groups|
      invariant |runs| == i
      invariant forall k :: 0 <= k < i ==> runs[k] == f(groups[k].members)
    {
      runs := runs + [f(groups[i].members)];
    }
  }

  /** The `map` of lines 204-227, with the ranges pushed location by location. */
  method BuildElements(structure: Option<Structure>, runs: seq<seq<Location>>) returns (r: Outcome<seq<BundleElement>>)
    ensures r == ElementsOf(structure, runs)
  {
    var elements: seq<BundleElement> := [];
    for i := 0 to |runs|
      invariant |elements| == i
      invariant forall k :: 0 <= k < i ==> |runs[k]| > 0 && elements[k] == ElementFor(structure, runs[k])
    {
      if |runs[i]| == 0 {
        return Throws;
      }
      var element := BuildElement(structure, runs[i]);
      elements := elements + [element];
    }
    assert elements == seq(|runs|, i requires 0 <= i < |runs| => ElementFor(structure, runs[i]));
    return Ok(elements);
  }

  /** The body of the `map` for one non-empty bucket. */
  method BuildElement(structure: Option<Structure>, group: seq<Location>) returns (e: BundleElement)
    requires |group| > 0
    ensures e == ElementFor(structure, group)
  {
    var chainId := group[0].chainGroupId;
    var unit := UnitFor(structure, chainId);
    var ranges: seq<int> := [];
    if unit.Some? {
      ranges := BuildRanges(unit.value.elements, group);
    }
    e := BundleElement([[chainId]], ranges, []);
  }

  /** The component request step by step: bucket, filter and sort, then one element per
      bucket. */
  method GetTransformRepreComponent(resolves: bool, structure: Option<Structure>, selections: seq<Location>, given: Option<string>)
    returns (r: Outcome<Option<BundleParams>>)
    ensures r == ComponentRequest(resolves, structure, selections, given)
  {
    var text := Label(given);
    if !resolves {
      return Ok(None);
    }
    var buckets := GroupItems(selections, ChainKey());
    var runs := MapMembers(ObjectKeyOrder(buckets), ChainRun);
    assert runs == ChainRuns(selections);
    var elements := BuildElements(structure, runs);
    if elements.Throws? {
      return Throws;
    }
    return Ok(Some(BundleParams(elements.value, text)));
  }

  // ------------------------------------------------------------ transform keys

  /** `${structureKey}`: a missing key prints as `undefined`. */
  function KeyText(structureKey: Option<string>): string
  {
    structureKey.GetOr("undefined")
  }

  /** `${structureKey}--${location.atomIndex}` (line 87). */
  function TransformKey(structureKey: string, atomIndex: JsNum): string
  {
    structureKey + "--" + NumText(atomIndex)
  }

  /** The first character of a printed number tells its kind. */
  lemma NumTextHead(a: JsNum)
    ensures |NumText(a)| > 0
    ensures a.Num? && a.value < 0 <==> NumText(a)[0] == '-'
    ensures a.Num? && a.value >= 0 <==> '0' <= NumText(a)[0] <= '9'
    ensures a.NaN? <==> NumText(a)[0] == 'N'
  {
  }

  /** Distinct numbers print distinctly. */
  lemma NumTextInjective(a: JsNum, b: JsNum)
    requires NumText(a) == NumText(b)
    ensures a == b
  {
    NumTextHead(a);
    NumTextHead(b);
    if a.Num? && b.Num? {
      var ta, tb := NumText(a), NumText(b);
      if a.value < 0 {
        assert ta[1..] == NatToString(-a.value) && tb[1..] == NatToString(-b.value);
        NatToStringInjective(-a.value, -b.value);
      } else {
        NatToStringInjective(a.value, b.value);
      }
    }
  }

  /** Within one structure, two locations share a transform key exactly when they share their
      atom index. */
  lemma TransformKeyInjective(structureKey: string, a: JsNum, b: JsNum)
    ensures TransformKey(structureKey, a) == TransformKey(structureKey, b) <==> a == b
  {
    if TransformKey(structureKey, a) == TransformKey(structureKey, b) {
      var n := |structureKey| + 2;
      assert TransformKey(structureKey, a)[n..] == NumText(a);
      assert TransformKey(structureKey, b)[n..] == NumText(b);
      NumTextInjective(a, b);
    }
  }

  // ------------------------------------------------------------ the transform table

  /** An entry of the transform table: the component's reference, the representation type it
      was given and whether it is shown. */
  datatype Transform = Transform(ref: string, repreType: string, visible: bool)

  /** What the engine answers, per protein key: whether the protein's `molData.structureRef`
      is set, whether its cell resolves to structure data, and the reference of the component
      `tryCreateComponent` makes from bundle parameters (nothing when it comes out empty). */
  datatype Engine = Engine(
    hasStructureRef: string -> bool,
    resolves: string -> bool,
    create: (string, BundleParams) -> Option<string>)

  function LoadedWith(structureKey: Option<string>): Protein -> bool
  {
    (p: Protein) => p.status == Loaded && Some(p.key) == structureKey
  }

  /** The protein of a group (line 81): the first loaded one with the group's structure key. */
  function LoadedProtein(proteins: seq<Protein>, structureKey: Option<string>): (r: Option<Protein>)
    ensures r.Some? ==> r.value in proteins && r.value.status == Loaded && Some(r.value.key) == structureKey
    ensures r.None? ==> forall i :: 0 <= i < |proteins| ==> !LoadedWith(structureKey)(proteins[i])
  {
    Find(proteins, LoadedWith(structureKey))
  }

  function StructureKeyOf(): Location -> Option<string>
  {
    (l: Location) => Some(KeyText(l.structureKey))
  }

  /** The selections bucketed by the text of their structure key (lines 62-71). */
  function StructureGroups(selections: seq<Location>): seq<Group<string, Location>>
  {
    GroupBy(selections, StructureKeyOf())
  }

  /** A component request waiting for its promise: the transform key, the protein and the
      request's outcome. */
  datatype Pending = Pending(key: string, proteinKey: string, request: Outcome<Option<BundleParams>>)

  /** The state of the `forEach` loops of lines 76-99: the references handed to
      `removeTransform`, the pending requests, and whether the loop threw. */
  datatype Plan = Plan(removals: seq<string>, pending: seq<Pending>, crashed: bool)

  /** An existing transform of the same representation type is left alone (lines 88-91). */
  predicate Skipped(current: map<string, Transform>, key: string, repreType: string)
  {
    key in current && current[key].repreType == repreType
  }

  /** One location of a group (lines 87-97). A protein that is missing or has no structure
      reference makes `structureRef.cell` throw. */
  function PlanLocation(plan: Plan, current: map<string, Transform>, repreType: string, protein: Option<Protein>,
                        engine: Engine, text: string, l: Location): Plan
  {
    if plan.crashed then plan
    else
      var key := TransformKey(text, l.atomIndex);
      if Skipped(current, key, repreType) then plan
      else
        var removals := plan.removals + (if key in current then [current[key].ref] else []);
        if protein.None? || !engine.hasStructureRef(protein.value.key) then Plan(removals, plan.pending, true)
        else
          var request := ComponentRequest(engine.resolves(protein.value.key), protein.value.molData.structure, [l], Some("Custom Selection"));
          Plan(removals, plan.pending + [Pending(key, protein.value.key, request)], false)
  }

  /** `group.forEach(...)` over the members of one group. */
  function PlanMembers(plan: Plan, current: map<string, Transform>, repreType: string, protein: Option<Protein>,
                       engine: Engine, text: string, members: seq<Location>): Plan
  {
    if |members| == 0 then plan
    else PlanLocation(PlanMembers(plan, current, repreType, protein, engine, text, members[..|members| - 1]),
                      current, repreType, protein, engine, text, members[|members| - 1])
  }

  /** One group: its first member names the structure and the protein (lines 77-81). */
  function PlanGroup(plan: Plan, current: map<string, Transform>, repreType: string, proteins: seq<Protein>,
                     engine: Engine, g: Group<string, Location>): Plan
  {
    if |g.members| == 0 then plan
    else
      var head := g.members[0];
      PlanMembers(plan, current, repreType, LoadedProtein(proteins, head.structureKey), engine, KeyText(head.structureKey), g.members)
  }

  /** `groups.forEach(...)` (lines 76-99). */
  function PlanGroups(current: map<string, Transform>, repreType: string, proteins: seq<Protein>,
                      engine: Engine, groups: seq<Group<string, Location>>): Plan
  {
    if |groups| == 0 then Plan([], [], false)
    else PlanGroup(PlanGroups(current, repreType, proteins, engine, groups[..|groups| - 1]),
                   current, repreType, proteins, engine, groups[|groups| - 1])
  }

  /** The plan for the current selections. */
  function PlanOf(current: map<string, Transform>, repreType: string, selections: seq<Location>,
                  proteins: seq<Protein>, engine: Engine): Plan
  {
    PlanGroups(current, repreType, proteins, engine, StructureGroups(selections))
  }

  /** One promise settling (lines 101-120): no component deletes the key, a component is
      recorded as shown with the requested type. */
  function Settle(m: map<string, Transform>, p: Pending, repreType: string, engine: Engine): map<string, Transform>
  {
    if p.request.Ok? && p.request.value.Some? then
      var created := engine.create(p.proteinKey, p.request.value.value);
      if created.Some? then m[p.key := Transform(created.value, repreType, true)] else m - {p.key}
    else m - {p.key}
  }

  function SettleAll(m: map<string, Transform>, pending: seq<Pending>, repreType: string, engine: Engine): map<string, Transform>
  {
    if |pending| == 0 then m
    else Settle(SettleAll(m, pending[..|pending| - 1], repreType, engine), pending[|pending| - 1], repreType, engine)
  }

  /** Some request threw: `Promise.all` rejects before `setTransforms`. */
  predicate SomeRejects(pending: seq<Pending>)
  {
    exists i :: 0 <= i < |pending| && pending[i].request.Throws?
  }

  /** The table `handleTransformRepres` stores (lines 59-131), or `Throws` when it rejects and
      stores nothing. */
  function Handled(current: map<string, Transform>, repreType: string, selections: seq<Location>,
                   proteins: seq<Protein>, engine: Engine): Outcome<map<string, Transform>>
  {
    var plan := PlanOf(current, repreType, selections, proteins, engine);
    if plan.crashed || SomeRejects(plan.pending) then Throws
    else Ok(SettleAll(current, plan.pending, repreType, engine))
  }

  /** The transform keys of the selections. */
  ghost function SelectedKeys(selections: seq<Location>): set<string>
  {
    set l | l in selections :: TransformKey(KeyText(l.structureKey), l.atomIndex)
  }

  /** The references of the transforms a new type replaces. */
  ghost function ReplacedRefs(current: map<string, Transform>, repreType: string): set<string>
  {
    set k | k in current && current[k].repreType != repreType :: current[k].ref
  }

  /** What the loops promise: every request is for a selected atom without a transform of the
      requested type, and every removal is of a transform of another type. */
  ghost predicate PlanSound(plan: Plan, current: map<string, Transform>, repreType: string, selections: seq<Location>)
  {
    (forall i :: 0 <= i < |plan.pending| ==>
       !Skipped(current, plan.pending[i].key, repreType) && plan.pending[i].key in SelectedKeys(selections)) &&
    (forall i :: 0 <= i < |plan.removals| ==> plan.removals[i] in ReplacedRefs(current, repreType))
  }

  lemma PlanLocationSound(plan: Plan, current: map<string, Transform>, repreType: string, protein: Option<Protein>,
                          engine: Engine, l: Location, selections: seq<Location>)
    requires PlanSound(plan, current, repreType, selections)
    requires l in selections
    ensures PlanSound(PlanLocation(plan, current, repreType, protein, engine, KeyText(l.structureKey), l), current, repreType, selections)
  {
    var key := TransformKey(KeyText(l.structureKey), l.atomIndex);
    assert key in SelectedKeys(selections);
    if key in current && current[key].repreType != repreType {
      assert current[key].ref in ReplacedRefs(current, repreType);
    }
  }

  lemma {:induction false} PlanMembersSound(plan: Plan, current: map<string, Transform>, repreType: string, protein: Option<Protein>,
                                            engine: Engine, text: string, members: seq<Location>, selections: seq<Location>)
    requires PlanSound(plan, current, repreType, selections)
    requires forall j :: 0 <= j < |members| ==> members[j] in selections && KeyText(members[j].structureKey) == text
    ensures PlanSound(PlanMembers(plan, current, repreType, protein, engine, text, members), current, repreType, selections)
  {
    if |members| > 0 {
      var init := members[..|members| - 1];
      assert forall j :: 0 <= j < |init| ==> init[j] == members[j];
      PlanMembersSound(plan, current, repreType, protein, engine, text, init, selections);
      PlanLocationSound(PlanMembers(plan, current, repreType, protein, engine, text, init), current, repreType,
                        protein, engine, members[|members| - 1], selections);
    }
  }

  lemma {:induction false} PlanGroupsSound(current: map<string, Transform>, repreType: string, proteins: seq<Protein>,
                                           engine: Engine, groups: seq<Group<string, Location>>, selections: seq<Location>)
    requires MembersFrom(groups, selections, StructureKeyOf())
    ensures PlanSound(PlanGroups(current, repreType, proteins, engine, groups), current, repreType, selections)
  {
    if |groups| > 0 {
      var init := groups[..|groups| - 1];
      var g := groups[|groups| - 1];
      assert forall p :: 0 <= p < |init| ==> init[p] == groups[p];
      PlanGroupsSound(current, repreType, proteins, engine, init, selections);
      if |g.members| > 0 {
        MembersHave(selections, StructureKeyOf(), g.key);
        assert g.members[0] in g.members;
        forall j | 0 <= j < |g.members|
          ensures g.members[j] in selections && KeyText(g.members[j].structureKey) == KeyText(g.members[0].structureKey)
        {
          assert g.members[j] in g.members;
        }
        PlanMembersSound(PlanGroups(current, repreType, proteins, engine, init), current, repreType,
                         LoadedProtein(proteins, g.members[0].structureKey), engine, KeyText(g.members[0].structureKey),
                         g.members, selections);
      }
    }
  }

  /** The plan for the selections is sound. */
  lemma PlanOfSound(current: map<string, Transform>, repreType: string, selections: seq<Location>,
                    proteins: seq<Protein>, engine: Engine)
    ensures PlanSound(PlanOf(current, repreType, selections, proteins, engine), current, repreType, selections)
  {
    GroupByMeaning(selections, StructureKeyOf());
    PlanGroupsSound(current, repreType, proteins, engine, StructureGroups(selections), selections);
  }

  /** No pending request is for `k`. */
  predicate NotPending(pending: seq<Pending>, k: string)
  {
    forall i :: 0 <= i < |pending| ==> pending[i].key != k
  }

  /** Settling touches only the pending keys, and leaves each of them either absent or shown
      with the requested type. */
  lemma {:induction false} SettleAllMeaning(m: map<string, Transform>, pending: seq<Pending>, repreType: string, engine: Engine)
    ensures var r := SettleAll(m, pending, repreType, engine);
            forall k :: NotPending(pending, k) ==> (k in r <==> k in m) && (k in m ==> r[k] == m[k])
    ensures var r := SettleAll(m, pending, repreType, engine);
            forall k :: k in r ==> (k in m && r[k] == m[k]) || (r[k].repreType == repreType && r[k].visible)
  {
    if |pending| > 0 {
      var init := pending[..|pending| - 1];
      SettleAllMeaning(m, init, repreType, engine);
      forall k | NotPending(pending, k)
        ensures NotPending(init, k)
      {
        forall i | 0 <= i < |init|
          ensures init[i].key != k
        {
          assert init[i] == pending[i];
        }
      }
    }
  }

  /** An atom that already has a transform of the requested type keeps it unchanged. */
  lemma HandledKeepsSameType(current: map<string, Transform>, repreType: string, selections: seq<Location>,
                             proteins: seq<Protein>, engine: Engine, k: string)
    requires Handled(current, repreType, selections, proteins, engine).Ok?
    requires Skipped(current, k, repreType)
    ensures var r := Handled(current, repreType, selections, proteins, engine).value;
            k in r && r[k] == current[k]
  {
    var plan := PlanOf(current, repreType, selections, proteins, engine);
    PlanOfSound(current, repreType, selections, proteins, engine);
    SettleAllMeaning(current, plan.pending, repreType, engine);
  }

  /** Only the transforms of selected atoms change, and every transform that changed is shown
      with the requested type. */
  lemma HandledEntries(current: map<string, Transform>, repreType: string, selections: seq<Location>,
                       proteins: seq<Protein>, engine: Engine)
    requires Handled(current, repreType, selections, proteins, engine).Ok?
    ensures var r := Handled(current, repreType, selections, proteins, engine).value;
            (forall k :: k !in SelectedKeys(selections) ==> (k in r <==> k in current) && (k in current ==> r[k] == current[k])) &&
            (forall k :: k in r ==> (k in current && r[k] == current[k]) || (r[k].repreType == repreType && r[k].visible))
  {
    var plan := PlanOf(current, repreType, selections, proteins, engine);
    PlanOfSound(current, repreType, selections, proteins, engine);
    SettleAllMeaning(current, plan.pending, repreType, engine);
  }

  /** The toggle of lines 46-56 on the table: the entries whose `visible` equals the flag flip. */
  function Toggled(m: map<string, Transform>, flag: bool): (r: map<string, Transform>)
    ensures r.Keys == m.Keys
    ensures forall k :: k in r ==> r[k].visible == !flag && r[k].ref == m[k].ref && r[k].repreType == m[k].repreType
    ensures forall k :: k in r ==> (r[k] != m[k] <==> m[k].visible == flag)
  {
    map k | k in m :: if m[k].visible == flag then m[k].(visible := !flag) else m[k]
  }

  // ------------------------------------------------------------ the loops

  /** Once the loop has thrown, nothing further happens. */
  lemma {:induction false} PlanMembersCrashed(plan: Plan, current: map<string, Transform>, repreType: string, protein: Option<Protein>,
                                              engine: Engine, text: string, members: seq<Location>)
    requires plan.crashed
    ensures PlanMembers(plan, current, repreType, protein, engine, text, members) == plan
  {
    if |members| > 0 {
      PlanMembersCrashed(plan, current, repreType, protein, engine, text, members[..|members| - 1]);
    }
  }

  lemma {:induction false} PlanMembersStays(plan: Plan, current: map<string, Transform>, repreType: string, protein: Option<Protein>,
                                            engine: Engine, text: string, members: seq<Location>, j: int)
    requires 0 <= j <= |members|
    requires PlanMembers(plan, current, repreType, protein, engine, text, members[..j]).crashed
    ensures PlanMembers(plan, current, repreType, protein, engine, text, members) ==
            PlanMembers(plan, current, repreType, protein, engine, text, members[..j])
  {
    if j < |members| {
      var init := members[..|members| - 1];
      assert init[..j] == members[..j];
      PlanMembersStays(plan, current, repreType, protein, engine, text, init, j);
    } else {
      assert members[..j] == members;
    }
  }

  lemma {:induction false} PlanGroupsStays(current: map<string, Transform>, repreType: string, proteins: seq<Protein>,
                                           engine: Engine, groups: seq<Group<string, Location>>, j: int)
    requires 0 <= j <= |groups|
    requires PlanGroups(current, repreType, proteins, engine, groups[..j]).crashed
    ensures PlanGroups(current, repreType, proteins, engine, groups) == PlanGroups(current, repreType, proteins, engine, groups[..j])
  {
    if j < |groups| {
      var init := groups[..|groups| - 1];
      assert init[..j] == groups[..j];
      PlanGroupsStays(current, repreType, proteins, engine, init, j);
      var g := groups[|groups| - 1];
      if |g.members| > 0 {
        PlanMembersCrashed(PlanGroups(current, repreType, proteins, engine, init), current, repreType,
                           LoadedProtein(proteins, g.members[0].structureKey), engine, KeyText(g.members[0].structureKey), g.members);
      }
    } else {
      assert groups[..j] == groups;
    }
  }

  /** The body of `group.forEach(...)` for one location (lines 87-97). */
  method PlanLocationWork(plan: Plan, current: map<string, Transform>, repreType: string, protein: Option<Protein>,
                          engine: Engine, text: string, location: Location) returns (next: Plan)
    requires !plan.crashed
    ensures next == PlanLocation(plan, current, repreType, protein, engine, text, location)
  {
    var key := TransformKey(text, location.atomIndex);
    if key in current && current[key].repreType == repreType {
      return plan;
    }
    var removals := plan.removals;
    if key in current {
      removals := removals + [current[key].ref];
    }
    if protein.None? || !engine.hasStructureRef(protein.value.key) {
      return Plan(removals, plan.pending, true);
    }
    var request := GetTransformRepreComponent(engine.resolves(protein.value.key), protein.value.molData.structure,
                                              [location], Some("Custom Selection"));
    return Plan(removals, plan.pending + [Pending(key, protein.value.key, request)], false);
  }

  /** `group.forEach(...)`: the loop stops at the first location that throws. */
  method PlanMembersWork(plan0: Plan, current: map<string, Transform>, repreType: string, protein: Option<Protein>,
                         engine: Engine, text: string, members: seq<Location>) returns (plan: Plan)
    requires !plan0.crashed
    ensures plan == PlanMembers(plan0, current, repreType, protein, engine, text, members)
  {
    plan := plan0;
    for i := 0 to |members|
      invariant !plan.crashed
      invariant plan == PlanMembers(plan0, current, repreType, protein, engine, text, members[..i])
    {
      assert members[..i + 1][..i] == members[..i];
      plan := PlanLocationWork(plan, current, repreType, protein, engine, text, members[i]);
      if plan.crashed {
        PlanMembersStays(plan0, current, repreType, protein, engine, text, members, i + 1);
        return;
      }
    }
    assert members[..|members|] == members;
  }

  /** `groups.forEach(...)`. */
  method PlanWork(current: map<string, Transform>, repreType: string, proteins: seq<Protein>, engine: Engine,
                  groups: seq<Group<string, Location>>) returns (plan: Plan)
    ensures plan == PlanGroups(current, repreType, proteins, engine, groups)
  {
    plan := Plan([], [], false);
    for i := 0 to |groups|
      invariant !plan.crashed
      invariant plan == PlanGroups(current, repreType, proteins, engine, groups[..i])
    {
      var g := groups[i];
      assert groups[..i + 1][..i] == groups[..i];
      if |g.members| > 0 {
        var head := g.members[0];
        var protein := LoadedProtein(proteins, head.structureKey);
        plan := PlanMembersWork(plan, current, repreType, protein, engine, KeyText(head.structureKey), g.members);
      }
      if plan.crashed {
        PlanGroupsStays(current, repreType, proteins, engine, groups, i + 1);
        return;
      }
    }
    assert groups[..|groups|] == groups;
  }

  /** `promises.forEach(...)` and `await Promise.all(promises)` (lines 101-128). */
  method SettleWork(m0: map<string, Transform>, pending: seq<Pending>, repreType: string, engine: Engine)
    returns (r: Outcome<map<string, Transform>>)
    ensures r == if SomeRejects(pending) then Throws else Ok(SettleAll(m0, pending, repreType, engine))
  {
    var m := m0;
    for i := 0 to |pending|
      invariant m == SettleAll(m0, pending[..i], repreType, engine)
      invariant forall j :: 0 <= j < i ==> pending[j].request.Ok?
    {
      if pending[i].request.Throws? {
        return Throws;
      }
      m := SettleOne(m, pending[i], repreType, engine);
      SettleAllNext(m0, pending, i, repreType, engine);
    }
    assert pending[..|pending|] == pending;
    return Ok(m);
  }

  lemma SettleAllNext(m0: map<string, Transform>, pending: seq<Pending>, i: int, repreType: string, engine: Engine)
    requires 0 <= i < |pending|
    ensures SettleAll(m0, pending[..i + 1], repreType, engine) ==
            Settle(SettleAll(m0, pending[..i], repreType, engine), pending[i], repreType, engine)
  {
    assert pending[..i + 1][..i] == pending[..i];
  }

  /** The `.then` of one request (lines 104-120). */
  method SettleOne(m: map<string, Transform>, p: Pending, repreType: string, engine: Engine)
    returns (r: map<string, Transform>)
    requires p.request.Ok?
    ensures r == Settle(m, p, repreType, engine)
  {
    if p.request.value.None? {
      r := m - {p.key};
    } else {
      var created := engine.create(p.proteinKey, p.request.value.value);
      if created.None? {
        r := m - {p.key};
      } else {
        r := m[p.key := Transform(created.value, repreType, true)];
      }
    }
  }

  /** `Object.values(newTransforms).forEach(...)` (lines 48-54): flip every entry whose
      `visible` equals the flag. */
  method ToggleEach(m: map<string, Transform>, flag: bool) returns (out: map<string, Transform>)
    ensures out == Toggled(m, flag)
  {
    out := m;
    var todo := m.Keys;
    while todo != {}
      invariant todo <= m.Keys && out.Keys == m.Keys
      invariant forall k :: k in todo ==> out[k] == m[k]
      invariant forall k :: k in m.Keys - todo ==> out[k] == Toggled(m, flag)[k]
      decreases |todo|
    {
      var k :| k in todo;
      if out[k].visible == flag {
        out := out[k := out[k].(visible := !flag)];
      }
      todo := todo - {k};
    }
  }

  /** The hook's state: the transform table and the global visibility flag, with the
      references handed to `removeTransform` in call order. */
  class TransformStore {
    var transforms: map<string, Transform>
    var transformVisible: bool
    var removals: seq<string>

    constructor()
      ensures transforms == map[] && transformVisible && removals == []
    {
      transforms := map[];
      transformVisible := true;
      removals := [];
    }

    /** `handleToggleTransformVisible` (lines 46-57). */
    method HandleToggleTransformVisible()
      modifies this
      ensures transforms == Toggled(old(transforms), old(transformVisible))
      ensures transformVisible == !old(transformVisible)
      ensures removals == old(removals)
    {
      transforms := ToggleEach(transforms, transformVisible);
      transformVisible := !transformVisible;
    }

    /** `handleTransformRepres` (lines 59-132): `true` when it stores the new table, `false`
        when it rejects and the table stays as it was. */
    method HandleTransformRepres(repreType: string, selections: seq<Location>, proteins: seq<Protein>, engine: Engine)
      returns (done: bool)
      modifies this
      ensures var h := Handled(old(transforms), repreType, selections, proteins, engine);
              done == h.Ok? && transforms == (if h.Ok? then h.value else old(transforms))
      ensures removals == old(removals) + PlanOf(old(transforms), repreType, selections, proteins, engine).removals
      ensures transformVisible == old(transformVisible)
    {
      var current := transforms;
      var groups := GroupItems(selections, StructureKeyOf());
      var plan := PlanWork(current, repreType, proteins, engine, groups);
      removals := removals + plan.removals;
      if plan.crashed {
        return false;
      }
      var settled := SettleWork(current, plan.pending, repreType, engine);
      if settled.Throws? {
        return false;
      }
      transforms := settled.value;
      return true;
    }
  }
}
