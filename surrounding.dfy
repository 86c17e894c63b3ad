/** `getSurrounding`: the residues around a set of seed residues. The seeds are bucketed by
    owning protein and then by chain group into one seed structure per protein; the spatial
    query itself is a parameter; the residue indices of what it returns are collected,
    sorted and resolved to locations. */
module Surrounding {
  import opened Common
  import opened StructureModel
  import opened GetLocation
  import opened Grouping

  /** The radius used when none is given (line 20). */
  const DefaultRadius := 5

  // ---------------------------------------------------------- by protein

  function StructureKeyIs(key: Option<string>): Protein -> bool
  {
    (p: Protein) => p.molData.structureKey == key
  }

  /** Lines 24-25: the residue's protein is the first with its structure key; a residue
      whose protein is missing or not loaded has no bucket. */
  function OwnerOf(proteins: seq<Protein>): Location -> Option<nat>
  {
    (r: Location) =>
      var i := FirstWhere(proteins, StructureKeyIs(r.structureKey));
      if i != -1 && proteins[i].status == Loaded then Some(i) else None
  }

  /** The residues bucketed by protein (lines 22-35). */
  function ProteinGroups(residues: seq<Location>, proteins: seq<Protein>): seq<Group<nat, Location>>
  {
    GroupBy(residues, OwnerOf(proteins))
  }

  /** The buckets are the protein grouping in first-appearance order. */
  lemma ProteinGroupsMeaning(residues: seq<Location>, proteins: seq<Protein>)
    ensures GroupedFrom(ProteinGroups(residues, proteins), residues, OwnerOf(proteins))
  {
    GroupByMeaning(residues, OwnerOf(proteins));
  }

  /** Each bucket names a loaded protein. */
  lemma ProteinGroupsLoaded(residues: seq<Location>, proteins: seq<Protein>)
    ensures KeysIn(ProteinGroups(residues, proteins), proteins)
    ensures forall p :: 0 <= p < |ProteinGroups(residues, proteins)| ==>
              proteins[ProteinGroups(residues, proteins)[p].key].status == Loaded
  {
    var groups := ProteinGroups(residues, proteins);
    GroupByMeaning(residues, OwnerOf(proteins));
    forall p | 0 <= p < |groups|
      ensures groups[p].key < |proteins| && proteins[groups[p].key].status == Loaded
    {
      assert KeyIn(groups, groups[p].key);
      var i :| 0 <= i < |residues| && OwnerOf(proteins)(residues[i]) == Some(groups[p].key);
    }
  }

  /** A residue is in a bucket exactly when its protein is found and loaded. */
  lemma ProteinGroupsDrop(residues: seq<Location>, proteins: seq<Protein>, i: int)
    requires 0 <= i < |residues|
    ensures (exists p :: 0 <= p < |ProteinGroups(residues, proteins)| && residues[i] in ProteinGroups(residues, proteins)[p].members)
            <== OwnerOf(proteins)(residues[i]).Some?
  {
    var groups := ProteinGroups(residues, proteins);
    var key := OwnerOf(proteins);
    GroupByMeaning(residues, key);
    if key(residues[i]).Some? {
      var k := key(residues[i]).value;
      assert Met(residues, key, k);
      var p :| 0 <= p < |groups| && groups[p].key == k;
      MemberIn(residues, key, k, i);
    }
  }

  /** An item with key `k` is among the members of `k`. */
  lemma {:induction false} MemberIn<K(!new), T>(xs: seq<T>, key: T -> Option<K>, k: K, i: int)
    requires 0 <= i < |xs| && key(xs[i]) == Some(k)
    ensures xs[i] in Members(xs, key, k)
  {
    if i < |xs| - 1 {
      MemberIn(xs[..|xs| - 1], key, k, i);
    }
  }

  // ------------------------------------------------------------- numbers

  function IsNumTest(): JsNum -> bool { (x: JsNum) => x.Num? }
  function NotNumTest(): JsNum -> bool { (x: JsNum) => !x.Num? }
  function NumKey(): JsNum -> int { (x: JsNum) => if x.Num? then x.value else 0 }

  /** Numbers first, ascending, then everything else. */
  predicate NumbersAscending(xs: seq<JsNum>)
  {
    forall i, j :: 0 <= i < j < |xs| && xs[j].Num? ==> xs[i].Num? && xs[i].value <= xs[j].value
  }

  /** `s.sort((a, b) => a - b)` over numbers that may be `undefined`: the numbers ascending,
      then the `undefined` entries, which the sort always moves to the end. */
  function SortNumbers(s: seq<JsNum>): (r: seq<JsNum>)
    ensures multiset(r) == multiset(s)
    ensures NumbersAscending(r)
  {
    var nums := Filter(s, IsNumTest());
    var sorted := SortBy(nums, NumKey());
    FilterComplement(s, IsNumTest(), NotNumTest());
    SortedNumbersAreNumbers(s, sorted);
    AscendingConcat(sorted, Filter(s, NotNumTest()));
    sorted + Filter(s, NotNumTest())
  }

  lemma SortedNumbersAreNumbers(s: seq<JsNum>, sorted: seq<JsNum>)
    requires multiset(sorted) == multiset(Filter(s, IsNumTest()))
    ensures forall i :: 0 <= i < |sorted| ==> sorted[i].Num?
  {
    forall i | 0 <= i < |sorted|
      ensures sorted[i].Num?
    {
      assert sorted[i] in multiset(Filter(s, IsNumTest()));
      FilterMembers(s, IsNumTest(), sorted[i]);
    }
  }

  lemma AscendingConcat(sorted: seq<JsNum>, rest: seq<JsNum>)
    requires forall i :: 0 <= i < |sorted| ==> sorted[i].Num?
    requires SortedBy(sorted, NumKey())
    requires forall i :: 0 <= i < |rest| ==> !rest[i].Num?
    ensures NumbersAscending(sorted + rest)
  {
    var r := sorted + rest;
    forall i, j | 0 <= i < j < |r| && r[j].Num?
      ensures r[i].Num? && r[i].value <= r[j].value
    {
      assert j < |sorted| && r[j] == sorted[j] && r[i] == sorted[i];
      assert NumKey()(sorted[i]) <= NumKey()(sorted[j]);
    }
  }

  // --------------------------------------------------------------- seeds

  /** One unit of a seed structure (lines 80-83): the chain group the key parses to, the
      structure's unit at that index if there is one, and the seed atoms, sorted. */
  datatype SeedUnit = SeedUnit(chainGroupId: JsNum, base: Option<Unit>, elements: seq<JsNum>)

  /** The seed structure of one protein: its units, the map from chain group to unit
      position, and the number of seed atoms. */
  datatype Seed = Seed(units: seq<SeedUnit>, unitIndexMap: map<JsNum, int>, elementCount: int)

  function ChainKey(): Location -> Option<Option<int>>
  {
    (r: Location) => Some(r.chainGroupId)
  }

  /** The residues bucketed by chain group (lines 64-70), in the order `Object.keys`
      lists the buckets (line 72). */
  function ChainGroups(residues: seq<Location>): seq<Group<Option<int>, Location>>
  {
    ObjectKeyOrder(GroupBy(residues, ChainKey()))
  }

  /** The residues' elements one after another (lines 76-79). */
  function AllElements(residues: seq<Location>): (r: seq<JsNum>)
    ensures |r| == SumOf(residues, ElementCount())
  {
    if |residues| == 0 then []
    else AllElements(residues[..|residues| - 1]) + residues[|residues| - 1].elements
  }

  function ElementCount(): Location -> int
  {
    (r: Location) => |r.elements|
  }

  /** `parseInt` of an object key: the chain group, or `NaN` for the key `"undefined"`. */
  function ParseKey(k: Option<int>): (r: JsNum)
    ensures r.Num? <==> k.Some?
    ensures k.Some? ==> r.value == k.value
  {
    if k.Some? then Num(k.value) else NaN
  }

  function SeedUnitOf(units: seq<Unit>, g: Group<Option<int>, Location>): (u: SeedUnit)
  {
    var id := ParseKey(g.key);
    SeedUnit(id, if id.Num? && 0 <= id.value < |units| then Some(units[id.value]) else None,
      SortNumbers(AllElements(g.members)))
  }

  function SeedUnitsOf(units: seq<Unit>, groups: seq<Group<Option<int>, Location>>): (r: seq<SeedUnit>)
    ensures |r| == |groups|
  {
    if |groups| == 0 then [] else SeedUnitsOf(units, groups[..|groups| - 1]) + [SeedUnitOf(units, groups[|groups| - 1])]
  }

  /** Line 87, for every bucket in turn. */
  function IndexMap(groups: seq<Group<Option<int>, Location>>): map<JsNum, int>
  {
    if |groups| == 0 then map[]
    else IndexMap(groups[..|groups| - 1])[ParseKey(groups[|groups| - 1].key) := |groups| - 1]
  }

  function GroupSize(): Group<Option<int>, Location> -> int
  {
    (g: Group<Option<int>, Location>) => |AllElements(g.members)|
  }

  /** The seed structure built for one protein's residues (lines 62-90). */
  function SeedOf(units: seq<Unit>, residues: seq<Location>): Seed
  {
    var groups := ChainGroups(residues);
    Seed(SeedUnitsOf(units, groups), IndexMap(groups), SumOf(groups, GroupSize()))
  }

  lemma {:induction false} SeedUnitsAt(units: seq<Unit>, groups: seq<Group<Option<int>, Location>>, i: int)
    requires 0 <= i < |groups|
    ensures SeedUnitsOf(units, groups)[i] == SeedUnitOf(units, groups[i])
  {
    if i < |groups| - 1 {
      SeedUnitsAt(units, groups[..|groups| - 1], i);
    }
  }

  /** The chain buckets hold exactly the residues of their chain group, in order. */
  lemma ChainGroupsMembers(residues: seq<Location>)
    ensures MembersFrom(ChainGroups(residues), residues, ChainKey())
  {
    var byChain := GroupBy(residues, ChainKey());
    GroupByMeaning(residues, ChainKey());
    ObjectKeyOrderMeaning(byChain);
    MembersFromPermutation(ChainGroups(residues), byChain, residues, ChainKey());
  }

  /** No chain group has two buckets. */
  lemma ChainGroupsDistinct(residues: seq<Location>)
    ensures DistinctKeys(ChainGroups(residues))
  {
    var byChain := GroupBy(residues, ChainKey());
    GroupByMeaning(residues, ChainKey());
    ObjectKeyOrderMeaning(byChain);
    DistinctKeysPermutation(ChainGroups(residues), byChain);
  }

  /** Each chain group met has a bucket and each bucket's chain group is met. */
  lemma ChainGroupsKeys(residues: seq<Location>)
    ensures KeysMet(ChainGroups(residues), residues, ChainKey())
  {
    var byChain := GroupBy(residues, ChainKey());
    GroupByMeaning(residues, ChainKey());
    ObjectKeyOrderMeaning(byChain);
    KeysMetPermutation(ChainGroups(residues), byChain, residues, ChainKey());
  }

  /** `Object.keys` order: the buckets of array-index chain groups come first, ascending. */
  lemma ChainGroupsOrder(residues: seq<Location>)
    ensures var groups := ChainGroups(residues);
            forall i, j :: 0 <= i < j < |groups| && IsIndexKey(groups[j]) ==>
              IsIndexKey(groups[i]) && groups[i].key.value <= groups[j].key.value
  {
    var byChain := GroupBy(residues, ChainKey());
    var groups := ChainGroups(residues);
    ObjectKeyOrderMeaning(byChain);
    var cut := |Filter(byChain, IndexKeyTest())|;
    forall k | cut <= k < |groups|
      ensures !IsIndexKey(groups[k])
    {
      assert groups[k] == Filter(byChain, OtherKeyTest())[k - cut];
    }
  }

  /** Each unit of the seed is built from one chain bucket: it carries the parsed chain
      group and exactly the elements of that chain group's residues, numbers ascending. */
  lemma SeedUnitsMeaning(units: seq<Unit>, residues: seq<Location>)
    ensures var groups := ChainGroups(residues);
            var seed := SeedOf(units, residues);
            |seed.units| == |groups| &&
            forall i :: 0 <= i < |groups| ==>
              seed.units[i].chainGroupId == ParseKey(groups[i].key) &&
              seed.units[i].elements == SortNumbers(AllElements(Members(residues, ChainKey(), groups[i].key)))
  {
    var groups := ChainGroups(residues);
    ChainGroupsMembers(residues);
    forall i | 0 <= i < |groups|
      ensures SeedOf(units, residues).units[i] == SeedUnitOf(units, groups[i])
    {
      SeedUnitsAt(units, groups, i);
    }
  }

  /** Line 87: the seed's index map sends each chain group to the position of its unit. */
  lemma SeedIndexMap(units: seq<Unit>, residues: seq<Location>)
    ensures var groups := ChainGroups(residues);
            var seed := SeedOf(units, residues);
            (forall i :: 0 <= i < |groups| ==> ParseKey(groups[i].key) in seed.unitIndexMap && seed.unitIndexMap[ParseKey(groups[i].key)] == i) &&
            (forall k :: k in seed.unitIndexMap ==> exists i :: 0 <= i < |groups| && ParseKey(groups[i].key) == k)
  {
    ChainGroupsDistinct(residues);
    IndexMapMeaning(ChainGroups(residues));
  }

  /** Line 87 for every bucket: each chain group maps to its unit's position. */
  lemma {:induction false} IndexMapMeaning(groups: seq<Group<Option<int>, Location>>)
    requires DistinctKeys(groups)
    ensures forall i :: 0 <= i < |groups| ==> ParseKey(groups[i].key) in IndexMap(groups) && IndexMap(groups)[ParseKey(groups[i].key)] == i
    ensures forall k :: k in IndexMap(groups) ==> exists i :: 0 <= i < |groups| && ParseKey(groups[i].key) == k
  {
    if |groups| > 0 {
      IndexMapMeaning(groups[..|groups| - 1]);
    }
  }

  /** Line 90: the seed structure counts every element of every residue once. */
  lemma SeedElementCount(units: seq<Unit>, residues: seq<Location>)
    ensures SeedOf(units, residues).elementCount == SumOf(residues, ElementCount())
  {
    var byChain := GroupBy(residues, ChainKey());
    var groups := ChainGroups(residues);
    ObjectKeyOrderMeaning(byChain);
    SumOfPermutation(groups, byChain, GroupSize());
    SumOfCongruent(byChain, GroupSize(), MemberSum(ElementCount()));
    GroupBySum(residues, ChainKey(), ElementCount());
  }

  /** `elements.push(...residure.elements)` for every residue of a bucket. */
  method ConcatElements(residues: seq<Location>) returns (elements: seq<JsNum>)
    ensures elements == AllElements(residues)
  {
    elements := [];
    for i := 0 to |residues|
      invariant elements == AllElements(residues[..i])
    {
      assert residues[..i + 1][..i] == residues[..i];
      elements := elements + residues[i].elements;
    }
    assert residues[..|residues|] == residues;
  }

  lemma SeedStep(units: seq<Unit>, groups: seq<Group<Option<int>, Location>>, i: int)
    requires 0 <= i < |groups|
    ensures SeedUnitsOf(units, groups[..i + 1]) == SeedUnitsOf(units, groups[..i]) + [SeedUnitOf(units, groups[i])]
    ensures IndexMap(groups[..i + 1]) == IndexMap(groups[..i])[ParseKey(groups[i].key) := i]
    ensures SumOf(groups[..i + 1], GroupSize()) == SumOf(groups[..i], GroupSize()) + |AllElements(groups[i].members)|
  {
    assert groups[..i + 1][..i] == groups[..i];
  }

  /** Lines 76-85: the seed unit of one chain bucket, with the number of its elements. */
  method BuildSeedUnit(units: seq<Unit>, g: Group<Option<int>, Location>) returns (unit: SeedUnit, count: int)
    ensures unit == SeedUnitOf(units, g)
    ensures count == |AllElements(g.members)|
  {
    var chainId := ParseKey(g.key);
    var elements := ConcatElements(g.members);
    var base := if chainId.Num? && 0 <= chainId.value < |units| then Some(units[chainId.value]) else None;
    unit := SeedUnit(chainId, base, SortNumbers(elements));
    count := |elements|;
  }

  /** Lines 73-90: the seed structure built bucket by bucket. */
  method BuildSeedFrom(units: seq<Unit>, groups: seq<Group<Option<int>, Location>>) returns (seed: Seed)
    ensures seed == Seed(SeedUnitsOf(units, groups), IndexMap(groups), SumOf(groups, GroupSize()))
  {
    var seedUnits: seq<SeedUnit> := [];
    var unitIndexMap: map<JsNum, int> := map[];
    var elementCount := 0;
    for i := 0 to |groups|
      invariant seedUnits == SeedUnitsOf(units, groups[..i])
      invariant unitIndexMap == IndexMap(groups[..i])
      invariant elementCount == SumOf(groups[..i], GroupSize())
    {
      var unit, count := BuildSeedUnit(units, groups[i]);
      SeedStep(units, groups, i);
      elementCount := elementCount + count;
      seedUnits := seedUnits + [unit];
      unitIndexMap := unitIndexMap[ParseKey(groups[i].key) := i];
    }
    assert groups[..|groups|] == groups;
    seed := Seed(seedUnits, unitIndexMap, elementCount);
  }

  /** Lines 62-90: bucket the residues by chain group and build the seed structure unit
      by unit. */
  method BuildSeed(units: seq<Unit>, residues: seq<Location>) returns (seed: Seed)
    ensures seed == SeedOf(units, residues)
  {
    var byChain := GroupItems(residues, ChainKey());
    var groups := ObjectKeyOrder(byChain);
    seed := BuildSeedFrom(units, groups);
  }

  // ------------------------------------------------------------- results

  /** The residue index of every element of a unit of the result, in order (line 129). */
  function UnitVisits(u: Unit, residueIndex: seq<int>): (r: seq<JsNum>)
    ensures |r| == |u.elements|
    ensures forall k :: 0 <= k < |r| ==> !r[k].NaN?
  {
    seq(|u.elements|, k requires 0 <= k < |u.elements| => At(residueIndex, Num(u.elements[k])))
  }

  /** The residue indices met over all units, in order. */
  function Visits(units: seq<Unit>, residueIndex: seq<int>): (r: seq<JsNum>)
    ensures forall k :: 0 <= k < |r| ==> !r[k].NaN?
  {
    if |units| == 0 then [] else Visits(units[..|units| - 1], residueIndex) + UnitVisits(units[|units| - 1], residueIndex)
  }

  /** Lines 130-132: record `v` in front unless it is what was recorded last. */
  function Record(seqIdxs: seq<JsNum>, v: JsNum): (r: seq<JsNum>)
  {
    if !StrictEq(Head(seqIdxs), v) then [v] + seqIdxs else seqIdxs
  }

  function RecordAll(acc: seq<JsNum>, vs: seq<JsNum>): seq<JsNum>
  {
    if |vs| == 0 then acc else Record(RecordAll(acc, vs[..|vs| - 1]), vs[|vs| - 1])
  }

  lemma {:induction false} RecordAllAppend(acc: seq<JsNum>, a: seq<JsNum>, b: seq<JsNum>)
    ensures RecordAll(acc, a + b) == RecordAll(RecordAll(acc, a), b)
  {
    if |b| == 0 {
      assert a + b == a;
    } else {
      assert (a + b)[..|a + b| - 1] == a + b[..|b| - 1];
      RecordAllAppend(acc, a, b[..|b| - 1]);
    }
  }

  /** No two neighbours are equal. */
  predicate Collapsed(s: seq<JsNum>)
  {
    forall i :: 0 <= i < |s| - 1 ==> s[i] != s[i + 1]
  }

  /** Recording collapses consecutive repeats: with no `NaN` met, no two neighbours of the
      record are equal, every number met is recorded, and everything recorded was met. */
  lemma {:induction false} RecordAllMeaning(acc: seq<JsNum>, vs: seq<JsNum>)
    requires Collapsed(acc) && forall k :: 0 <= k < |vs| ==> !vs[k].NaN?
    ensures Collapsed(RecordAll(acc, vs))
    ensures forall v: JsNum :: v.Num? ==> (v in RecordAll(acc, vs) <==> v in acc || v in vs)
    ensures forall v: JsNum :: v in RecordAll(acc, vs) ==> v in acc || v in vs
  {
    if |vs| > 0 {
      var init, x := vs[..|vs| - 1], vs[|vs| - 1];
      RecordAllMeaning(acc, init);
      var before := RecordAll(acc, init);
      assert vs == init + [x];
      if StrictEq(Head(before), x) {
        assert |before| > 0 ==> before[0] == x;
      }
    }
  }

  /** Lines 124-134: walk every element of every unit and record its residue index. */
  method CollectSeqIdxs(units: seq<Unit>, residueIndex: seq<int>) returns (seqIdxs: seq<JsNum>)
    ensures seqIdxs == RecordAll([], Visits(units, residueIndex))
  {
    seqIdxs := [];
    for u := 0 to |units|
      invariant seqIdxs == RecordAll([], Visits(units[..u], residueIndex))
    {
      ghost var before := seqIdxs;
      var elements := units[u].elements;
      for e := 0 to |elements|
        invariant seqIdxs == RecordAll(before, UnitVisits(units[u], residueIndex)[..e])
      {
        var seqIdx := At(residueIndex, Num(elements[e]));
        if !StrictEq(Head(seqIdxs), seqIdx) {
          seqIdxs := [seqIdx] + seqIdxs;
        }
        assert UnitVisits(units[u], residueIndex)[..e + 1][..e] == UnitVisits(units[u], residueIndex)[..e];
      }
      assert UnitVisits(units[u], residueIndex)[..|elements|] == UnitVisits(units[u], residueIndex);
      assert units[..u + 1][..u] == units[..u];
      RecordAllAppend([], Visits(units[..u], residueIndex), UnitVisits(units[u], residueIndex));
    }
    assert units[..|units|] == units;
  }

  /** `getLocationBySeqIdx` for a residue index that may be `undefined`; `indexOf` never
      finds `undefined` among the residue indices, so that lookup finds nothing, after the
      same failures on a missing structure. */
  function ResolveSeqIdx(v: JsNum, protein: Protein): (r: Outcome<Option<Location>>)
    ensures r.Ok? && r.value.Some? ==> v.Num? && r.value.value.seqIdx == v
  {
    if v.Num? then LocationBySeqIdx(v.value, protein)
    else if protein.status != Loaded then Ok(None)
    else if protein.molData.structure.None? || |protein.molData.structure.value.units| == 0 then Throws
    else Ok(None)
  }

  /** A lookup of one residue index. */
  type Resolve = JsNum -> Outcome<Option<Location>>

  function Resolver(protein: Protein): Resolve
  {
    (v: JsNum) => ResolveSeqIdx(v, protein)
  }

  /** A location a lookup finds carries the residue index looked up. */
  ghost predicate Faithful(resolve: Resolve)
  {
    forall v :: resolve(v).Ok? && resolve(v).value.Some? ==> v.Num? && resolve(v).value.value.seqIdx == v
  }

  lemma ResolverFaithful(protein: Protein)
    ensures Faithful(Resolver(protein))
  {
  }

  /** Line 135: resolve every residue index and keep the ones found; a throw ends it all. */
  function ResolveAll(xs: seq<JsNum>, resolve: Resolve): (r: Outcome<seq<Location>>)
  {
    if |xs| == 0 then Ok([])
    else
      match ResolveAll(xs[..|xs| - 1], resolve)
      case Throws => Throws
      case Ok(found) =>
        match resolve(xs[|xs| - 1])
        case Throws => Throws
        case Ok(None) => Ok(found)
        case Ok(Some(l)) => Ok(found + [l])
  }

  /** Some lookup throws. */
  predicate SomeThrows(xs: seq<JsNum>, resolve: Resolve)
  {
    exists k :: 0 <= k < |xs| && resolve(xs[k]).Throws?
  }

  /** Every location's residue index is one of `xs`. */
  predicate FromIndices(r: seq<Location>, xs: seq<JsNum>)
  {
    forall i :: 0 <= i < |r| ==> r[i].seqIdx in xs
  }

  /** Every location has a residue index, and they ascend. */
  predicate AscendingBySeqIdx(r: seq<Location>)
  {
    (forall i :: 0 <= i < |r| ==> r[i].seqIdx.Num?) &&
    (forall i, j :: 0 <= i < j < |r| ==> r[i].seqIdx.value <= r[j].seqIdx.value)
  }

  /** Every index of `xs` that resolves to a location has it in `r`. */
  predicate HasResolved(r: seq<Location>, xs: seq<JsNum>, resolve: Resolve)
  {
    forall k :: 0 <= k < |xs| && resolve(xs[k]).Ok? && resolve(xs[k]).value.Some? ==>
      resolve(xs[k]).value.value in r
  }

  /** Resolving the whole fails exactly when one lookup throws. */
  lemma {:induction false} ResolveAllThrows(xs: seq<JsNum>, resolve: Resolve)
    ensures ResolveAll(xs, resolve).Throws? <==> SomeThrows(xs, resolve)
  {
    if |xs| > 0 {
      var init := xs[..|xs| - 1];
      ResolveAllThrows(init, resolve);
      if SomeThrows(init, resolve) {
        var k :| 0 <= k < |init| && resolve(init[k]).Throws?;
        assert xs[k] == init[k];
      }
      if SomeThrows(xs, resolve) && !resolve(xs[|xs| - 1]).Throws? {
        var k :| 0 <= k < |xs| && resolve(xs[k]).Throws?;
        assert init[k] == xs[k];
      }
    }
  }

  /** Over ascending residue indices, the locations found come out in ascending residue
      index; each comes from one of the indices, and every index that resolves is there. */
  lemma {:induction false} ResolveAllFound(xs: seq<JsNum>, resolve: Resolve)
    requires NumbersAscending(xs) && Faithful(resolve)
    ensures ResolveAll(xs, resolve).Ok? ==>
              var r := ResolveAll(xs, resolve).value;
              FromIndices(r, xs) && AscendingBySeqIdx(r) && HasResolved(r, xs, resolve)
  {
    if |xs| > 0 && ResolveAll(xs, resolve).Ok? {
      var init, x := xs[..|xs| - 1], xs[|xs| - 1];
      ResolveAllFound(init, resolve);
      var found := ResolveAll(init, resolve).value;
      var r := ResolveAll(xs, resolve).value;
      assert xs == init + [x];
      FoundStep(init, x, resolve, found, r);
    }
  }

  /** One more index: what `ResolveAll` adds for it keeps the three properties. */
  lemma FoundStep(init: seq<JsNum>, x: JsNum, resolve: Resolve, found: seq<Location>, r: seq<Location>)
    requires NumbersAscending(init + [x]) && Faithful(resolve) && resolve(x).Ok?
    requires FromIndices(found, init) && AscendingBySeqIdx(found) && HasResolved(found, init, resolve)
    requires r == if resolve(x).value.Some? then found + [resolve(x).value.value] else found
    ensures FromIndices(r, init + [x]) && AscendingBySeqIdx(r) && HasResolved(r, init + [x], resolve)
  {
    var xs := init + [x];
    forall i | 0 <= i < |r|
      ensures r[i].seqIdx in xs
    {
      if i < |found| {
        assert r[i] == found[i];
      }
    }
    forall i, j | 0 <= i < j < |r|
      ensures r[i].seqIdx.Num? && r[j].seqIdx.Num? && r[i].seqIdx.value <= r[j].seqIdx.value
    {
      if j < |found| {
        assert r[i] == found[i] && r[j] == found[j];
      } else {
        assert r[i] == found[i];
        var k :| 0 <= k < |init| && init[k] == found[i].seqIdx;
        assert xs[k] == init[k] && xs[|init|] == x;
      }
    }
    forall k | 0 <= k < |xs| && resolve(xs[k]).Ok? && resolve(xs[k]).value.Some?
      ensures resolve(xs[k]).value.value in r
    {
      if k < |init| {
        assert xs[k] == init[k];
        assert resolve(init[k]).value.value in found;
      }
    }
  }

  /** What the query gives for a seed selection: the units of the structure it selected,
      if any. */
  type Query = (Structure, Seed, int) -> Option<seq<Unit>>

  /** Lines 116-136 for one protein: nothing when the query selected nothing, a throw when
      it selected a structure without units, otherwise the collapsed residue indices,
      sorted and resolved. */
  function ResultOf(selected: Option<seq<Unit>>, protein: Protein): (r: Outcome<seq<Location>>)
    ensures selected.None? ==> r == Ok([])
  {
    if selected.None? then Ok([])
    else if |selected.value| == 0 then Throws
    else
      var units := selected.value;
      ResolveAll(SortNumbers(RecordAll([], Visits(units, units[0].residueIndex))), Resolver(protein))
  }

  /** The locations the query returns for one protein come out ascending by residue
      index, and include each residue index of the selection that resolves. */
  lemma ResultOfMeaning(selected: Option<seq<Unit>>, protein: Protein)
    requires selected.Some? && |selected.value| > 0
    ensures var units := selected.value;
            var met := Visits(units, units[0].residueIndex);
            ResultOf(selected, protein).Ok? ==>
              var r := ResultOf(selected, protein).value;
              AscendingBySeqIdx(r) && FromIndices(r, met) && HasResolved(r, met, Resolver(protein))
  {
    var units := selected.value;
    var met := Visits(units, units[0].residueIndex);
    var recorded := RecordAll([], met);
    RecordAllMeaning([], met);
    var sorted := SortNumbers(recorded);
    ResolverFaithful(protein);
    ResolveAllFound(sorted, Resolver(protein));
    if ResultOf(selected, protein).Ok? {
      var r := ResultOf(selected, protein).value;
      forall i | 0 <= i < |r|
        ensures r[i].seqIdx in met
      {
        assert r[i].seqIdx in multiset(sorted);
        assert r[i].seqIdx in recorded;
      }
      forall k | 0 <= k < |met| && Resolver(protein)(met[k]).Ok? && Resolver(protein)(met[k]).value.Some?
        ensures Resolver(protein)(met[k]).value.value in r
      {
        assert met[k] in recorded;
        assert met[k] in multiset(sorted);
        var k' :| 0 <= k' < |sorted| && sorted[k'] == met[k];
      }
    }
  }

  /** One protein's share (lines 37-99 and 116-136): a throw when the loaded protein has no
      structure (line 40), else the result of the query on its seed structure. */
  function ProteinResult(g: Group<nat, Location>, proteins: seq<Protein>, radius: int, query: Query): Outcome<seq<Location>>
    requires g.key < |proteins|
  {
    var protein := proteins[g.key];
    if protein.molData.structure.None? then Throws
    else
      var structure := protein.molData.structure.value;
      ResultOf(query(structure, SeedOf(structure.units, g.members), radius), protein)
  }

  predicate KeysIn(groups: seq<Group<nat, Location>>, proteins: seq<Protein>)
  {
    forall p :: 0 <= p < |groups| ==> groups[p].key < |proteins|
  }

  /** What each protein's share comes to, bucket by bucket. */
  function Shares(groups: seq<Group<nat, Location>>, proteins: seq<Protein>, radius: int, query: Query): (r: seq<Outcome<seq<Location>>>)
    requires KeysIn(groups, proteins)
    ensures |r| == |groups|
  {
    seq(|groups|, p requires 0 <= p < |groups| => ProteinResult(groups[p], proteins, radius, query))
  }

  /** `flatMap` over the shares in order; the first throw ends it (line 116). */
  function ConcatShares(shares: seq<Outcome<seq<Location>>>): Outcome<seq<Location>>
  {
    if |shares| == 0 then Ok([])
    else
      match ConcatShares(shares[..|shares| - 1])
      case Throws => Throws
      case Ok(found) =>
        match shares[|shares| - 1]
        case Throws => Throws
        case Ok(more) => Ok(found + more)
  }

  /** `getSurrounding({ residues, proteins, radius })` with the spatial query given. */
  function SurroundingOf(residues: seq<Location>, proteins: seq<Protein>, radius: Option<int>, query: Query): Outcome<seq<Location>>
  {
    var groups := ProteinGroups(residues, proteins);
    ProteinGroupsLoaded(residues, proteins);
    ConcatShares(Shares(groups, proteins, radius.GetOr(DefaultRadius), query))
  }

  /** The locations of a share that did not throw. */
  function ShareOf(o: Outcome<seq<Location>>): seq<Location>
  {
    if o.Ok? then o.value else []
  }

  /** The whole fails exactly when some protein's share fails; otherwise it is every
      share's locations, protein after protein. */
  lemma {:induction false} ConcatSharesMeaning(shares: seq<Outcome<seq<Location>>>)
    ensures ConcatShares(shares).Throws? <==> exists p :: 0 <= p < |shares| && shares[p].Throws?
    ensures ConcatShares(shares).Ok? ==>
              ConcatShares(shares).value == Flatten(seq(|shares|, p requires 0 <= p < |shares| => ShareOf(shares[p])))
  {
    if |shares| > 0 {
      var init := shares[..|shares| - 1];
      ConcatSharesMeaning(init);
      if ConcatShares(init).Throws? {
        var p :| 0 <= p < |init| && init[p].Throws?;
        assert shares[p] == init[p];
      } else if shares[|shares| - 1].Ok? {
        forall p | 0 <= p < |shares|
          ensures shares[p].Ok?
        {
          if p < |init| {
            assert shares[p] == init[p];
          }
        }
        var all := seq(|shares|, p requires 0 <= p < |shares| => ShareOf(shares[p]));
        assert all[..|all| - 1] == seq(|init|, p requires 0 <= p < |init| => ShareOf(init[p]));
      }
    }
  }

  /** The radius defaults to 5. */
  lemma DefaultRadiusIsFive(residues: seq<Location>, proteins: seq<Protein>, query: Query)
    ensures SurroundingOf(residues, proteins, None, query) == SurroundingOf(residues, proteins, Some(5), query)
  {
  }

  /** Resolve, sort and collect for one protein. */
  method ProteinShare(g: Group<nat, Location>, proteins: seq<Protein>, radius: int, query: Query)
    returns (r: Outcome<seq<Location>>)
    requires g.key < |proteins|
    ensures r == ProteinResult(g, proteins, radius, query)
  {
    var protein := proteins[g.key];
    if protein.molData.structure.None? {
      return Throws;
    }
    var structure := protein.molData.structure.value;
    var seed := BuildSeed(structure.units, g.members);
    var selected := query(structure, seed, radius);
    if selected.None? {
      return Ok([]);
    }
    var units := selected.value;
    if |units| == 0 {
      return Throws;
    }
    var seqIdxs := CollectSeqIdxs(units, units[0].residueIndex);
    var sorted := SortNumbers(seqIdxs);
    r := ResolveEach(sorted, protein);
  }

  /** `seqIdxs.map(getLocationBySeqIdx).filter(t => !!t)`. */
  method ResolveEach(xs: seq<JsNum>, protein: Protein) returns (r: Outcome<seq<Location>>)
    ensures r == ResolveAll(xs, Resolver(protein))
  {
    var found: seq<Location> := [];
    for i := 0 to |xs|
      invariant ResolveAll(xs[..i], Resolver(protein)) == Ok(found)
    {
      assert xs[..i + 1][..i] == xs[..i];
      var location: Outcome<Option<Location>>;
      if xs[i].Num? {
        location := GetLocationBySeqIdx(xs[i].value, protein);
      } else {
        location := ResolveSeqIdx(xs[i], protein);
      }
      if location.Throws? {
        ThrowsStays(xs, Resolver(protein), i + 1);
        return Throws;
      }
      if location.value.Some? {
        found := found + [location.value.value];
      }
    }
    assert xs[..|xs|] == xs;
    return Ok(found);
  }

  /** Once a prefix throws, so does the whole. */
  lemma {:induction false} ThrowsStays(xs: seq<JsNum>, resolve: Resolve, n: int)
    requires 0 <= n <= |xs| && ResolveAll(xs[..n], resolve).Throws?
    ensures ResolveAll(xs, resolve).Throws?
    decreases |xs| - n
  {
    if n < |xs| {
      assert xs[..n + 1][..n] == xs[..n];
      ThrowsStays(xs, resolve, n + 1);
    } else {
      assert xs[..n] == xs;
    }
  }

  /** `getSurrounding`: group, build every seed, query and resolve. */
  method GetSurrounding(residues: seq<Location>, proteins: seq<Protein>, radius: Option<int>, query: Query)
    returns (r: Outcome<seq<Location>>)
    ensures r == SurroundingOf(residues, proteins, radius, query)
  {
    var groups := GroupItems(residues, OwnerOf(proteins));
    ProteinGroupsLoaded(residues, proteins);
    r := CollectShares(groups, proteins, radius.GetOr(DefaultRadius), query);
  }

  /** Lines 37-114: every protein's seed structure queried, then resolved. */
  method CollectShares(groups: seq<Group<nat, Location>>, proteins: seq<Protein>, radius: int, query: Query)
    returns (r: Outcome<seq<Location>>)
    requires KeysIn(groups, proteins)
    ensures r == ConcatShares(Shares(groups, proteins, radius, query))
  {
    var shares := ShareEach(groups, proteins, radius, query);
    r := ConcatEach(shares);
  }

  /** Lines 37-114, protein by protein. */
  method ShareEach(groups: seq<Group<nat, Location>>, proteins: seq<Protein>, radius: int, query: Query)
    returns (shares: seq<Outcome<seq<Location>>>)
    requires KeysIn(groups, proteins)
    ensures shares == Shares(groups, proteins, radius, query)
  {
    ghost var all := Shares(groups, proteins, radius, query);
    shares := [];
    for p := 0 to |groups|
      invariant shares == all[..p]
    {
      var share := ShareAt(groups, p, proteins, radius, query);
      SliceNext(all, p);
      shares := shares + [share];
    }
    assert all[..|groups|] == all;
  }

  /** The share of the protein of bucket `p`. */
  method ShareAt(groups: seq<Group<nat, Location>>, p: int, proteins: seq<Protein>, radius: int, query: Query)
    returns (share: Outcome<seq<Location>>)
    requires KeysIn(groups, proteins) && 0 <= p < |groups|
    ensures share == Shares(groups, proteins, radius, query)[p]
  {
    share := ProteinShare(groups[p], proteins, radius, query);
  }

  /** Lines 116-136: the shares one after another, stopping at the first throw. */
  method ConcatEach(shares: seq<Outcome<seq<Location>>>) returns (r: Outcome<seq<Location>>)
    ensures r == ConcatShares(shares)
  {
    var found: seq<Location> := [];
    for p := 0 to |shares|
      invariant ConcatShares(shares[..p]) == Ok(found)
    {
      assert shares[..p + 1][..p] == shares[..p];
      if shares[p].Throws? {
        ThrowStays(shares, p + 1);
        return Throws;
      }
      found := found + shares[p].value;
    }
    assert shares[..|shares|] == shares;
    return Ok(found);
  }

  /** Once a prefix of the shares throws, so does the whole. */
  lemma {:induction false} ThrowStays(shares: seq<Outcome<seq<Location>>>, n: int)
    requires 0 <= n <= |shares| && ConcatShares(shares[..n]).Throws?
    ensures ConcatShares(shares).Throws?
    decreases |shares| - n
  {
    if n < |shares| {
      assert shares[..n + 1][..n] == shares[..n];
      ThrowStays(shares, n + 1);
    } else {
      assert shares[..n] == shares;
    }
  }
}
