/** Resolving residue locations (`getLocation.ts`): from a chain and author sequence
    number, from an atom index, from the statistics of a loci and from a residue index;
    and the order-insensitive comparison of two location lists. */
module GetLocation {
  import opened Common
  import opened StructureModel
  import opened GetLoci

  /** A result, or the TypeError the code raises when it dereferences a missing object. */
  datatype Outcome<T> = Ok(value: T) | Throws

  // ------------------------------------------------------------ shared parts

  /** The `atom_site` columns read inside the `try` blocks: all empty when the protein has
      no structure (the read throws and the error is swallowed). */
  function Columns(md: MolData): (r: AtomSite)
    ensures md.structure.Some? ==> r == md.structure.value.atoms
    ensures md.structure.None? ==> |r.authAsymId| == 0 && |r.authSeqId| == 0 && |r.id| == 0
  {
    if md.structure.Some? then md.structure.value.atoms
    else AtomSite([], [], [], [], [], [], [], [], [], [], [], [], [], [])
  }

  /** `wrapper?.wrapper?.asymId || asmIdArray[atomIndex]`: the wrapper's chain id when it
      is a sequence with a non-empty one, else the author chain id of the atom. */
  function ChainName(wrapper: Option<Wrapper>, asym: seq<string>, atomIndex: JsNum): (r: Option<string>)
    ensures wrapper.Some? && wrapper.value.body.Sequence? && wrapper.value.body.asymId != "" ==>
              r == Some(wrapper.value.body.asymId)
    ensures wrapper.None? || wrapper.value.body.Message? || wrapper.value.body.asymId == "" ==>
              r == TextAt(asym, atomIndex)
  {
    OrElse(if wrapper.Some? then WrapperAsymId(wrapper.value) else None, TextAt(asym, atomIndex))
  }

  /** `compIdList[atomIndex] || compIdList2[atomIndex]`: the author residue name, falling
      back to the label residue name when the former is missing or empty. */
  function Molecule(atoms: AtomSite, atomIndex: JsNum): (r: Option<string>)
    ensures TextAt(atoms.authCompId, atomIndex).Some? && TextAt(atoms.authCompId, atomIndex).value != "" ==>
              r == TextAt(atoms.authCompId, atomIndex)
    ensures TextAt(atoms.authCompId, atomIndex).None? || TextAt(atoms.authCompId, atomIndex).value == "" ==>
              r == TextAt(atoms.labelCompId, atomIndex)
  {
    OrElse(TextAt(atoms.authCompId, atomIndex), TextAt(atoms.labelCompId, atomIndex))
  }

  /** `array[0]`, `undefined` for an empty array. */
  function Head(s: seq<JsNum>): (r: JsNum)
  {
    if |s| > 0 then s[0] else Undefined
  }

  // ----------------------------------------------------------- residue runs

  /** The indices `from, from + 1, ...` while the residue index there equals `seqIdx`
      (strictly: `NaN` matches nothing, a missing entry matches `undefined`). */
  function Run(residueIndex: seq<int>, from: int, seqIdx: JsNum): seq<JsNum>
    decreases |residueIndex| - from
  {
    if from < |residueIndex| && StrictEq(At(residueIndex, Num(from)), seqIdx)
    then [Num(from)] + Run(residueIndex, from + 1, seqIdx)
    else []
  }

  /** `e` is the maximal stretch of consecutive indices from `from` whose residue index
      equals `seqIdx`, within the column. */
  predicate MaximalRun(e: seq<JsNum>, residueIndex: seq<int>, from: int, seqIdx: JsNum)
  {
    (|e| == 0 || from + |e| <= |residueIndex|) &&
    (forall k :: 0 <= k < |e| ==> e[k] == Num(from + k) && StrictEq(At(residueIndex, Num(from + k)), seqIdx)) &&
    (from + |e| < |residueIndex| ==> !StrictEq(At(residueIndex, Num(from + |e|)), seqIdx))
  }

  lemma {:induction false} RunMeaning(residueIndex: seq<int>, from: int, seqIdx: JsNum)
    ensures MaximalRun(Run(residueIndex, from, seqIdx), residueIndex, from, seqIdx)
    decreases |residueIndex| - from
  {
    if from < |residueIndex| && StrictEq(At(residueIndex, Num(from)), seqIdx) {
      var rest := Run(residueIndex, from + 1, seqIdx);
      RunMeaning(residueIndex, from + 1, seqIdx);
      var r := [Num(from)] + rest;
      forall k | 1 <= k < |r|
        ensures r[k] == Num(from + k) && StrictEq(At(residueIndex, Num(from + k)), seqIdx)
      {
        assert r[k] == rest[k - 1];
      }
    }
  }

  /** The loop of lines 162-169 and 307-314. */
  method ResidueRun(residueIndex: seq<int>, from: int, seqIdx: JsNum) returns (elements: seq<JsNum>)
    ensures elements == Run(residueIndex, from, seqIdx)
  {
    elements := [];
    var i := from;
    while i < |residueIndex|
      invariant from <= i
      invariant Run(residueIndex, from, seqIdx) == elements + Run(residueIndex, i, seqIdx)
      decreases |residueIndex| - i
    {
      if StrictEq(At(residueIndex, Num(i)), seqIdx) {
        AppendAssoc(elements, [Num(i)], Run(residueIndex, i + 1, seqIdx));
        elements := elements + [Num(i)];
        i := i + 1;
      } else {
        break;
      }
    }
    assert Run(residueIndex, i, seqIdx) == [];
  }

  // ------------------------------------------------- getLocationByChainIndex

  /** Whether atom `i` has author chain `chain` (compared as given, so a missing chain only
      matches a missing entry) and author sequence number `index`. */
  predicate AtomMatches(atoms: AtomSite, chain: Option<string>, index: JsNum, i: int)
  {
    Lookup(atoms.authAsymId, i) == chain && StrictEq(At(atoms.authSeqId, Num(i)), index)
  }

  function MatchAt(atoms: AtomSite, chain: Option<string>, index: JsNum): nat -> bool
  {
    (i: nat) => AtomMatches(atoms, chain, index, i)
  }

  /** `eleStart`: the first matching position of `auth_seq_id`, or -1. */
  function FirstMatch(atoms: AtomSite, chain: Option<string>, index: JsNum): int
  {
    FirstIndex(|atoms.authSeqId|, MatchAt(atoms, chain, index))
  }

  /** `eleEnd`: the last matching position of `auth_seq_id`, or -1. */
  function LastMatch(atoms: AtomSite, chain: Option<string>, index: JsNum): int
  {
    LastIndex(|atoms.authSeqId|, MatchAt(atoms, chain, index))
  }

  /** Both ends are -1, or the first match is at or before the last. */
  lemma MatchBounds(atoms: AtomSite, chain: Option<string>, index: JsNum)
    ensures var lo, hi := FirstMatch(atoms, chain, index), LastMatch(atoms, chain, index);
            (lo == -1 <==> hi == -1) && lo <= hi
  {
    var lo, hi := FirstMatch(atoms, chain, index), LastMatch(atoms, chain, index);
    if lo >= 0 {
      assert MatchAt(atoms, chain, index)(lo);
    }
    if hi >= 0 {
      assert MatchAt(atoms, chain, index)(hi);
    }
  }

  function IdAt(ids: seq<int>, lo: int): nat -> JsNum
  {
    (k: nat) => At(ids, Num(lo + k))
  }

  /** The serial ids `ids[lo..hi]` inclusive, `undefined` at a position out of range. */
  function IdsBetween(ids: seq<int>, lo: int, hi: int): (r: seq<JsNum>)
    ensures |r| == if lo <= hi then hi - lo + 1 else 0
  {
    Tabulate(if lo <= hi then hi - lo + 1 else 0, IdAt(ids, lo))
  }

  lemma IdsBetweenAt(ids: seq<int>, lo: int, hi: int, k: nat)
    requires lo + k <= hi
    ensures IdsBetween(ids, lo, hi)[k] == At(ids, Num(lo + k))
  {
    TabulateAt(hi - lo + 1, IdAt(ids, lo), k);
  }

  /** The loop of lines 55-57. */
  method CollectIds(ids: seq<int>, lo: int, hi: int) returns (elements: seq<JsNum>)
    ensures elements == IdsBetween(ids, lo, hi)
  {
    elements := [];
    var i := lo;
    while i <= hi
      invariant lo <= i <= Max(lo, hi + 1)
      invariant elements == Tabulate(i - lo, IdAt(ids, lo))
    {
      elements := elements + [At(ids, Num(i))];
      i := i + 1;
    }
  }

  /** Whether atom `a` lies between the first and last element of unit `u`. */
  predicate Covers(u: Unit, a: JsNum)
  {
    |u.elements| > 0 && a.Num? && u.elements[0] <= a.value <= u.elements[|u.elements| - 1]
  }

  /** The chain group of the first unit whose element range contains `atomIndex`. */
  function ChainGroupOf(units: seq<Unit>, atomIndex: JsNum): (r: Option<int>)
    ensures r.None? <==> forall k :: 0 <= k < |units| ==> !Covers(units[k], atomIndex)
    ensures r.Some? ==>
              exists k :: 0 <= k < |units| && Covers(units[k], atomIndex) && r.value == units[k].chainGroupId &&
                forall j :: 0 <= j < k ==> !Covers(units[j], atomIndex)
  {
    var k := FirstWhere(units, (u: Unit) => Covers(u, atomIndex));
    if k == -1 then None else Some(units[k].chainGroupId)
  }

  /** The loop of lines 65-75, leaving at the first unit that covers the atom. */
  method FindChainGroup(units: seq<Unit>, atomIndex: JsNum) returns (chainGroupId: Option<int>)
    ensures chainGroupId == ChainGroupOf(units, atomIndex)
  {
    chainGroupId := None;
    var i := 0;
    while i < |units|
      invariant 0 <= i <= |units|
      invariant forall j :: 0 <= j < i ==> !Covers(units[j], atomIndex)
    {
      var unit := units[i];
      if |unit.elements| > 0 && atomIndex.Num? &&
         unit.elements[0] <= atomIndex.value <= unit.elements[|unit.elements| - 1] {
        chainGroupId := Some(unit.chainGroupId);
        return;
      }
      i := i + 1;
    }
  }

  /** The wrapper of a chain group (`wrappers.find(w => w.chainGroupId === chainGroupId)`). */
  function WrapperOfGroup(wrappers: seq<Wrapper>, chainGroupId: int): (r: Option<Wrapper>)
    ensures r.Some? ==> r.value in wrappers && r.value.chainGroupId == chainGroupId
    ensures r.None? <==> forall j :: 0 <= j < |wrappers| ==> wrappers[j].chainGroupId != chainGroupId
  {
    Find(wrappers, (w: Wrapper) => w.chainGroupId == chainGroupId)
  }

  /** Lines 59-101 once the elements and the chain group are known. The atom index is the
      first element minus one; the residue index is `index` minus the author sequence
      number of the first atom of `chain` (default `A`); the loci comes from the chain
      group's wrapper when the residue index is not -1, and a missing wrapper there throws. */
  function ChainLocation(md: MolData, chain: Option<string>, index: JsNum, elements: seq<JsNum>,
                         chainGroupId: Option<int>): (r: Outcome<Option<Location>>)
    ensures r.Ok? ==>
              r.value.Some? &&
              var loc := r.value.value;
              loc.elements == elements && loc.atomIndex == Minus(Head(elements), Num(1)) &&
              loc.chainIndex == index && loc.structureKey == md.structureKey && loc.chainGroupId == chainGroupId &&
              (loc.loci.Some? ==> !StrictEq(loc.seqIdx, Num(-1)) && loc.wrapperKey.Some? && chainGroupId.Some?)
  {
    var atoms := Columns(md);
    var atomIndex := Minus(Head(elements), Num(1));
    var start := IndexOf(atoms.authAsymId, DefaultChain(chain));
    var seqIdx := Minus(index, At(atoms.authSeqId, Num(start)));
    var looked := chainGroupId.Some? && md.wrappers.Some?;
    var wrapper := if looked then WrapperOfGroup(md.wrappers.value, chainGroupId.value) else None;
    var fetch := looked && (wrapper.None? || wrapper.value.body.Sequence?) &&
                 !StrictEq(seqIdx, Num(-1)) && !seqIdx.Undefined?;
    if fetch && wrapper.None? then Throws
    else
      Ok(Some(Location(
        loci := if fetch then Some(WrapperLoci(wrapper.value.key, seqIdx)) else None,
        chainType := if wrapper.Some? then Some(wrapper.value.chainType) else None,
        chainName := ChainName(wrapper, atoms.authAsymId, atomIndex),
        structureKey := md.structureKey,
        wrapperKey := if wrapper.Some? then Some(wrapper.value.key) else None,
        chainGroupId := chainGroupId,
        atomIndex := atomIndex,
        elements := elements,
        seqIdx := seqIdx,
        chainIndex := index,
        molecule := Molecule(atoms, atomIndex))))
  }

  /** `getLocationByChainIndex`, with the chain its element scan compares against given as
      `scan`: nothing unless the protein is loaded; the elements are the serial ids of the
      atoms from the first to the last match of (`scan`, `index`), and the chain group is
      that of the first unit covering the atom. */
  function LocationByChainIndexScan(protein: Protein, chain: Option<string>, index: JsNum, scan: Option<string>)
    : (r: Outcome<Option<Location>>)
    ensures protein.status != Loaded ==> r == Ok(None)
    ensures protein.status == Loaded ==> r.Throws? || (r.Ok? && r.value.Some?)
  {
    if protein.status != Loaded then Ok(None)
    else
      var md := protein.molData;
      var atoms := Columns(md);
      var elements := IdsBetween(atoms.id, FirstMatch(atoms, scan, index), LastMatch(atoms, scan, index));
      var chainGroupId :=
        if md.structure.Some? then ChainGroupOf(md.structure.value.units, Minus(Head(elements), Num(1))) else None;
      ChainLocation(md, chain, index, elements, chainGroupId)
  }

  /** The code as written: the element scan compares with `chainIndexInfo.chain`, not with
      the defaulted `chain`. */
  function LocationByChainIndexAsWritten(protein: Protein, chain: Option<string>, index: JsNum)
    : (r: Outcome<Option<Location>>)
    ensures r == LocationByChainIndexScan(protein, chain, index, chain)
  {
    LocationByChainIndexScan(protein, chain, index, chain)
  }

  /** `getLocationByChainIndex` with the element scan on the defaulted chain, as the rest of
      the function (its `chainStartIndex`) reads it. */
  function LocationByChainIndex(protein: Protein, chain: Option<string>, index: JsNum)
    : (r: Outcome<Option<Location>>)
    ensures r == LocationByChainIndexScan(protein, chain, index, Some(DefaultChain(chain)))
  {
    LocationByChainIndexScan(protein, chain, index, Some(DefaultChain(chain)))
  }

  /** `getLocationByChainIndex` with its two loops, its element scan comparing with the
      chain as given. */
  method GetLocationByChainIndex(protein: Protein, chain: Option<string>, index: JsNum)
    returns (r: Outcome<Option<Location>>)
    ensures r == LocationByChainIndexAsWritten(protein, chain, index)
  {
    if protein.status != Loaded {
      return Ok(None);
    }
    var md := protein.molData;
    var atoms := Columns(md);
    var scan := chain;
    var elements := CollectIds(atoms.id, FirstMatch(atoms, scan, index), LastMatch(atoms, scan, index));
    var chainGroupId := None;
    if md.structure.Some? {
      chainGroupId := FindChainGroup(md.structure.value.units, Minus(Head(elements), Num(1)));
    }
    r := ChainLocation(md, chain, index, elements, chainGroupId);
  }

  /** For a loaded protein with a structure, every atom of the (defaulted) chain with author
      sequence number `index` lies between the first and the last such atom; the elements
      are the serial ids of the atoms between them, in order, and the atom index is the
      first serial id minus one. */
  lemma ByChainIndexElements(protein: Protein, chain: Option<string>, index: JsNum, i: int)
    requires protein.status == Loaded && protein.molData.structure.Some?
    requires protein.molData.structure.value.atoms.Valid()
    requires var atoms := protein.molData.structure.value.atoms;
             0 <= i < atoms.Count() && atoms.authAsymId[i] == DefaultChain(chain) &&
             StrictEq(Num(atoms.authSeqId[i]), index)
    ensures var atoms := protein.molData.structure.value.atoms;
            var scan := Some(DefaultChain(chain));
            var lo, hi := FirstMatch(atoms, scan, index), LastMatch(atoms, scan, index);
            var r := LocationByChainIndex(protein, chain, index);
            0 <= lo <= i <= hi < atoms.Count() &&
            (r.Ok? ==>
              |r.value.value.elements| == hi - lo + 1 &&
              (forall k :: 0 <= k <= hi - lo ==> r.value.value.elements[k] == Num(atoms.id[lo + k])) &&
              r.value.value.atomIndex == Num(atoms.id[lo] - 1))
  {
    var atoms := protein.molData.structure.value.atoms;
    var scan := Some(DefaultChain(chain));
    ScanElements(atoms, scan, index, i);
    assert Columns(protein.molData) == atoms;
  }

  /** The scan's first and last match enclose every match, and the ids between them are
      the elements. */
  lemma ScanElements(atoms: AtomSite, scan: Option<string>, index: JsNum, i: int)
    requires atoms.Valid() && 0 <= i < atoms.Count() && Some(atoms.authAsymId[i]) == scan &&
             StrictEq(Num(atoms.authSeqId[i]), index)
    ensures var lo, hi := FirstMatch(atoms, scan, index), LastMatch(atoms, scan, index);
            var elements := IdsBetween(atoms.id, lo, hi);
            0 <= lo <= i <= hi < atoms.Count() &&
            |elements| == hi - lo + 1 &&
            (forall k :: 0 <= k <= hi - lo ==> elements[k] == Num(atoms.id[lo + k])) &&
            Minus(Head(elements), Num(1)) == Num(atoms.id[lo] - 1)
  {
    var lo, hi := FirstMatch(atoms, scan, index), LastMatch(atoms, scan, index);
    assert MatchAt(atoms, scan, index)(i);
    MatchBounds(atoms, scan, index);
    var elements := IdsBetween(atoms.id, lo, hi);
    forall k | 0 <= k <= hi - lo
      ensures elements[k] == Num(atoms.id[lo + k])
    {
      IdsBetweenAt(atoms.id, lo, hi, k);
    }
    assert Head(elements) == elements[0];
  }

  /** The residue index is the requested number minus the author sequence number of the
      first atom of the (defaulted) chain. */
  lemma ByChainIndexSeqIdx(protein: Protein, chain: Option<string>, index: int)
    requires protein.status == Loaded && protein.molData.structure.Some?
    requires protein.molData.structure.value.atoms.Valid()
    requires DefaultChain(chain) in protein.molData.structure.value.atoms.authAsymId
    ensures var atoms := protein.molData.structure.value.atoms;
            var r := LocationByChainIndex(protein, chain, Num(index));
            r.Ok? ==>
              r.value.value.seqIdx == Num(index - atoms.authSeqId[IndexOf(atoms.authAsymId, DefaultChain(chain))])
  {
  }

  /** Without a chain, the code as written finds no atom even when chain `A` has one: the
      elements are `[undefined]` and the atom index `NaN`, while the scan on the defaulted
      chain finds the atom. */
  lemma ChainOmittedAsWritten()
    ensures var p := OneAtomProtein();
            LocationByChainIndexAsWritten(p, None, Num(7)).value.value.elements == [Undefined] &&
            LocationByChainIndexAsWritten(p, None, Num(7)).value.value.atomIndex == NaN &&
            LocationByChainIndex(p, None, Num(7)).value.value.elements == [Num(1)] &&
            LocationByChainIndex(p, None, Num(7)).value.value.atomIndex == Num(0)
  {
    var p := OneAtomProtein();
    var atoms := p.molData.structure.value.atoms;
    assert !MatchAt(atoms, None, Num(7))(0);
    assert FirstMatch(atoms, None, Num(7)) == -1;
    assert MatchAt(atoms, Some("A"), Num(7))(0);
    assert FirstMatch(atoms, Some("A"), Num(7)) == 0;
    assert LastMatch(atoms, Some("A"), Num(7)) == 0;
    IdsBetweenAt(atoms.id, -1, -1, 0);
    IdsBetweenAt(atoms.id, 0, 0, 0);
  }

  /** For any loaded protein, the code as written never finds an atom when no chain is
      given, since no `auth_asym_id` entry is `undefined`: the elements are `[undefined]`
      and the atom index `NaN`. */
  lemma {:induction false} AsWrittenWithoutChain(protein: Protein, index: JsNum)
    requires protein.status == Loaded && Columns(protein.molData).Valid()
    ensures var r := LocationByChainIndexAsWritten(protein, None, index);
            r.Ok? ==> r.value.value.elements == [Undefined] && r.value.value.atomIndex == NaN
  {
    var atoms := Columns(protein.molData);
    MatchBounds(atoms, None, index);
    if FirstMatch(atoms, None, index) != -1 {
      NoMatchWithoutChain(atoms, index, FirstMatch(atoms, None, index));
      assert false;
    }
    IdsBetweenAt(atoms.id, -1, -1, 0);
  }

  /** No atom of well-formed columns matches a missing chain. */
  lemma NoMatchWithoutChain(atoms: AtomSite, index: JsNum, i: nat)
    requires atoms.Valid() && i < |atoms.authSeqId|
    ensures !MatchAt(atoms, None, index)(i)
  {
  }

  /** With a non-empty chain the code as written and the defaulted scan agree. */
  lemma AsWrittenWithChain(protein: Protein, chain: string, index: JsNum)
    requires chain != ""
    ensures LocationByChainIndexAsWritten(protein, Some(chain), index) == LocationByChainIndex(protein, Some(chain), index)
  {
  }

  /** A loaded protein whose structure is one atom (serial 1) of chain `A` at author
      sequence number 7, in one unit, without wrappers. */
  function OneAtomProtein(): (p: Protein)
    ensures p.status == Loaded && p.molData.structure.Some?
    ensures p.molData.structure.value.atoms.authAsymId == ["A"]
    ensures p.molData.structure.value.atoms.authSeqId == [7]
    ensures p.molData.structure.value.atoms.id == [1]
  {
    var atoms := AtomSite(["ATOM"], [1], ["CA"], ["."], ["GLY"], ["GLY"], ["A"], [7],
                          ["0.000"], ["0.000"], ["0.000"], ["1.00"], ["0.00"], ["C"]);
    var unit := Unit(0, [0], [0], [0]);
    var s := Structure("1abc", "0", [unit], atoms, [], [], [], []);
    Protein("1abc", "1abc", "1abc.cif", "cif", Loaded,
            MolData(Some("1abc"), Some(s), None, Some("1abc"), Some("0")))
  }

  // -------------------------------------------------- getLocationByAtomIndex

  /** `getLocationByAtomIndex`. Nothing when no loaded protein has the structure's model id,
      when that protein has no wrappers or none of the unit's chain group. Otherwise the
      residue index is the atom's when the atom is in the unit (else `undefined`), the
      elements are the residue run from the atom, and a loci is fetched from the wrapper
      when none was given and the wrapper is a sequence. */
  function LocationByAtomIndex(atomIndex: int, structure: Structure, unit: Unit, proteins: seq<Protein>,
                               loci: Option<Loci>): (r: Option<Location>)
    ensures r.Some? ==> r.value.chainGroupId == Some(unit.chainGroupId) && r.value.atomIndex == Num(atomIndex)
  {
    var protein := Find(proteins, (p: Protein) => p.status == Loaded && p.molData.modelId == Some(structure.modelId));
    if protein.None? || protein.value.molData.wrappers.None? then None
    else
      var md := protein.value.molData;
      var wrapper := WrapperOfGroup(md.wrappers.value, unit.chainGroupId);
      if wrapper.None? then None
      else
        var w := wrapper.value;
        var atoms := structure.atoms;
        var seqIdx := if IndexOf(unit.elements, atomIndex) != -1 then At(unit.residueIndex, Num(atomIndex)) else Undefined;
        Some(Location(
          loci := if loci.None? && w.body.Sequence? then Some(WrapperLoci(w.key, seqIdx)) else loci,
          chainType := Some(w.chainType),
          chainName := ChainName(wrapper, atoms.authAsymId, Num(atomIndex)),
          structureKey := md.structureKey,
          wrapperKey := Some(w.key),
          chainGroupId := Some(unit.chainGroupId),
          atomIndex := Num(atomIndex),
          elements := Run(unit.residueIndex, atomIndex, seqIdx),
          seqIdx := seqIdx,
          chainIndex := At(atoms.authSeqId, Num(atomIndex)),
          molecule := Molecule(atoms, Num(atomIndex))))
  }

  /** The protein lookups of `getLocationByAtomIndex`: a location exactly when some loaded
      protein has the model id, the first such has wrappers, and one of them has the unit's
      chain group. */
  lemma ByAtomIndexFound(atomIndex: int, structure: Structure, unit: Unit, proteins: seq<Protein>, loci: Option<Loci>)
    ensures LocationByAtomIndex(atomIndex, structure, unit, proteins, loci).Some? <==>
              exists j :: 0 <= j < |proteins| && proteins[j].status == Loaded &&
                proteins[j].molData.modelId == Some(structure.modelId) &&
                (forall i :: 0 <= i < j ==> !(proteins[i].status == Loaded && proteins[i].molData.modelId == Some(structure.modelId))) &&
                proteins[j].molData.wrappers.Some? &&
                exists w :: w in proteins[j].molData.wrappers.value && w.chainGroupId == unit.chainGroupId
  {
    var pick := (p: Protein) => p.status == Loaded && p.molData.modelId == Some(structure.modelId);
    var protein := Find(proteins, pick);
    if protein.Some? {
      var md := protein.value.molData;
      if md.wrappers.Some? {
        var found := WrapperOfGroup(md.wrappers.value, unit.chainGroupId);
        if found.None? {
          forall w | w in md.wrappers.value
            ensures w.chainGroupId != unit.chainGroupId
          {
            var k :| 0 <= k < |md.wrappers.value| && md.wrappers.value[k] == w;
          }
        }
      }
    }
  }

  /** For an atom of the unit, the elements are the maximal run of atoms from it that share
      its residue index, and the run starts with the atom itself. */
  lemma ByAtomIndexRun(atomIndex: int, structure: Structure, unit: Unit, proteins: seq<Protein>, loci: Option<Loci>)
    requires atomIndex in unit.elements && 0 <= atomIndex < |unit.residueIndex|
    ensures var r := LocationByAtomIndex(atomIndex, structure, unit, proteins, loci);
            r.Some? ==>
              r.value.seqIdx == Num(unit.residueIndex[atomIndex]) &&
              |r.value.elements| >= 1 && r.value.elements[0] == Num(atomIndex) &&
              MaximalRun(r.value.elements, unit.residueIndex, atomIndex, r.value.seqIdx)
  {
    var seqIdx := Num(unit.residueIndex[atomIndex]);
    var r := LocationByAtomIndex(atomIndex, structure, unit, proteins, loci);
    if r.Some? {
      assert IndexOf(unit.elements, atomIndex) != -1;
      assert r.value.elements == Run(unit.residueIndex, atomIndex, seqIdx);
      RunMeaning(unit.residueIndex, atomIndex, seqIdx);
    }
  }

  /** `getLocationByAtomIndex` with its loop. */
  method GetLocationByAtomIndex(atomIndex: int, structure: Structure, unit: Unit, proteins: seq<Protein>,
                                loci: Option<Loci>) returns (r: Option<Location>)
    ensures r == LocationByAtomIndex(atomIndex, structure, unit, proteins, loci)
  {
    var protein := Find(proteins, (p: Protein) => p.status == Loaded && p.molData.modelId == Some(structure.modelId));
    if protein.None? {
      return None;
    }
    var md := protein.value.molData;
    if md.wrappers.None? {
      return None;
    }
    var wrapper := WrapperOfGroup(md.wrappers.value, unit.chainGroupId);
    if wrapper.None? {
      return None;
    }
    var w := wrapper.value;
    var atoms := structure.atoms;
    var seqIdx := if IndexOf(unit.elements, atomIndex) != -1 then At(unit.residueIndex, Num(atomIndex)) else Undefined;
    var elements := ResidueRun(unit.residueIndex, atomIndex, seqIdx);
    var found := loci;
    if found.None? && w.body.Sequence? {
      found := Some(WrapperLoci(w.key, seqIdx));
    }
    r := Some(Location(
      loci := found,
      chainType := Some(w.chainType),
      chainName := ChainName(wrapper, atoms.authAsymId, Num(atomIndex)),
      structureKey := md.structureKey,
      wrapperKey := Some(w.key),
      chainGroupId := Some(unit.chainGroupId),
      atomIndex := Num(atomIndex),
      elements := elements,
      seqIdx := seqIdx,
      chainIndex := At(atoms.authSeqId, Num(atomIndex)),
      molecule := Molecule(atoms, Num(atomIndex))));
  }

  // ---------------------------------------------------- getLocationBySeqIdx

  /** `getLocationBySeqIdx`. Nothing unless the protein is loaded; a structure without units
      throws. The atom is the first with residue index `seqIdx` in the first unit's residue
      index column; nothing when there is none, when no unit contains that atom, or when no
      wrapper has that unit's chain group. A message wrapper throws at `getLoci`. */
  function LocationBySeqIdx(seqIdx: int, protein: Protein): (r: Outcome<Option<Location>>)
    ensures protein.status != Loaded ==> r == Ok(None)
    ensures r.Ok? && r.value.Some? ==>
              r.value.value.seqIdx == Num(seqIdx) && r.value.value.loci.Some? && r.value.value.chainGroupId.Some?
  {
    if protein.status != Loaded then Ok(None)
    else
      var md := protein.molData;
      if md.structure.None? || |md.structure.value.units| == 0 then Throws
      else
        var s := md.structure.value;
        var residueIndex := s.units[0].residueIndex;
        var atomIndex := IndexOf(residueIndex, seqIdx);
        if atomIndex == -1 then Ok(None)
        else
          var target := Find(s.units, (u: Unit) => atomIndex in u.elements);
          if target.None? then Ok(None)
          else
            var wrapper := if md.wrappers.Some? then WrapperOfGroup(md.wrappers.value, target.value.chainGroupId) else None;
            if wrapper.None? then Ok(None)
            else if wrapper.value.body.Message? then Throws
            else
              Ok(Some(Location(
                loci := Some(WrapperLoci(wrapper.value.key, Num(seqIdx))),
                chainType := Some(wrapper.value.chainType),
                chainName := ChainName(wrapper, s.atoms.authAsymId, Num(atomIndex)),
                structureKey := md.structureKey,
                wrapperKey := Some(wrapper.value.key),
                chainGroupId := Some(target.value.chainGroupId),
                atomIndex := Num(atomIndex),
                elements := Run(residueIndex, atomIndex, Num(seqIdx)),
                seqIdx := Num(seqIdx),
                chainIndex := At(s.atoms.authSeqId, Num(atomIndex)),
                molecule := Molecule(s.atoms, Num(atomIndex)))))
  }

  /** For a loaded protein as the loader leaves it: the lookup throws only on a message
      wrapper; otherwise the atom is the first occurrence of `seqIdx` in the first unit's
      residue index column and the elements are the maximal run of that residue from it. */
  lemma BySeqIdxResult(seqIdx: int, protein: Protein)
    requires protein.status == Loaded && LoadedValid(protein)
    ensures var r := LocationBySeqIdx(seqIdx, protein);
            var units := protein.molData.structure.value.units;
            (r.Throws? ==> exists w :: w in protein.molData.wrappers.value && w.body.Message?) &&
            (seqIdx !in units[0].residueIndex ==> r == Ok(None)) &&
            (r.Ok? && r.value.Some? ==>
              var ai := IndexOf(units[0].residueIndex, seqIdx);
              r.value.value.atomIndex == Num(ai) &&
              |r.value.value.elements| >= 1 && r.value.value.elements[0] == Num(ai) &&
              MaximalRun(r.value.value.elements, units[0].residueIndex, ai, Num(seqIdx)))
  {
    var r := LocationBySeqIdx(seqIdx, protein);
    var residueIndex := protein.molData.structure.value.units[0].residueIndex;
    var ai := IndexOf(residueIndex, seqIdx);
    if ai != -1 {
      RunMeaning(residueIndex, ai, Num(seqIdx));
    }
  }

  /** `getLocationBySeqIdx` with its loop. */
  method GetLocationBySeqIdx(seqIdx: int, protein: Protein) returns (r: Outcome<Option<Location>>)
    ensures r == LocationBySeqIdx(seqIdx, protein)
  {
    if protein.status != Loaded {
      return Ok(None);
    }
    var md := protein.molData;
    if md.structure.None? || |md.structure.value.units| == 0 {
      return Throws;
    }
    var s := md.structure.value;
    var residueIndex := s.units[0].residueIndex;
    var atomIndex := IndexOf(residueIndex, seqIdx);
    if atomIndex == -1 {
      return Ok(None);
    }
    var target := Find(s.units, (u: Unit) => atomIndex in u.elements);
    if target.None? {
      return Ok(None);
    }
    var wrapper := None;
    if md.wrappers.Some? {
      wrapper := WrapperOfGroup(md.wrappers.value, target.value.chainGroupId);
    }
    if wrapper.None? {
      return Ok(None);
    }
    var elements := ResidueRun(residueIndex, atomIndex, Num(seqIdx));
    if wrapper.value.body.Message? {
      return Throws;
    }
    r := Ok(Some(Location(
      loci := Some(WrapperLoci(wrapper.value.key, Num(seqIdx))),
      chainType := Some(wrapper.value.chainType),
      chainName := ChainName(wrapper, s.atoms.authAsymId, Num(atomIndex)),
      structureKey := md.structureKey,
      wrapperKey := Some(wrapper.value.key),
      chainGroupId := Some(target.value.chainGroupId),
      atomIndex := Num(atomIndex),
      elements := elements,
      seqIdx := Num(seqIdx),
      chainIndex := At(s.atoms.authSeqId, Num(atomIndex)),
      molecule := Molecule(s.atoms, Num(atomIndex)))));
  }

  // ----------------------------------------------------- getLocationByStats

  /** A structure-element location held by the statistics of a loci: its structure and
      unit are unset until the statistics fill them. */
  datatype ElementLoc = ElementLoc(structure: Option<Structure>, unit: Option<Unit>, element: int)

  /** The parts of a loci's statistics (`Stats`) that the resolver reads: the counts, the
      first element, chain, unit and structure locations, and the unit locations. */
  datatype Stats = Stats(
    chainCount: int,
    structureCount: int,
    unitCount: int,
    residueCount: int,
    firstElementLoc: ElementLoc,
    firstChainLoc: ElementLoc,
    firstUnitLoc: ElementLoc,
    firstStructureLoc: ElementLoc,
    unitLocs: seq<ElementLoc>)

  /** `a || b` on two possibly unset objects. */
  function Either<T>(a: Option<T>, b: Option<T>): (r: Option<T>)
    ensures r.Some? <==> a.Some? || b.Some?
    ensures a.Some? ==> r == a
  {
    if a.Some? then a else b
  }

  /** Whether some protein is loaded. */
  predicate SomeLoaded(proteins: seq<Protein>)
  {
    exists j :: 0 <= j < |proteins| && proteins[j].status == Loaded
  }

  /** `getLocationByAtomIndex` on a structure and a unit that may be unset: reading the
      unset unit's chain group throws, and so does reading the unset structure's model id
      as soon as the protein search reaches a loaded protein; with no loaded protein an
      unset structure gives nothing. */
  function AtomIndexLocation(atomIndex: int, structure: Option<Structure>, unit: Option<Unit>,
                             proteins: seq<Protein>, loci: Option<Loci>): (r: Outcome<Option<Location>>)
    ensures r.Throws? <==> unit.None? || (structure.None? && SomeLoaded(proteins))
    ensures r.Ok? && structure.None? ==> r.value.None?
    ensures r.Ok? && structure.Some? ==> r.value == LocationByAtomIndex(atomIndex, structure.value, unit.value, proteins, loci)
  {
    if unit.None? then Throws
    else if structure.None? then
      if SomeLoaded(proteins) then Throws else Ok(None)
    else Ok(LocationByAtomIndex(atomIndex, structure.value, unit.value, proteins, loci))
  }

  /** Whether `elements[k]` opens a residue run: its residue index differs from that of the
      element before it (from -1 for the first element). */
  predicate OpensRun(elements: seq<int>, residueIndex: seq<int>, k: int)
    requires 0 <= k < |elements|
  {
    var before := if k == 0 then Num(-1) else At(residueIndex, Num(elements[k - 1]));
    !StrictEq(before, At(residueIndex, Num(elements[k])))
  }

  /** The elements among the first `n` that open a residue run, in order. */
  function RunStarts(elements: seq<int>, residueIndex: seq<int>, n: nat): (r: seq<int>)
    requires n <= |elements|
    ensures |r| <= n
  {
    if n == 0 then []
    else RunStarts(elements, residueIndex, n - 1) +
         (if OpensRun(elements, residueIndex, n - 1) then [elements[n - 1]] else [])
  }

  /** An element is a run start exactly when some position holding it opens a run. */
  lemma {:induction false} RunStartsMembers(elements: seq<int>, residueIndex: seq<int>, n: nat, x: int)
    requires n <= |elements|
    ensures x in RunStarts(elements, residueIndex, n) <==>
              exists k :: 0 <= k < n && elements[k] == x && OpensRun(elements, residueIndex, k)
  {
    if n > 0 {
      RunStartsMembers(elements, residueIndex, n - 1, x);
    }
  }

  /** The loop of lines 219-229, which remembers the residue of the last element kept. */
  method ResidueRunStarts(elements: seq<int>, residueIndex: seq<int>) returns (starts: seq<int>)
    ensures starts == RunStarts(elements, residueIndex, |elements|)
  {
    starts := [];
    var lastResidue := Num(-1);
    for i := 0 to |elements|
      invariant starts == RunStarts(elements, residueIndex, i)
      invariant lastResidue == if i == 0 then Num(-1) else At(residueIndex, Num(elements[i - 1]))
    {
      var residue := At(residueIndex, Num(elements[i]));
      if !StrictEq(lastResidue, residue) {
        starts := starts + [elements[i]];
        lastResidue := residue;
      }
    }
  }

  /** The atoms a unit is resolved from: its polymer elements, or when it has none the first
      atom of each residue run. */
  function Seeds(unit: Unit): seq<int>
  {
    if |unit.polymerElements| > 0 then unit.polymerElements
    else RunStarts(unit.elements, unit.residueIndex, |unit.elements|)
  }

  function AtomLocation(structure: Structure, unit: Unit, proteins: seq<Protein>): int -> Option<Location>
  {
    (atomIndex: int) => LocationByAtomIndex(atomIndex, structure, unit, proteins, None)
  }

  /** The locations of the atoms `atoms` of a unit, the unresolved ones dropped. */
  function Resolved(structure: Structure, unit: Unit, proteins: seq<Protein>, atoms: seq<int>): (r: seq<Location>)
    ensures |r| <= |atoms|
  {
    FilterMap(atoms, AtomLocation(structure, unit, proteins))
  }

  /** Every resolved location is that of one of the atoms, and every atom that resolves
      contributes its location. */
  lemma ResolvedMembers(structure: Structure, unit: Unit, proteins: seq<Protein>, atoms: seq<int>)
    ensures forall l :: l in Resolved(structure, unit, proteins, atoms) ==>
              exists j :: 0 <= j < |atoms| && LocationByAtomIndex(atoms[j], structure, unit, proteins, None) == Some(l)
    ensures forall j :: 0 <= j < |atoms| && LocationByAtomIndex(atoms[j], structure, unit, proteins, None).Some? ==>
              LocationByAtomIndex(atoms[j], structure, unit, proteins, None).value in Resolved(structure, unit, proteins, atoms)
  {
    FilterMapMembers(atoms, AtomLocation(structure, unit, proteins));
  }

  /** The locations of all units' seeds, unit by unit. */
  function LocationsOfUnits(structure: Structure, units: seq<Unit>, proteins: seq<Protein>): seq<Location>
  {
    if |units| == 0 then []
    else LocationsOfUnits(structure, units[..|units| - 1], proteins) +
         Resolved(structure, units[|units| - 1], proteins, Seeds(units[|units| - 1]))
  }

  function UnitLocations(structure: Structure, proteins: seq<Protein>): Unit -> seq<Location>
  {
    (u: Unit) => Resolved(structure, u, proteins, Seeds(u))
  }

  lemma {:induction false} LocationsOfUnitsConcat(structure: Structure, units: seq<Unit>, proteins: seq<Protein>)
    ensures LocationsOfUnits(structure, units, proteins) == ConcatMap(units, UnitLocations(structure, proteins))
  {
    if |units| > 0 {
      LocationsOfUnitsConcat(structure, units[..|units| - 1], proteins);
    }
  }

  /** A location of the units is exactly a location resolved from the seeds of one of the
      units (which `ResolvedMembers` relates to the seeds' own locations). */
  lemma LocationsOfUnitsMembers(structure: Structure, units: seq<Unit>, proteins: seq<Protein>, l: Location)
    ensures l in LocationsOfUnits(structure, units, proteins) <==>
              exists k :: 0 <= k < |units| && l in Resolved(structure, units[k], proteins, Seeds(units[k]))
  {
    var g := UnitLocations(structure, proteins);
    LocationsOfUnitsConcat(structure, units, proteins);
    ConcatMapMembers(units, g, l);
    assert forall k :: 0 <= k < |units| ==> g(units[k]) == Resolved(structure, units[k], proteins, Seeds(units[k]));
  }

  /** The inner loop of lines 231-242. */
  method ResolveSeeds(structure: Structure, unit: Unit, proteins: seq<Protein>, seeds: seq<int>)
    returns (found: seq<Location>)
    ensures found == Resolved(structure, unit, proteins, seeds)
  {
    ghost var f := AtomLocation(structure, unit, proteins);
    found := [];
    for e := 0 to |seeds|
      invariant found == FilterMap(seeds[..e], f)
    {
      var location := GetLocationByAtomIndex(seeds[e], structure, unit, proteins, None);
      assert location == f(seeds[e]);
      FilterMapNext(seeds, f, e);
      if location.Some? {
        found := found + [location.value];
      }
    }
    assert seeds[..|seeds|] == seeds;
  }

  /** The seeds of lines 215-230. */
  method UnitSeeds(unit: Unit) returns (seeds: seq<int>)
    ensures seeds == Seeds(unit)
  {
    if |unit.polymerElements| > 0 {
      seeds := unit.polymerElements;
    } else {
      seeds := ResidueRunStarts(unit.elements, unit.residueIndex);
    }
  }

  /** The loop of lines 214-243 over the units. */
  method ResolveUnits(structure: Structure, units: seq<Unit>, proteins: seq<Protein>) returns (locations: seq<Location>)
    ensures locations == LocationsOfUnits(structure, units, proteins)
  {
    locations := [];
    for u := 0 to |units|
      invariant locations == LocationsOfUnits(structure, units[..u], proteins)
    {
      var seeds := UnitSeeds(units[u]);
      var found := ResolveSeeds(structure, units[u], proteins, seeds);
      locations := locations + found;
      assert units[..u + 1][..u] == units[..u];
    }
    assert units[..|units|] == units;
  }

  /** The defined results of `f(1) .. f(n - 1)` in order, or `Throws` as soon as one of
      them throws. */
  function CollectUntilThrow<U>(n: int, f: int -> Outcome<Option<U>>): (r: Outcome<seq<U>>)
    ensures r.Ok? ==> |r.value| <= Max(n - 1, 0)
    decreases n
  {
    if n <= 1 then Ok([])
    else
      match CollectUntilThrow(n - 1, f)
      case Throws => Throws
      case Ok(before) =>
        match f(n - 1)
        case Throws => Throws
        case Ok(x) => Ok(before + (if x.Some? then [x.value] else []))
  }

  lemma CollectEmpty<U>(n: int, m: int, f: int -> Outcome<Option<U>>)
    requires n <= 1 && m <= 1
    ensures CollectUntilThrow(n, f) == CollectUntilThrow(m, f)
  {
  }

  /** Once the collection throws, a longer one throws too. */
  lemma {:induction false} CollectThrows<U>(n: int, m: int, f: int -> Outcome<Option<U>>)
    requires n <= m && CollectUntilThrow(n, f).Throws?
    ensures CollectUntilThrow(m, f).Throws?
    decreases m - n
  {
    if n < m {
      CollectThrows(n + 1, m, f);
    }
  }

  /** `xs` lists the defined results of `f(1) .. f(n - 1)` in order, `idx` their steps. */
  ghost predicate StepsOf<U>(xs: seq<U>, idx: seq<int>, n: int, f: int -> Outcome<Option<U>>)
  {
    |idx| == |xs| &&
    (forall k :: 0 <= k < |idx| ==> 1 <= idx[k] < n && f(idx[k]) == Ok(Some(xs[k]))) &&
    (forall a, b :: 0 <= a < b < |idx| ==> idx[a] < idx[b]) &&
    (forall i :: 1 <= i < n && f(i).Ok? && f(i).value.Some? ==> i in idx)
  }

  /** The collection throws exactly when one of the steps `1 .. n - 1` throws; otherwise it
      holds every defined result, each once, in the order of the steps. */
  lemma CollectMeaning<U>(n: int, f: int -> Outcome<Option<U>>)
    ensures CollectUntilThrow(n, f).Ok? <==> forall i :: 1 <= i < n ==> f(i).Ok?
    ensures CollectUntilThrow(n, f).Ok? ==> exists idx :: StepsOf(CollectUntilThrow(n, f).value, idx, n, f)
  {
    CollectOk(n, f);
    if CollectUntilThrow(n, f).Ok? {
      CollectIndexed(n, f);
    }
  }

  lemma {:induction false} CollectOk<U>(n: int, f: int -> Outcome<Option<U>>)
    ensures CollectUntilThrow(n, f).Ok? <==> forall i :: 1 <= i < n ==> f(i).Ok?
    decreases n
  {
    if n > 1 {
      CollectOk(n - 1, f);
      if !f(n - 1).Ok? {
        assert CollectUntilThrow(n, f).Throws?;
      }
    }
  }

  /** The steps among `1 .. n - 1` with a defined result, in order. */
  ghost function DefinedSteps<U>(n: int, f: int -> Outcome<Option<U>>): seq<int>
    decreases n
  {
    if n <= 1 then []
    else DefinedSteps(n - 1, f) + (if f(n - 1).Ok? && f(n - 1).value.Some? then [n - 1] else [])
  }

  lemma {:induction false} CollectIndexed<U>(n: int, f: int -> Outcome<Option<U>>)
    requires CollectUntilThrow(n, f).Ok?
    ensures StepsOf(CollectUntilThrow(n, f).value, DefinedSteps(n, f), n, f)
    decreases n
  {
    if n > 1 {
      var xs0 := CollectUntilThrow(n - 1, f).value;
      CollectIndexed(n - 1, f);
      var idx0 := DefinedSteps(n - 1, f);
      var step := f(n - 1).value;
      if step.Some? {
        assert CollectUntilThrow(n, f).value == xs0 + [step.value];
        assert DefinedSteps(n, f) == idx0 + [n - 1];
        StepsDefined(xs0, idx0, n, f, step.value);
      } else {
        assert CollectUntilThrow(n, f).value == xs0 + [];
        assert DefinedSteps(n, f) == idx0 + [];
        StepsUndefined(xs0, idx0, n, f);
      }
    }
  }

  /** A step with a defined result extends the collection and its steps by one. */
  lemma StepsDefined<U>(xs0: seq<U>, idx0: seq<int>, n: int, f: int -> Outcome<Option<U>>, x: U)
    requires n >= 2 && StepsOf(xs0, idx0, n - 1, f) && f(n - 1) == Ok(Some(x))
    ensures StepsOf(xs0 + [x], idx0 + [n - 1], n, f)
  {
    var xs, idx := xs0 + [x], idx0 + [n - 1];
    forall k | 0 <= k < |idx|
      ensures 1 <= idx[k] < n && f(idx[k]) == Ok(Some(xs[k]))
    {
      if k < |idx0| {
        assert idx[k] == idx0[k] && xs[k] == xs0[k];
      }
    }
    forall a, b | 0 <= a < b < |idx|
      ensures idx[a] < idx[b]
    {
      assert idx[a] == idx0[a];
      if b < |idx0| {
        assert idx[b] == idx0[b];
      }
    }
    forall i | 1 <= i < n && f(i).Ok? && f(i).value.Some?
      ensures i in idx
    {
      if i < n - 1 {
        assert i in idx0;
      }
    }
  }

  /** A step without a defined result leaves the collection and its steps as they are. */
  lemma StepsUndefined<U>(xs0: seq<U>, idx0: seq<int>, n: int, f: int -> Outcome<Option<U>>)
    requires StepsOf(xs0, idx0, n - 1, f) && !(f(n - 1).Ok? && f(n - 1).value.Some?)
    ensures StepsOf(xs0 + [], idx0 + [], n, f)
  {
    assert xs0 + [] == xs0 && idx0 + [] == idx0;
    forall i | 1 <= i < n && f(i).Ok? && f(i).value.Some?
      ensures i in idx0
    {
      assert i < n - 1;
    }
  }

  /** Step `i` of the loop of lines 263-274: the location of author sequence number
      `index + i` of the chain. */
  function ChainStep(protein: Protein, chain: Option<string>, index: JsNum): int -> Outcome<Option<Location>>
  {
    (i: int) => LocationByChainIndexAsWritten(protein, chain, Plus(index, Num(i)))
  }

  /** The structure of a chain, structure or unit selection: that of the first chain
      location, else of the first unit location, else of the first structure location. */
  function CountStructure(stats: Stats): (r: Option<Structure>)
    ensures r.Some? ==> r == stats.firstChainLoc.structure || r == stats.firstUnitLoc.structure ||
                        r == stats.firstStructureLoc.structure
    ensures r.None? <==> stats.firstChainLoc.structure.None? && stats.firstUnitLoc.structure.None? &&
                         stats.firstStructureLoc.structure.None?
  {
    Either(stats.firstChainLoc.structure, Either(stats.firstUnitLoc.structure, stats.firstStructureLoc.structure))
  }

  /** Whether every unit location has its unit. */
  predicate UnitsSet(locs: seq<ElementLoc>)
  {
    forall k :: 0 <= k < |locs| ==> locs[k].unit.Some?
  }

  /** The units a chain, structure or unit selection is resolved from: those of the unit
      locations when `fromUnitLocs`, where an unset unit throws when the loop reads its
      polymer elements; otherwise the units of the first structure location's structure,
      where an unset structure throws. */
  function CountUnits(stats: Stats, fromUnitLocs: bool): (r: Outcome<seq<Unit>>)
    ensures fromUnitLocs ==> (r.Ok? <==> UnitsSet(stats.unitLocs))
    ensures fromUnitLocs && r.Ok? ==>
              |r.value| == |stats.unitLocs| && forall k :: 0 <= k < |r.value| ==> Some(r.value[k]) == stats.unitLocs[k].unit
    ensures !fromUnitLocs ==> (r.Ok? <==> stats.firstStructureLoc.structure.Some?)
    ensures !fromUnitLocs && r.Ok? ==> r.value == stats.firstStructureLoc.structure.value.units
  {
    if fromUnitLocs then
      if UnitsSet(stats.unitLocs) then
        Ok(seq(|stats.unitLocs|, k requires 0 <= k < |stats.unitLocs| => stats.unitLocs[k].unit.value))
      else Throws
    else if stats.firstStructureLoc.structure.Some? then Ok(stats.firstStructureLoc.structure.value.units)
    else Throws
  }

  /** Whether some unit has an atom to resolve. */
  predicate SeedsExist(units: seq<Unit>)
  {
    exists k :: 0 <= k < |units| && |Seeds(units[k])| > 0
  }

  /** Whether the statistics count a chain, a structure or a unit. */
  predicate CountsSelection(stats: Stats)
  {
    stats.chainCount >= 1 || stats.structureCount >= 1 || stats.unitCount >= 1
  }

  /** The structure and unit of the first element location, each falling back on the first
      structure location's. */
  function ElementStructure(stats: Stats): Option<Structure>
  {
    Either(stats.firstElementLoc.structure, stats.firstStructureLoc.structure)
  }

  function ElementUnit(stats: Stats): Option<Unit>
  {
    Either(stats.firstElementLoc.unit, stats.firstStructureLoc.unit)
  }

  /** The location of the first element of the statistics. */
  function FirstElementLocation(stats: Stats, loci: Option<Loci>, proteins: seq<Protein>): Outcome<Option<Location>>
  {
    AtomIndexLocation(stats.firstElementLoc.element, ElementStructure(stats), ElementUnit(stats), proteins, loci)
  }

  /** `getLocationByStats` with the units of a counted selection taken from the unit
      locations exactly when `fromUnitLocs`. A counted selection resolves every seed of
      every unit against its structure; an unset structure resolves nothing, and throws
      once a seed meets a loaded protein. Otherwise the first element is resolved; nothing
      resolved gives `[]`; with more than one residue the locations of the following
      author sequence numbers of the same chain are appended, from the protein whose key is
      the location's structure key (throwing when there is none). */
  function StatsLocations(stats: Stats, loci: Option<Loci>, proteins: seq<Protein>, fromUnitLocs: bool)
    : (r: Outcome<seq<Location>>)
    ensures CountsSelection(stats) && CountUnits(stats, fromUnitLocs).Throws? ==> r.Throws?
    ensures CountsSelection(stats) && CountUnits(stats, fromUnitLocs).Ok? && CountStructure(stats).Some? ==>
              r == Ok(LocationsOfUnits(CountStructure(stats).value, CountUnits(stats, fromUnitLocs).value, proteins))
    ensures CountsSelection(stats) && CountUnits(stats, fromUnitLocs).Ok? && CountStructure(stats).None? ==>
              (r.Throws? <==> SomeLoaded(proteins) && SeedsExist(CountUnits(stats, fromUnitLocs).value)) &&
              (r.Ok? ==> r.value == [])
    ensures !CountsSelection(stats) && FirstElementLocation(stats, loci, proteins).Throws? ==> r.Throws?
    ensures !CountsSelection(stats) && FirstElementLocation(stats, loci, proteins) == Ok(None) ==> r == Ok([])
    ensures r.Ok? && !CountsSelection(stats) ==>
              |r.value| <= Max(stats.residueCount, 1) &&
              (|r.value| > 0 ==> FirstElementLocation(stats, loci, proteins) == Ok(Some(r.value[0])))
    ensures !CountsSelection(stats) && stats.residueCount > 1 && FirstElementLocation(stats, loci, proteins).Ok? &&
            FirstElementLocation(stats, loci, proteins).value.Some? ==>
              r == FollowingResidues(FirstElementLocation(stats, loci, proteins).value.value, stats.residueCount, proteins)
    ensures !CountsSelection(stats) && stats.residueCount <= 1 && FirstElementLocation(stats, loci, proteins).Ok? &&
            FirstElementLocation(stats, loci, proteins).value.Some? ==>
              r == Ok([FirstElementLocation(stats, loci, proteins).value.value])
  {
    if CountsSelection(stats) then
      match CountUnits(stats, fromUnitLocs)
      case Throws => Throws
      case Ok(units) =>
        var structure := CountStructure(stats);
        if structure.Some? then Ok(LocationsOfUnits(structure.value, units, proteins))
        else if SomeLoaded(proteins) && SeedsExist(units) then Throws
        else Ok([])
    else
      match FirstElementLocation(stats, loci, proteins)
      case Throws => Throws
      case Ok(None) => Ok([])
      case Ok(Some(location)) =>
        if stats.residueCount > 1 then FollowingResidues(location, stats.residueCount, proteins)
        else Ok([location])
  }

  /** Lines 260-275: the location, then the locations of the following `residueCount - 1`
      author sequence numbers of its chain in the protein whose key is its structure key. */
  function FollowingResidues(location: Location, residueCount: int, proteins: seq<Protein>): (r: Outcome<seq<Location>>)
    ensures r.Ok? ==> |r.value| >= 1 && r.value[0] == location && |r.value| <= Max(residueCount, 1)
  {
    var protein := Find(proteins, (p: Protein) => Some(p.key) == location.structureKey);
    if protein.None? then Throws
    else
      match CollectUntilThrow(residueCount, ChainStep(protein.value, location.chainName, location.chainIndex))
      case Throws => Throws
      case Ok(rest) => Ok([location] + rest)
  }

  /** The following residues throw exactly when no protein has the location's structure
      key or one of the lookups of the following author sequence numbers throws; otherwise
      they are the location and then every defined lookup, in order. */
  lemma FollowingResiduesMeaning(location: Location, residueCount: int, proteins: seq<Protein>)
    ensures var protein := Find(proteins, (p: Protein) => Some(p.key) == location.structureKey);
            var r := FollowingResidues(location, residueCount, proteins);
            (r.Throws? <==>
               protein.None? ||
               exists i :: 1 <= i < residueCount &&
                 ChainStep(protein.value, location.chainName, location.chainIndex)(i).Throws?) &&
            (r.Ok? ==>
               r.value[0] == location &&
               exists idx :: StepsOf(r.value[1..], idx, residueCount,
                                     ChainStep(protein.value, location.chainName, location.chainIndex)))
  {
    var protein := Find(proteins, (p: Protein) => Some(p.key) == location.structureKey);
    if protein.Some? {
      var f := ChainStep(protein.value, location.chainName, location.chainIndex);
      CollectMeaning(residueCount, f);
      var r := FollowingResidues(location, residueCount, proteins);
      if r.Ok? {
        assert r.value[1..] == CollectUntilThrow(residueCount, f).value;
      } else {
      }
    }
  }

  /** `getLocationByStats` as written: line 207 tests the unit count twice, so a chain
      selection without a unit count takes its units from the first structure location. */
  function LocationsByStats(stats: Stats, loci: Option<Loci>, proteins: seq<Protein>): (r: Outcome<seq<Location>>)
    ensures r == StatsLocations(stats, loci, proteins, stats.unitCount >= 1)
  {
    StatsLocations(stats, loci, proteins, stats.unitCount >= 1)
  }

  /** `getLocationByStats` with line 207 testing the chain count and the unit count. */
  function LocationsByStatsCorrected(stats: Stats, loci: Option<Loci>, proteins: seq<Protein>): (r: Outcome<seq<Location>>)
    ensures r == StatsLocations(stats, loci, proteins, stats.chainCount >= 1 || stats.unitCount >= 1)
  {
    StatsLocations(stats, loci, proteins, stats.chainCount >= 1 || stats.unitCount >= 1)
  }

  /** The loop of lines 263-274, over any step: it stops with `Throws` at the first step
      that throws and pushes each defined result. */
  method CollectSteps<U>(n: int, f: int -> Outcome<Option<U>>) returns (r: Outcome<seq<U>>)
    ensures r == CollectUntilThrow(n, f)
  {
    var result := [];
    var i := 1;
    while i < n
      invariant 1 <= i <= Max(n, 1)
      invariant CollectUntilThrow(i, f) == Ok(result)
    {
      var step := f(i);
      if step.Throws? {
        CollectThrows(i + 1, n, f);
        return Throws;
      }
      if step.value.Some? {
        result := result + [step.value.value];
      } else {
        assert result + [] == result;
      }
      i := i + 1;
    }
    if n <= 1 {
      CollectEmpty(n, i, f);
    }
    return Ok(result);
  }

  /** A chain selection whose statistics hold its structure and unit locations but no
      structure location: as written, line 211 reads the units of the unset structure and
      throws, while the corrected test takes the units of the unit locations. */
  lemma ChainSelectionAsWritten()
    ensures var s := OneAtomProtein().molData.structure.value;
            var u := Unit(0, [0], [0], [0]);
            var unset := ElementLoc(None, None, 0);
            var stats := Stats(1, 0, 0, 1, unset, ElementLoc(Some(s), Some(u), 0), unset, unset,
                               [ElementLoc(Some(s), Some(u), 0)]);
            LocationsByStats(stats, None, []).Throws? && LocationsByStatsCorrected(stats, None, []).Ok?
  {
  }

  /** With the corrected test, a chain selection whose unit locations carry their units is
      resolved from those units against the first chain location's structure, whatever
      the structure location holds, and never throws. */
  lemma ChainSelectionCorrected(stats: Stats, loci: Option<Loci>, proteins: seq<Protein>)
    requires stats.chainCount >= 1 && UnitsSet(stats.unitLocs) && stats.firstChainLoc.structure.Some?
    ensures var units := seq(|stats.unitLocs|, k requires 0 <= k < |stats.unitLocs| => stats.unitLocs[k].unit.value);
            LocationsByStatsCorrected(stats, loci, proteins) ==
              Ok(LocationsOfUnits(stats.firstChainLoc.structure.value, units, proteins))
  {
    var units := CountUnits(stats, true).value;
    assert units == seq(|stats.unitLocs|, k requires 0 <= k < |stats.unitLocs| => stats.unitLocs[k].unit.value);
  }

  /** `getLocationByStats` with its loops. */
  method GetLocationByStats(stats: Stats, loci: Option<Loci>, proteins: seq<Protein>) returns (r: Outcome<seq<Location>>)
    ensures r == LocationsByStats(stats, loci, proteins)
  {
    if stats.chainCount >= 1 || stats.structureCount >= 1 || stats.unitCount >= 1 {
      var structure := Either(stats.firstChainLoc.structure, Either(stats.firstUnitLoc.structure, stats.firstStructureLoc.structure));
      var units := CountUnits(stats, stats.unitCount >= 1);
      if units.Throws? {
        return Throws;
      }
      if structure.None? {
        if SomeLoaded(proteins) && SeedsExist(units.value) {
          return Throws;
        }
        return Ok([]);
      }
      var locations := ResolveUnits(structure.value, units.value, proteins);
      return Ok(locations);
    }
    var structure := Either(stats.firstElementLoc.structure, stats.firstStructureLoc.structure);
    var unit := Either(stats.firstElementLoc.unit, stats.firstStructureLoc.unit);
    if unit.None? || (structure.None? && SomeLoaded(proteins)) {
      return Throws;
    }
    if structure.None? {
      return Ok([]);
    }
    var location := GetLocationByAtomIndex(stats.firstElementLoc.element, structure.value, unit.value, proteins, loci);
    if location.None? {
      return Ok([]);
    }
    if stats.residueCount > 1 {
      var protein := Find(proteins, (p: Protein) => Some(p.key) == location.value.structureKey);
      if protein.None? {
        return Throws;
      }
      var rest := CollectSteps(stats.residueCount, ChainStep(protein.value, location.value.chainName, location.value.chainIndex));
      if rest.Throws? {
        return Throws;
      }
      return Ok([location.value] + rest.value);
    }
    return Ok([location.value]);
  }

  // ---------------------------------------------------- isLocationListEqual

  /** A number as a template literal prints it. */
  function NumText(n: JsNum): string
  {
    match n
    case Num(v) => IntToString(v)
    case NaN => "NaN"
    case Undefined => "undefined"
  }

  /** `${item.chainName}${item.chainIndex}`. */
  function LocationKey(l: Location): string
  {
    (if l.chainName.Some? then l.chainName.value else "undefined") + NumText(l.chainIndex)
  }

  function Keys(locations: seq<Location>): (r: seq<string>)
    ensures |r| == |locations|
    ensures forall k :: 0 <= k < |r| ==> r[k] == LocationKey(locations[k])
  {
    seq(|locations|, k requires 0 <= k < |locations| => LocationKey(locations[k]))
  }

  /** `isLocationListEqual`: equal lengths, and the sorted key lists agree entry by entry. */
  function IsLocationListEqual(a: seq<Location>, b: seq<Location>): bool
  {
    |a| == |b| && SortStrings(Keys(a)) == SortStrings(Keys(b))
  }

  /** Two lists are equal exactly when they hold the same keys the same number of times,
      whatever their order. */
  lemma IsLocationListEqualMeaning(a: seq<Location>, b: seq<Location>)
    ensures IsLocationListEqual(a, b) <==> multiset(Keys(a)) == multiset(Keys(b))
  {
    if multiset(Keys(a)) == multiset(Keys(b)) {
      assert |Keys(a)| == |multiset(Keys(a))| == |multiset(Keys(b))| == |Keys(b)|;
      StrSortedUnique(SortStrings(Keys(a)), SortStrings(Keys(b)));
    }
  }
}
