/** `getLoci` and `getLociByWrapper`: from a flat element index, or from a chain and a
    sequence index, to a loci of one element. */
module GetLoci {
  import opened Common
  import opened StructureModel

  // ------------------------------------------------------------------ getLoci

  /** The number of elements in units `0 .. i - 1`: the `offset` reached before unit `i`. */
  function Offset(units: seq<Unit>, i: nat): nat
    requires i <= |units|
  {
    if i == 0 then 0 else Offset(units, i - 1) + |units[i - 1].elements|
  }

  /** Offsets never decrease along the units. */
  lemma {:induction false} OffsetMonotone(units: seq<Unit>, i: nat, j: nat)
    requires i <= j <= |units|
    ensures Offset(units, i) <= Offset(units, j)
  {
    if i < j {
      OffsetMonotone(units, i, j - 1);
    }
  }

  /** The unit the scan from unit `from` stops at: the first whose end offset passes
      `seqIdx`, or none. */
  function UnitFor(seqIdx: int, units: seq<Unit>, from: nat): (r: Option<nat>)
    requires from <= |units|
    ensures r.Some? ==> from <= r.value < |units| && seqIdx < Offset(units, r.value + 1)
    ensures r.Some? ==> forall j :: from < j <= r.value ==> Offset(units, j) <= seqIdx
    ensures r.None? ==> forall j :: from < j <= |units| ==> Offset(units, j) <= seqIdx
    decreases |units| - from
  {
    if from == |units| then None
    else if seqIdx < Offset(units, from + 1) then Some(from)
    else UnitFor(seqIdx, units, from + 1)
  }

  /** The elements of the loci `getLoci` builds: none when no unit is found, otherwise the
      unit found and `seqIdx` less the offset of that unit. */
  function LociEntries(seqIdx: int, units: seq<Unit>): seq<LociEntry>
  {
    match UnitFor(seqIdx, units, 0)
    case None => []
    case Some(i) => [LociEntry(units[i], Num(seqIdx - Offset(units, i)))]
  }

  /** The `for` loop with its running `offset` and `break`. */
  method GetLociOf(seqIdx: int, units: seq<Unit>) returns (loci: Loci)
    ensures loci == ElementLoci(LociEntries(seqIdx, units))
  {
    var entries: seq<LociEntry> := [];
    var offset := 0;
    var i := 0;
    while i < |units|
      invariant 0 <= i <= |units|
      invariant offset == Offset(units, i)
      invariant UnitFor(seqIdx, units, 0) == UnitFor(seqIdx, units, i)
    {
      var unit := units[i];
      if seqIdx < offset + |unit.elements| {
        entries := entries + [LociEntry(unit, Num(seqIdx - offset))];
        break;
      }
      offset := offset + |unit.elements|;
      i := i + 1;
    }
    loci := ElementLoci(entries);
  }

  /** An index inside the structure yields exactly one element, and its local index lies
      inside the unit found. */
  lemma GetLociInRange(seqIdx: int, units: seq<Unit>)
    requires 0 <= seqIdx < Offset(units, |units|)
    ensures var e := LociEntries(seqIdx, units);
            |e| == 1 && e[0].index.Num? && 0 <= e[0].index.value < |e[0].unit.elements|
  {
    var r := UnitFor(seqIdx, units, 0);
    var i := r.value;
    if i > 0 {
      assert Offset(units, i) <= seqIdx;
    }
  }

  /** No element is produced exactly when the index is past the last unit (or there is no
      unit at all); otherwise exactly one is. */
  lemma GetLociEmpty(seqIdx: int, units: seq<Unit>)
    ensures LociEntries(seqIdx, units) == [] <==> |units| == 0 || Offset(units, |units|) <= seqIdx
    ensures |LociEntries(seqIdx, units)| <= 1
  {
    var r := UnitFor(seqIdx, units, 0);
    if r.Some? {
      OffsetMonotone(units, r.value + 1, |units|);
    } else if |units| > 0 {
      assert Offset(units, |units|) <= seqIdx;
    }
  }

  // --------------------------------------------------------- getLociByWrapper

  /** `lociInfo.chain || 'A'`. */
  function DefaultChain(chain: Option<string>): (r: string)
    ensures r != ""
    ensures chain.Some? && chain.value != "" ==> r == chain.value
  {
    if chain.Some? && chain.value != "" then chain.value else "A"
  }

  /** `wrappers.find(w => getWrapperAsymId(w.wrapper) === (lociInfo.chain || 'A'))`. */
  function WrapperOfChain(wrappers: seq<Wrapper>, chain: Option<string>): (r: Option<Wrapper>)
    ensures r.Some? ==> r.value.body.Sequence? && r.value.body.asymId == DefaultChain(chain)
  {
    Find(wrappers, (w: Wrapper) => WrapperAsymId(w) == Some(DefaultChain(chain)))
  }

  /** `unit.polymerElements[realIndex] - unit.polymerElements[0]`: `NaN` when either entry is
      missing. */
  function PolymerOffset(unit: Unit, realIndex: int): (r: JsNum)
    ensures r.Num? <==> 0 <= realIndex < |unit.polymerElements|
  {
    if 0 <= realIndex < |unit.polymerElements|
    then Num(unit.polymerElements[realIndex] - unit.polymerElements[0])
    else NaN
  }

  /** `getLociByWrapper`: nothing when no wrapper is a chain of that name (default `A`) or
      the index is not in the sequence map of the first such wrapper; otherwise a loci of
      the one element of that wrapper's unit at the mapped polymer position, counted from
      the unit's first polymer element. */
  function LociByWrapper(wrappers: seq<Wrapper>, chain: Option<string>, index: int): (r: Option<Loci>)
    ensures r.None? <==>
              (forall j :: 0 <= j < |wrappers| ==> WrapperAsymId(wrappers[j]) != Some(DefaultChain(chain))) ||
              index !in WrapperOfChain(wrappers, chain).value.body.indexMap
    ensures r.Some? ==>
              exists j :: 0 <= j < |wrappers| && WrapperAsymId(wrappers[j]) == Some(DefaultChain(chain)) &&
                (forall i :: 0 <= i < j ==> WrapperAsymId(wrappers[i]) != Some(DefaultChain(chain))) &&
                var b := wrappers[j].body;
                r.value == ElementLoci([LociEntry(b.unit, PolymerOffset(b.unit, b.indexMap[index]))])
  {
    match WrapperOfChain(wrappers, chain)
    case None => None
    case Some(w) =>
      var unit, sequence := w.body.unit, w.body.indexMap;
      if index !in sequence then None
      else Some(ElementLoci([LociEntry(unit, PolymerOffset(unit, sequence[index]))]))
  }
}
