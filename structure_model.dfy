/** The engine objects the hooks read, reduced to the columns and fields they use. */
module StructureModel {
  import opened Common

  /** One unit of a structure: its chain group, the global indices of its atoms in ascending
      order, the residue index of every atom of the model (indexed by global atom index),
      and the atoms of the unit that trace the polymer. */
  datatype Unit = Unit(
    chainGroupId: int,
    elements: seq<int>,
    residueIndex: seq<int>,
    polymerElements: seq<int>)

  /** The columns of the mmCIF `atom_site` category, one entry per atom. Coordinates,
      occupancy and B factor are already formatted to text. */
  datatype AtomSite = AtomSite(
    groupPdb: seq<string>,
    id: seq<int>,
    authAtomId: seq<string>,
    labelAltId: seq<string>,
    authCompId: seq<string>,
    labelCompId: seq<string>,
    authAsymId: seq<string>,
    authSeqId: seq<int>,
    cartnX: seq<string>,
    cartnY: seq<string>,
    cartnZ: seq<string>,
    occupancy: seq<string>,
    bIso: seq<string>,
    typeSymbol: seq<string>)
  {
    function Count(): nat { |groupPdb| }

    /** Every column has one entry per atom. */
    predicate Valid()
    {
      |id| == Count() && |authAtomId| == Count() && |labelAltId| == Count() &&
      |authCompId| == Count() && |labelCompId| == Count() && |authAsymId| == Count() &&
      |authSeqId| == Count() && |cartnX| == Count() && |cartnY| == Count() &&
      |cartnZ| == Count() && |occupancy| == Count() && |bIso| == Count() &&
      |typeSymbol| == Count()
    }
  }

  /** A row of `struct_conf` (a helix), with every field as the text it is rendered as. */
  datatype HelixRow = HelixRow(
    helixId: string,
    begAuthCompId: string,
    begAuthAsymId: string,
    begAuthSeqId: string,
    endAuthCompId: string,
    endAuthSeqId: string,
    helixClass: string,
    helixLength: string)

  /** A row of `struct_sheet_range` (a strand), with every field as text. */
  datatype SheetRow = SheetRow(
    strandId: string,
    sheetId: string,
    begAuthCompId: string,
    endLabelAsymId: string,
    begAuthSeqId: string,
    endAuthCompId: string,
    endLabelCompId: string,
    endAuthSeqId: string)

  /** A row of `struct_conn`: the two partners of a bond, each by label chain id, label atom
      name and author sequence number. */
  datatype ConnRow = ConnRow(
    ptnr1AsymId: string, ptnr1AtomId: string, ptnr1SeqId: int,
    ptnr2AsymId: string, ptnr2AtomId: string, ptnr2SeqId: int)

  /** A structure: its label, its model's id, its units and the source tables. `anisoU[i]` is
      the anisotropic displacement row read for atom `i` (present when `i < |anisoU|`), as
      the nine entries of the 3x3 matrix, each already scaled by 10000 and formatted. */
  datatype Structure = Structure(
    labelText: string,
    modelId: string,
    units: seq<Unit>,
    atoms: AtomSite,
    anisoU: seq<seq<string>>,
    helices: seq<HelixRow>,
    sheets: seq<SheetRow>,
    conns: seq<ConnRow>)

  /** The engine's guarantees about a unit of a model with `atomCount` atoms. */
  predicate UnitValid(u: Unit, atomCount: nat)
  {
    |u.elements| > 0 &&
    (forall k :: 0 <= k < |u.elements| ==> 0 <= u.elements[k] < atomCount) &&
    (forall i, j :: 0 <= i < j < |u.elements| ==> u.elements[i] < u.elements[j]) &&
    |u.residueIndex| == atomCount
  }

  /** The engine's guarantees about a structure. */
  predicate StructureValid(s: Structure)
  {
    s.atoms.Valid() &&
    (forall k :: 0 <= k < |s.units| ==> UnitValid(s.units[k], s.atoms.Count())) &&
    (forall k :: 0 <= k < |s.anisoU| ==> |s.anisoU[k]| == 9)
  }

  /** The body of a sequence wrapper: an error message, or a sequence of one chain with the
      map from sequence index to polymer-element position and the unit it views. */
  datatype WrapperBody =
    | Message(text: string)
    | Sequence(asymId: string, indexMap: map<int, int>, unit: Unit)

  datatype Wrapper = Wrapper(
    key: string,
    labelText: string,
    chainType: string,
    chainGroupId: int,
    body: WrapperBody)

  /** `getWrapperAsymId`: a message has no chain id. */
  function WrapperAsymId(w: Wrapper): (r: Option<string>)
    ensures r.Some? <==> w.body.Sequence?
  {
    if w.body.Sequence? then Some(w.body.asymId) else None
  }

  /** A JavaScript number as the hooks see it: an integer, `NaN` (what arithmetic on a
      missing entry gives) or `undefined`. */
  datatype JsNum = Num(value: int) | NaN | Undefined

  /** `===` on such numbers: `NaN` equals nothing, not even itself. */
  predicate StrictEq(a: JsNum, b: JsNum)
  {
    a == b && !a.NaN?
  }

  /** `a + b`: `NaN` unless both are numbers. */
  function Plus(a: JsNum, b: JsNum): (r: JsNum)
    ensures r.Num? <==> a.Num? && b.Num?
    ensures r.Num? ==> r.value == a.value + b.value
  {
    if a.Num? && b.Num? then Num(a.value + b.value) else NaN
  }

  /** `a - b`: `NaN` unless both are numbers. */
  function Minus(a: JsNum, b: JsNum): (r: JsNum)
    ensures r.Num? <==> a.Num? && b.Num?
    ensures r.Num? ==> r.value == a.value - b.value
  {
    if a.Num? && b.Num? then Num(a.value - b.value) else NaN
  }

  /** Entry `i` of an integer column, `undefined` out of range. */
  function At(s: seq<int>, i: JsNum): (r: JsNum)
    ensures r.Num? <==> i.Num? && 0 <= i.value < |s|
  {
    if i.Num? && 0 <= i.value < |s| then Num(s[i.value]) else Undefined
  }

  /** Entry `i` of a text column, absent out of range. */
  function TextAt(s: seq<string>, i: JsNum): (r: Option<string>)
    ensures r.Some? <==> i.Num? && 0 <= i.value < |s|
  {
    if i.Num? && 0 <= i.value < |s| then Some(s[i.value]) else None
  }

  /** An element of a loci: a unit and one index into its elements. */
  datatype LociEntry = LociEntry(unit: Unit, index: JsNum)

  /** A loci, either built here from entries or the one a wrapper's `getLoci` hands back for
      a sequence index. */
  datatype Loci =
    | ElementLoci(entries: seq<LociEntry>)
    | WrapperLoci(wrapperKey: string, seqIdx: JsNum)

  /** A resolved residue location (`TLocation`). Absent fields are `undefined`. */
  datatype Location = Location(
    loci: Option<Loci>,
    chainType: Option<string>,
    chainName: Option<string>,
    structureKey: Option<string>,
    wrapperKey: Option<string>,
    chainGroupId: Option<int>,
    atomIndex: JsNum,
    elements: seq<JsNum>,
    seqIdx: JsNum,
    chainIndex: JsNum,
    molecule: Option<string>)

  datatype ProteinStatus = Loading | Loaded | Failed

  /** The engine data a protein accumulates while it loads; every field may be missing. */
  datatype MolData = MolData(
    structureKey: Option<string>,
    structure: Option<Structure>,
    wrappers: Option<seq<Wrapper>>,
    structureLabel: Option<string>,
    modelId: Option<string>)

  datatype Protein = Protein(
    key: string,
    name: string,
    filename: string,
    filetype: string,
    status: ProteinStatus,
    molData: MolData)

  /** What the loader guarantees of a loaded protein: its structure (valid, with at least one
      unit) and its structure key are set. */
  predicate LoadedValid(p: Protein)
  {
    p.status == Loaded ==>
      p.molData.structure.Some? && p.molData.structureKey.Some? &&
      StructureValid(p.molData.structure.value) &&
      |p.molData.structure.value.units| > 0
  }
}
