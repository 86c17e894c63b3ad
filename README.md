# molstar-builder core, modelled in Dafny

molstar-builder wraps the Mol* molecular viewer in React hooks. Around the engine sits
its own index, list and text logic. This project models that logic and proves what it
promises:

- **the PDB text splitter** (`splitStructure`): one labelled block of ATOM/HETATM,
  ANISOU, HELIX, SHEET and CONECT records per unit of a structure;
- **location resolution** (`getLocation*`, `getLoci`, `getLociByWrapper`): mapping
  between atom indices, (chain, author sequence number) pairs, residue indices, chain
  groups and sequence wrappers;
- **the buffered selection manager** (`useGetSelection`): pending additions and
  removals flushed by `sync`, range toggling and the marker-status merge;
- **the protein list** (`useGetProteins`): a queue of works replayed over the keyed
  list, and the five-state show/hide machine that decides when a structure's
  visibility is toggled;
- **visibility bookkeeping and component bundles** (`useGetMesurements`,
  `useTransformRepres`);
- **surroundings pre- and post-processing** (`getSurrounding`): seed structures
  grouped by protein and chain, collapsed and sorted residue indices from the query's
  result;
- **string helpers**: `getUniqueNameFromArr`, `getFilenameFromUrl`,
  `getFilenameWithoutType`, `getFileType` and `isEmpty`.

How the model is shaped:

- The engine's `atom_site` columns, units, wrappers and statistics are plain Dafny
  values (`StructureModel`): sequences of integers and strings.
- JavaScript's `undefined` and `NaN` are modelled where the code meets them: a `JsNum`
  is a number, `NaN` or `undefined`, and `===` is written out as `StrictEq`.
- A dereference of a missing object, which throws a `TypeError`, is the `Throws` case
  of an `Outcome`.
- Engine calls whose results the logic uses are parameters. The spatial query,
  component creation and the "does this cell resolve" test are function-valued
  parameters; the structures the engine reports are a list passed in.
- Calls whose effect is only on the viewer (toggling visibility, removing a
  transform) are recorded in a log field, so the contracts can say exactly which calls
  are made.
- Stateful hooks are classes. `SelectionManager`, `ProteinStore`, `TransformStore` and
  `MeasurementStore` hold the refs and state each hook mutates. Each loop of the source
  is a method with invariants, proved against a specification function whose
  properties are lemmas.

One module per source file: `Common`, `StructureModel`, `JsUtils`, `SplitStructure`,
`GetLoci`, `GetLocation`, `Grouping` (the `find`-or-push and object-key bucketing the
hooks share), `Selection`, `Surrounding`, `Proteins`, `TransformRepres`,
`Measurements`.

## Model

| member | source | states |
|---|---|---|
| JsUtils.UniqueName | src/utils/getUniqueNameFromArr.ts:2-14 | the result is never in `arr`; it is `str` itself when `str` is free, and otherwise `str_k` for the smallest `k >= 2` whose name is free |
| JsUtils.GetUniqueNameFromArr | src/utils/getUniqueNameFromArr.ts:2-14 | the `while` loop over `counter` returns exactly `UniqueName(arr, str)` and leaves `arr` alone, terminating because each round tries a new name of `arr` |
| JsUtils.CandidateInjective | src/utils/getUniqueNameFromArr.ts:7-8 | different rounds try different names |
| JsUtils.NotYetTried | src/utils/getUniqueNameFromArr.ts:6-8 | a later round's name was not tried in any earlier round |
| JsUtils.FirstFreeRound | src/utils/getUniqueNameFromArr.ts:6-9 | the round the loop stops at has a free name and every earlier round's name is taken |
| JsUtils.FirstFreeRoundIs | src/utils/getUniqueNameFromArr.ts:6-9 | a round whose name is free after only taken ones is the first free round |
| JsUtils.GetFilenameFromUrl | src/utils/getFilenameFromUrl.ts:2-6 | the last `/`-segment cut at the first `?` and then at the first `#`; absent exactly when that is empty or has no `.`; a result has a `.` and no `/`, `?` or `#` |
| JsUtils.SplitFirst | src/utils/getFilenameFromUrl.ts:2 | `s.split(sep)[0]` is the text before the first separator |
| JsUtils.SplitLast | src/utils/getFilenameFromUrl.ts:2 | `s.split(sep).pop()` is the text after the last separator |
| JsUtils.GetFilenameWithoutType | src/utils/getFilenameWithoutType.ts:2-6 | a name without `.` is unchanged; otherwise the text before the last `.`; always a prefix, and strictly shorter when there is a `.` |
| JsUtils.GetFileType | src/utils/getFileType.ts:3 | `''` for a missing name; otherwise the text after the last `.` (the whole name without one); no `.` in it, and it ends the name |
| JsUtils.NameAndTypeRejoin | src/utils/getFilenameWithoutType.ts:2-6 | for a name with a `.`, name without type + `.` + type gives back the name |
| JsUtils.FileTypeOfTrailingDot | src/utils/getFileType.ts:3 | a name ending in `.` or an empty name has type `''` |
| JsUtils.IsEmptyMeaning | src/utils/isEmpty.ts:2-25 | empty exactly for `null`/`undefined` or a string, array, Map, Set or plain object of size 0; numbers, booleans, functions and non-plain objects never are |
| GetLoci.UnitFor | src/hooks/getLoci.ts:9-17 | the unit found is the first whose running offset passes `seqIdx`; when none is found every offset stays at or below it |
| GetLoci.OffsetMonotone | src/hooks/getLoci.ts:11-15 | the running offset never decreases |
| GetLoci.GetLociOf | src/hooks/getLoci.ts:9-18 | the `for` loop with its `offset` and `break` builds exactly the loci of `LociEntries` |
| GetLoci.GetLociInRange | src/hooks/getLoci.ts:10-16 | for `0 <= seqIdx < total` there is one entry, and its local index lies inside the unit found |
| GetLoci.GetLociEmpty | src/hooks/getLoci.ts:10-18 | no entry exactly when there are no units or `seqIdx >= total`; never more than one |
| GetLoci.DefaultChain | src/hooks/getLociByWrapper.ts:18 | `chain \|\| 'A'`: never empty, the given chain when it is non-empty |
| GetLoci.WrapperOfChain | src/hooks/getLociByWrapper.ts:18 | a wrapper found is a sequence wrapper whose chain id is the defaulted chain |
| GetLoci.PolymerOffset | src/hooks/getLociByWrapper.ts:29-30 | a number exactly when `realIndex` is a position of the polymer elements |
| GetLoci.LociByWrapper | src/hooks/getLociByWrapper.ts:18-31 | absent exactly when no wrapper has the defaulted chain or the index is not in its sequence map; otherwise the one-element loci at the polymer offset, from the first matching wrapper |
| SplitStructure.AtomIdPad | src/hooks/splitStructure/index.ts:325-370 | the slot-filling loop and the array write give exactly `AtomNameField(input)` |
| SplitStructure.AtomNameFieldSlots | src/hooks/splitStructure/index.ts:325-370 | the field is 4 characters; slot 1 is blank exactly when there is no letter, slot 0 exactly when there is no digit; slot 3 is used only with two letters and two digits |
| SplitStructure.AtomNameFieldTwoLetters | src/hooks/splitStructure/index.ts:325-370 | `"CA"` gives `" CA "` |
| SplitStructure.AtomNameFieldNumberedHydrogen | src/hooks/splitStructure/index.ts:325-370 | `"HB1"` gives `"1HB "` |
| SplitStructure.AtomNameFieldOneLetter | src/hooks/splitStructure/index.ts:325-370 | `"N"` gives `" N  "` |
| SplitStructure.AtomNameFieldIgnoresOthers | src/hooks/splitStructure/index.ts:325-370 | characters that are neither digits nor letters play no part |
| SplitStructure.ReadSlots | src/hooks/splitStructure/index.ts:327-347 | the loop over the name leaves the four remembered characters in the state the slot rules describe |
| SplitStructure.WriteSlots | src/hooks/splitStructure/index.ts:350-369 | the array of four blanks filled from the remembered characters |
| SplitStructure.ShortChainLabel | src/hooks/splitStructure/index.ts:17-18 | the chain-group label cut at the first space and then at the first `_`: no space or `_` in it, and a prefix of the label |
| SplitStructure.BuildChainInfos | src/hooks/splitStructure/index.ts:11-20 | the nested `forEach` builds exactly `ChainInfos` |
| SplitStructure.InfoMapDomain | src/hooks/splitStructure/index.ts:11-20 | an id has an entry exactly when some chain group has it |
| SplitStructure.InfoMapLastWins | src/hooks/splitStructure/index.ts:11-20 | the entry of an id is the one written by its last chain group |
| SplitStructure.BuildHelixContent | src/hooks/splitStructure/index.ts:129-158 | the `while` loop appends one HELIX record per row, in order |
| SplitStructure.HelixFields | src/hooks/splitStructure/index.ts:132-156 | a HELIX record has 15 fields |
| SplitStructure.BuildSheetContent | src/hooks/splitStructure/index.ts:159-186 | the `while` loop appends one SHEET record per row, in order |
| SplitStructure.SheetFields | src/hooks/splitStructure/index.ts:162-184 | a SHEET record has 14 fields |
| SplitStructure.IndexByParams | src/hooks/splitStructure/index.ts:188-208 | absent when the chain id is absent; a found index holds the atom name |
| SplitStructure.IndexByParamsMeaning | src/hooks/splitStructure/index.ts:188-208 | a found index is the first with the atom name inside the residue's span between the first and last sequence-id matches of the chain; absence means no chain, no such residue in the chain, or no such name in the span |
| SplitStructure.GetIndexByParams | src/hooks/splitStructure/index.ts:188-208 | the scans inward from both ends return exactly `IndexByParams` |
| SplitStructure.FirstIn | src/hooks/splitStructure/index.ts:192-195 | the first index in `[lo, hi]` holding the value, or -1 when none does |
| SplitStructure.LastIn | src/hooks/splitStructure/index.ts:196-199 | the last index in `[lo, hi]` holding the value, or -1 when none does |
| SplitStructure.CollectConnectPairs | src/hooks/splitStructure/index.ts:209-217 | the loop keeps exactly `ConnPairs` |
| SplitStructure.ConnPairs | src/hooks/splitStructure/index.ts:209-217 | at most one pair per row, both partners atoms of the structure |
| SplitStructure.ConnPairsKeepsResolved | src/hooks/splitStructure/index.ts:209-217 | every row whose partners both resolve leaves its pair |
| SplitStructure.ConnPairsOnlyResolved | src/hooks/splitStructure/index.ts:209-217 | every kept pair is the resolved pair of some row |
| SplitStructure.ConectTextEmpty | src/hooks/splitStructure/index.ts:300-311 | a unit gets no CONECT text exactly when no pair has both atoms in its range |
| SplitStructure.ConnectContent | src/hooks/splitStructure/index.ts:300-308 | the `forEach` writes exactly `ConectText` |
| SplitStructure.AtomFields | src/hooks/splitStructure/index.ts:245-266 | an ATOM/HETATM record has 17 fields |
| SplitStructure.AtomRecordLine | src/hooks/splitStructure/index.ts:245-266 | the record of one atom is `AtomLine`, its atom name field packed by `atomIdPad` |
| SplitStructure.AnisoComponents | src/hooks/splitStructure/index.ts:271 | six components, entries 0, 4, 8, 3, 6, 7 of the row-major matrix |
| SplitStructure.AllZeroOfSix | src/hooks/splitStructure/index.ts:272 | the components count as zero exactly when all six are `"0"` |
| SplitStructure.AnisoFields | src/hooks/splitStructure/index.ts:274-294 | an ANISOU record has 17 fields |
| SplitStructure.AnisoRecord | src/hooks/splitStructure/index.ts:269-296 | the ANISOU text of one atom: a record only when the table is non-empty, the atom has a row and its components are not all zero |
| SplitStructure.AppendAtomRecords | src/hooks/splitStructure/index.ts:229-299 | the atom loop appends the records of atoms `start..end`, in order |
| SplitStructure.BuildUnitContent | src/hooks/splitStructure/index.ts:221-311 | a unit's text: HELIX and SHEET text first for a polymer, then the atom records, then its CONECT records |
| SplitStructure.UnitSpan | src/hooks/splitStructure/index.ts:229-230 | a unit's first and last elements are atoms of the structure, in order |
| SplitStructure.UnitContentPrefix | src/hooks/splitStructure/index.ts:225-231 | a polymer unit starts with all HELIX then all SHEET text, not filtered by chain; any other unit starts with its own atom records |
| SplitStructure.RawLabels | src/hooks/splitStructure/index.ts:312-313 | the label each unit asks for, before renaming; SplitBlocks states that block `k` is named by `UniqueName` of that label against the labels before it |
| SplitStructure.UniqueLabels | src/hooks/splitStructure/index.ts:312-316 | one label per unit |
| SplitStructure.UniqueLabelsShape | src/hooks/splitStructure/index.ts:312-316 | each label is `getUniqueNameFromArr` against the labels before it; a label not used before stays as asked; no two labels are equal |
| SplitStructure.UnitBlocks | src/hooks/splitStructure/index.ts:221-317 | the unit loop pairs each unique label with its unit's content, in unit order |
| SplitStructure.SplitStructure | src/hooks/splitStructure/index.ts:5-318 | `splitStructure` returns exactly `Split` |
| SplitStructure.SplitOneChain | src/hooks/splitStructure/index.ts:6-8 | the result is `"oneChain"` exactly for a single-unit structure |
| SplitStructure.SplitBlocks | src/hooks/splitStructure/index.ts:221-317 | otherwise one block per unit, in unit order: block `k` holds unit `k`'s content and the de-duplicated label, which is the asked-for label when it is still free |
| SplitStructure.SplitLabelsDistinct | src/hooks/splitStructure/index.ts:312-316 | no two blocks carry the same label |
| GetLocation.Columns | src/hooks/utils/getLocation.ts:24-42 | the `atom_site` columns of the structure; all empty without one (the read throws and the error is swallowed) |
| GetLocation.ChainName | src/hooks/utils/getLocation.ts:92 | the wrapper's chain id when it is a sequence wrapper with a non-empty one, else the atom's author chain id |
| GetLocation.Molecule | src/hooks/utils/getLocation.ts:100 | the author residue name, falling back to the label residue name when missing or empty |
| GetLocation.RunMeaning | src/hooks/utils/getLocation.ts:162-169 | the collected run is the maximal run of consecutive indices from `from` whose residue index equals `seqIdx` |
| GetLocation.ResidueRun | src/hooks/utils/getLocation.ts:162-169 | the `while` loop collects exactly that run |
| GetLocation.MatchBounds | src/hooks/utils/getLocation.ts:44-53 | the first and last matches of (chain, sequence number) are both -1 or ordered |
| GetLocation.IdsBetween | src/hooks/utils/getLocation.ts:55-57 | one serial id per index from the first match to the last |
| GetLocation.CollectIds | src/hooks/utils/getLocation.ts:55-57 | the loop collects exactly those ids |
| GetLocation.ChainGroupOf | src/hooks/utils/getLocation.ts:64-76 | absent exactly when no unit's element range covers the atom; otherwise the chain group of the first unit that does |
| GetLocation.FindChainGroup | src/hooks/utils/getLocation.ts:64-76 | the unit loop with `break` finds exactly that chain group |
| GetLocation.WrapperOfGroup | src/hooks/utils/getLocation.ts:80-81 | a wrapper found has the chain group; absent exactly when no wrapper has it |
| GetLocation.ChainLocation | src/hooks/utils/getLocation.ts:59-101 | the location carries the scanned elements, atom index first id minus one, the requested index, the structure key and the chain group; loci only when the residue index is not -1 and a wrapper is found |
| GetLocation.LocationByChainIndexScan | src/hooks/utils/getLocation.ts:9-102 | nothing unless the protein is LOADED; then a location or a throw |
| GetLocation.LocationByChainIndexAsWritten | src/hooks/utils/getLocation.ts:44-53 | the resolver as written, its element scan comparing with the chain as given; AsWrittenWithoutChain and AsWrittenWithChain state what that means |
| GetLocation.AsWrittenWithoutChain | src/hooks/utils/getLocation.ts:44-53 | for every LOADED protein with well-formed columns, asking without a chain finds no atom: elements `[undefined]`, atom index `NaN` |
| GetLocation.AsWrittenWithChain | src/hooks/utils/getLocation.ts:22-53 | with a non-empty chain the code as written and the scan on the defaulted chain give the same result |
| GetLocation.LocationByChainIndex | src/hooks/utils/getLocation.ts:9-102 | the corrected resolver of the first Findings row, scanning the defaulted chain; ByChainIndexElements and ByChainIndexSeqIdx state what it finds |
| GetLocation.GetLocationByChainIndex | src/hooks/utils/getLocation.ts:9-102 | the two loops compute exactly `LocationByChainIndexAsWritten`, the code as written |
| GetLocation.ScanElements | src/hooks/utils/getLocation.ts:51-59 | when an atom matches, the elements are the serial ids from the first to the last match and the atom index is the first serial minus one |
| GetLocation.ByChainIndexElements | src/hooks/utils/getLocation.ts:51-59 | for a LOADED protein with a matching atom, the location's elements and atom index are as above |
| GetLocation.ByChainIndexSeqIdx | src/hooks/utils/getLocation.ts:22-62 | the residue index is the requested number minus the author sequence number of the defaulted chain's first atom |
| GetLocation.ChainOmittedAsWritten | src/hooks/utils/getLocation.ts:51-53 | with the chain omitted, the code as written gives elements `[undefined]` and atom index `NaN` where the corrected scan gives `[1]` and `0` |
| GetLocation.OneAtomProtein | src/hooks/utils/getLocation.ts:19-21 | a LOADED protein of one atom of chain A, sequence number 7, serial 1 |
| GetLocation.LocationByAtomIndex | src/hooks/utils/getLocation.ts:104-192 | a location found has the unit's chain group and the atom index asked for |
| GetLocation.ByAtomIndexFound | src/hooks/utils/getLocation.ts:120-135 | a location exactly when the first LOADED protein with the model id has wrappers and one has the unit's chain group |
| GetLocation.ByAtomIndexRun | src/hooks/utils/getLocation.ts:160-170 | its residue index is the atom's, and its elements are the maximal run of that residue starting at the atom |
| GetLocation.GetLocationByAtomIndex | src/hooks/utils/getLocation.ts:104-192 | the method computes exactly `LocationByAtomIndex` |
| GetLocation.LocationBySeqIdx | src/hooks/utils/getLocation.ts:281-349 | nothing unless the protein is LOADED; a location found carries the residue index, loci and a chain group |
| GetLocation.BySeqIdxResult | src/hooks/utils/getLocation.ts:288-314 | only a message wrapper throws; nothing when the residue index is not in the first unit's column; otherwise the atom index is its first position and the elements are the maximal run from there |
| GetLocation.GetLocationBySeqIdx | src/hooks/utils/getLocation.ts:281-349 | the method computes exactly `LocationBySeqIdx` |
| GetLocation.RunStartsMembers | src/hooks/utils/getLocation.ts:219-229 | an element is a seed exactly when it opens a residue run |
| GetLocation.ResidueRunStarts | src/hooks/utils/getLocation.ts:219-229 | the loop remembering the last residue keeps exactly the run starts |
| GetLocation.ResolvedMembers | src/hooks/utils/getLocation.ts:231-242 | every kept location is some seed's location, and every seed that resolves contributes its location; unresolved seeds are dropped |
| GetLocation.ResolveSeeds | src/hooks/utils/getLocation.ts:231-242 | the inner loop keeps exactly `Resolved` |
| GetLocation.UnitSeeds | src/hooks/utils/getLocation.ts:215-230 | the seeds are every element of a polymer unit, else the run starts |
| GetLocation.ResolveUnits | src/hooks/utils/getLocation.ts:214-243 | the unit loop collects exactly `LocationsOfUnits` |
| GetLocation.LocationsOfUnitsMembers | src/hooks/utils/getLocation.ts:213-244 | a location is collected exactly when it is resolved from the seeds of one of the units |
| GetLocation.CollectMeaning | src/hooks/utils/getLocation.ts:263-274 | the residue loop throws exactly when one of its lookups throws; otherwise it holds every defined lookup once, in the order of the lookups |
| GetLocation.CollectThrows | src/hooks/utils/getLocation.ts:260-276 | once the residue loop throws, a longer loop throws too |
| GetLocation.CollectSteps | src/hooks/utils/getLocation.ts:260-276 | the loop stops at the first throw and pushes each defined result |
| GetLocation.AtomIndexLocation | src/hooks/utils/getLocation.ts:117-123 | on an unset unit or structure: throws exactly when the unit is unset, or the structure is unset and some protein is LOADED; an unset structure otherwise resolves nothing |
| GetLocation.CountStructure | src/hooks/utils/getLocation.ts:205 | the first set structure of the chain, unit and structure locations; unset exactly when all three are |
| GetLocation.CountUnits | src/hooks/utils/getLocation.ts:207-212 | the units of the unit locations, one per location, throwing when one is unset; or the units of the first structure location, throwing when its structure is unset |
| GetLocation.StatsLocations | src/hooks/utils/getLocation.ts:194-279 | a counted selection throws when its units do; with a structure it gives exactly the locations of the units' seeds; without one it gives nothing, and throws exactly when a seed meets a LOADED protein. Otherwise the first element's throw, nothing, or its location first, at most `max(residueCount, 1)` locations, and with more residues the following residues |
| GetLocation.FollowingResidues | src/hooks/utils/getLocation.ts:260-276 | the location comes first, followed by at most `residueCount - 1` more |
| GetLocation.FollowingResiduesMeaning | src/hooks/utils/getLocation.ts:260-276 | throws exactly when no protein has the structure key or one lookup of the following author sequence numbers throws; otherwise every defined lookup, in order |
| GetLocation.LocationsByStats | src/hooks/utils/getLocation.ts:194-279 | the code as written: the units come from the unit locations only when the unit count is set (line 207) |
| GetLocation.LocationsByStatsCorrected | src/hooks/utils/getLocation.ts:207 | the units come from the unit locations when the chain or the unit count is set |
| GetLocation.ChainSelectionAsWritten | src/hooks/utils/getLocation.ts:207-211 | a chain selection without a structure location throws as written and resolves once corrected |
| GetLocation.ChainSelectionCorrected | src/hooks/utils/getLocation.ts:204-212 | corrected, a chain selection whose unit locations are set resolves exactly those units against the chain's structure |
| GetLocation.GetLocationByStats | src/hooks/utils/getLocation.ts:194-279 | the method computes exactly `LocationsByStats`, the code as written |
| GetLocation.Keys | src/hooks/utils/getLocation.ts:352-355 | one `chainName + chainIndex` key per location; IsLocationListEqualMeaning states what comparing them means |
| GetLocation.IsLocationListEqualMeaning | src/hooks/utils/getLocation.ts:351-356 | two lists are equal exactly when their keys form the same multiset, whatever their order; lists of different lengths never are |
| Grouping.GroupByMeaning | src/hooks/utils/getSurrounding.ts:22-35 | the buckets have distinct keys, in first-appearance order, each holding exactly the items with its key, in order; items without a key are skipped |
| Grouping.GroupItems | src/hooks/utils/getSurrounding.ts:62-70 | the find-or-create-and-push loop builds exactly `GroupBy` |
| Grouping.MembersHave | src/hooks/useTransformRepres.ts:66-69 | an item is in a key's bucket exactly when it is in the list with that key |
| Grouping.GroupBySum | src/hooks/utils/getSurrounding.ts:84-90 | when every item has a key, summing over the buckets counts every item once |
| Grouping.SumOfPermutation | src/hooks/utils/getSurrounding.ts:84 | a sum does not depend on the order of its terms |
| Grouping.ObjectKeyOrderMeaning | src/hooks/utils/getSurrounding.ts:72 | `Object.keys` order is a permutation of the buckets: array-index keys first, ascending, then the other keys in creation order |
| Grouping.ObjectKeyOrderAscending | src/hooks/useTransformRepres.ts:198 | the array-index keys come first, ascending |
| Grouping.ObjectKeyOrderRest | src/hooks/useTransformRepres.ts:198 | the other keys follow in creation order |
| Grouping.DistinctKeysPermutation | src/hooks/utils/getSurrounding.ts:72 | reordering buckets keeps their keys distinct |
| Grouping.KeysMetPermutation | src/hooks/utils/getSurrounding.ts:72 | reordering buckets keeps the same keys |
| Grouping.MembersFromPermutation | src/hooks/utils/getSurrounding.ts:72 | reordering buckets keeps each bucket's members |
| Selection.RemoveFirst | src/hooks/useGetSelection.ts:60-69 | a removal leaves the list alone when nothing matches; otherwise it splices out exactly the first entry with the same structure and chain group and an equal atom index, author sequence number or residue index |
| Selection.RemoveFirstShrinks | src/hooks/useGetSelection.ts:60-69 | a removal deletes at most one entry, one that was there |
| Selection.ApplyRemovesShrinks | src/hooks/useGetSelection.ts:60-69 | the removals take away at most one existing entry each |
| Selection.RemoveEach | src/hooks/useGetSelection.ts:60-69 | the `forEach` of splices computes exactly `ApplyRemoves` |
| Selection.FirstOfKeyMeaning | src/hooks/useGetSelection.ts:70-72 | an entry survives the filter exactly when its key equals itself (no `NaN`) and no earlier entry has that key |
| Selection.KeptMembers | src/hooks/useGetSelection.ts:70-72 | a position survives exactly when it is the first of its key |
| Selection.KeptIncreasing | src/hooks/useGetSelection.ts:70-72 | survivors keep their relative order |
| Selection.Dedup | src/hooks/useGetSelection.ts:70-72 | the filtered list is the surviving entries, in order; DedupUnique and DedupKeepsFirst state what survives |
| Selection.DedupUnique | src/hooks/useGetSelection.ts:70-72 | afterwards no two entries share (structure, chain name, author sequence number) |
| Selection.DedupKeepsFirst | src/hooks/useGetSelection.ts:70-72 | the first entry of each key is kept |
| Selection.Synced | src/hooks/useGetSelection.ts:56-76 | with both buffers empty the selections are returned unchanged; the result is never longer than selections plus additions |
| Selection.SyncedUnique | src/hooks/useGetSelection.ts:59-72 | after a flush no two entries share a key |
| Selection.Consecutive | src/hooks/useGetSelection.ts:120 | the range `start..end`, one entry per residue index |
| Selection.MarkOne | src/hooks/useGetSelection.ts:125-128 | marking a residue index overwrites only its entry with -1 |
| Selection.MarkedMeaning | src/hooks/useGetSelection.ts:121-130 | after the loop an entry is -1 exactly when some counted selection has that residue index, else it keeps it |
| Selection.MarkRange | src/hooks/useGetSelection.ts:121-130 | the in-place marking of the `range` array computes exactly `Marked`, counting every selection when no key is given |
| Selection.IndexOfArray | src/hooks/useGetSelection.ts:125 | `range.indexOf(v)` on the array |
| Selection.UnmarkedMembers | src/hooks/useGetSelection.ts:131 | the filter keeps exactly the entries other than -1 |
| Selection.UnmarkedNone | src/hooks/useGetSelection.ts:131-134 | a fully marked range leaves nothing, so the whole range is used |
| Selection.RangeOutsMeaning | src/hooks/useGetSelection.ts:118-134 | the residue indices clicked are those of the range not yet selected (on the wrapper with the given key, or on any wrapper without one), or the whole range when all are selected |
| Selection.OtherWrapperMasksRange | src/hooks/useGetSelection.ts:124 | as written a selection on wrapper B hides residue 3 from a range on wrapper A; compared by wrapper key it does not |
| Selection.MergeStatus | src/hooks/useGetSelection.ts:145-148 | every key of either map is kept, queued statuses win, the others keep their status |
| Selection.SelectionManager.Sync | src/hooks/useGetSelection.ts:56-76 | the selections become `Synced`; the buffers are emptied after a flush and left alone when both were empty; marker state is unchanged |
| Selection.SelectionManager.Buffer | src/hooks/useGetSelection.ts:84-89 | resolved locations join the add buffer for `add`, the remove buffer for `remove`, neither otherwise; a throw changes nothing |
| Selection.SelectionManager.ModifyRe | src/hooks/useGetSelection.ts:78-93 | the resolved locations go to the add buffer for `add`, to the remove buffer for `remove`, and nowhere otherwise; a resolver throw changes nothing |
| Selection.SelectionManager.ClearRe | src/hooks/useGetSelection.ts:95-99 | no selections and both buffers empty |
| Selection.SelectionManager.HandleRangeSelection | src/hooks/useGetSelection.ts:117-142 | flushes the buffers, sorts the endpoints and returns the residue indices to click, counting every selection whatever its wrapper, as line 124 does |
| Selection.SelectionManager.HandleMarkerChange | src/hooks/useGetSelection.ts:154-157 | queues the status for the wrapper key |
| Selection.SelectionManager.HandleUpdateMarker | src/hooks/useGetSelection.ts:144-150 | merges the queue over the statuses and empties it |
| Selection.SelectionManager.HandleMarkerChangeNow | src/hooks/useGetSelection.ts:159-162 | queues and merges at once: the wrapper key gets the new status and the queue is empty |
| Proteins.Patched | src/hooks/useGetProteins.ts:91-94 | an update merges the top-level fields; the key and the engine data stay |
| Proteins.MolDataPatched | src/hooks/useGetProteins.ts:104-110 | `updateMolData` merges into the engine data only |
| Proteins.IndexOfKey | src/hooks/useGetProteins.ts:82 | the first index with the key, or -1 when none has it |
| Proteins.FindKey | src/hooks/useGetProteins.ts:82 | `findIndex` as a loop |
| Proteins.StepCreate | src/hooks/useGetProteins.ts:81-87 | with unique keys, `create` replaces the entry with that key in place or appends; keys stay unique and the other entries keep their places |
| Proteins.StepUpdate | src/hooks/useGetProteins.ts:88-95 | `update` merges into the entry with that key and leaves every other entry; a missing key leaves the list unchanged |
| Proteins.StepRemove | src/hooks/useGetProteins.ts:96-100 | `remove` deletes the first entry with that key and keeps the others in order; a missing key leaves the list unchanged |
| Proteins.StepRemoveUnique | src/hooks/useGetProteins.ts:96-100 | with unique keys, the removed key is gone and keys stay unique |
| Proteins.StepUpdateMolData | src/hooks/useGetProteins.ts:101-111 | `updateMolData` touches only the engine data of the entry with that key |
| Proteins.ReplayAppend | src/hooks/useGetProteins.ts:78-113 | works are applied in queue order |
| Proteins.ReplayKeepsKeysUnique | src/hooks/useGetProteins.ts:78-113 | a replay without placeholders keeps keys unique |
| Proteins.ApplyWork | src/hooks/useGetProteins.ts:79-112 | one pass of the `forEach` applies exactly one work |
| Proteins.ReplayEach | src/hooks/useGetProteins.ts:78-113 | the `forEach` replays exactly the queue |
| Proteins.ProteinStore.SyncWorks | src/hooks/useGetProteins.ts:76-118 | the list becomes the replay of the queue, and the queue is emptied |
| Proteins.LoadedName | src/hooks/useGetProteins.ts:175 | the given name, else the file name, else `'unknown protein'`, with its extension removed |
| Proteins.LoadedFromFileName | src/hooks/useGetProteins.ts:175-177 | without a given name, the protein's name, a `.` and its file type give back the file name |
| Proteins.ProteinStore.LoadProtein | src/hooks/useGetProteins.ts:158-187 | queues the creation of a LOADING protein keyed by its structure, with that name and the file's type |
| Proteins.FromFile | src/hooks/useGetProteins.ts:173-182 | the protein a file produces: LOADING, keyed and engine-referenced by its structure, with the file's name, its `LoadedName` and its file type |
| Proteins.ProteinStore.Push | src/hooks/useGetProteins.ts:183 | the work joins the end of the queue and nothing else of the store changes |
| Proteins.ProteinStore.UpdateProteinMolData | src/hooks/useGetProteins.ts:189-192 | queues an `updateMolData` work |
| Proteins.ProteinStore.RemoveProtein | src/hooks/useGetProteins.ts:194-202 | queues a `remove` work |
| Proteins.UnsettledKeys | src/hooks/useGetProteins.ts:53-57 | exactly the keys of the LOADING proteins |
| Proteins.LoadingKeys | src/hooks/useGetProteins.ts:53-57 | the filter and map compute exactly `UnsettledKeys` |
| Proteins.SyncTargetsMembers | src/hooks/useGetProteins.ts:60-68 | a reported structure is synced exactly when a LOADING protein has its key |
| Proteins.PendingInfos | src/hooks/useGetProteins.ts:60-68 | the filter keeps exactly those structures |
| Proteins.SyncNeedsLoading | src/hooks/useGetProteins.ts:53-57 | with no protein LOADING, a sync does nothing |
| Proteins.IndexOfStructure | src/hooks/useGetProteins.ts:231 | the first protein whose engine data carries the structure key, or -1 |
| Proteins.FindStructure | src/hooks/useGetProteins.ts:231 | `find` as a loop |
| Proteins.SyncThenReplay | src/hooks/useGetProteins.ts:236-253 | replaying the two queued works marks the protein LOADED and merges its engine data; no other entry changes |
| Proteins.ProteinStore.MolstarSyncWith | src/hooks/useGetProteins.ts:47-72 | the queue and the status map become `MolstarSync` of the reported structures |
| Proteins.ProteinStore.SyncStructures | src/hooks/useGetProteins.ts:204-261 | the queue and the status map become `SyncAll` of the synced structures |
| Proteins.Next | src/hooks/useGetProteins.ts:318-330 | a settled state steps to a pending one and a pending state settles |
| Proteins.TwoStepsSwitch | src/hooks/useGetProteins.ts:318-330 | two steps from shown reach hidden and from hidden reach shown |
| Proteins.Transition | src/hooks/useGetProteins.ts:318-330 | one step writes only that key's status |
| Proteins.Desired | src/hooks/useGetProteins.ts:263-271 | shown exactly when the visible list is empty or names the key, else hidden |
| Proteins.CheckMeaning | src/hooks/useGetProteins.ts:263-281 | the check does nothing exactly when the status is pending or already the desired one |
| Proteins.CheckSettles | src/hooks/useGetProteins.ts:263-281 | a pending status never toggles; a toggle logs the key once, leaves it pending, and a second check does nothing |
| Proteins.ToggleReachesDesired | src/hooks/useGetProteins.ts:263-330 | a toggle followed by its completion leaves the protein in its desired state with exactly one toggle asked for |
| Proteins.ProteinStore.VisibleCheck | src/hooks/useGetProteins.ts:263-282 | the ledger becomes `Check` for the key |
| Proteins.ProteinStore.UpdateStatus | src/hooks/useGetProteins.ts:318-332 | the ledger becomes the completion step for the key |
| Proteins.Targets | src/hooks/useGetProteins.ts:287-289 | the given keys, or every protein's key when none is given |
| Proteins.ProteinKeys | src/hooks/useGetProteins.ts:288 | one key per protein, in order |
| Proteins.KeysOf | src/hooks/useGetProteins.ts:288 | `map(p => p.key)` as a loop |
| Proteins.SweepIsCheck | src/hooks/useGetProteins.ts:292-299 | the sweep toggles a protein exactly when it is LOADED and the visibility check would toggle it |
| Proteins.SweepStatus | src/hooks/useGetProteins.ts:291-311 | every protein ends in the status its targets decide, judged on the state before the sweep; no other key changes |
| Proteins.SweepLog | src/hooks/useGetProteins.ts:291-311 | with unique keys the sweep asks for exactly those toggles, each once |
| Proteins.ToggledKeysMembers | src/hooks/useGetProteins.ts:291-311 | a key is toggled exactly when its protein's state contradicts the targets |
| Proteins.ProteinStore.SweepProtein | src/hooks/useGetProteins.ts:301-310 | one protein's step of the sweep |
| Proteins.ProteinStore.UpdateVisibleProteins | src/hooks/useGetProteins.ts:284-315 | stores the visible list and applies the sweep to the ledger |
| Surrounding.ProteinGroupsMeaning | src/hooks/utils/getSurrounding.ts:22-35 | residues are bucketed by owning protein, in first-appearance order |
| Surrounding.ProteinGroupsLoaded | src/hooks/utils/getSurrounding.ts:24-25 | each bucket names a LOADED protein |
| Surrounding.ProteinGroupsDrop | src/hooks/utils/getSurrounding.ts:24-25 | a residue whose protein is found and LOADED lands in a bucket |
| Surrounding.ChainGroupsMembers | src/hooks/utils/getSurrounding.ts:62-70 | each chain bucket holds exactly the residues of its chain group, in order |
| Surrounding.ChainGroupsDistinct | src/hooks/utils/getSurrounding.ts:62-70 | no chain group has two buckets |
| Surrounding.ChainGroupsKeys | src/hooks/utils/getSurrounding.ts:62-70 | each chain group met has a bucket and each bucket's group is met |
| Surrounding.ChainGroupsOrder | src/hooks/utils/getSurrounding.ts:72 | buckets of array-index chain groups come first, ascending |
| Surrounding.SortNumbers | src/hooks/utils/getSurrounding.ts:82 | a permutation of the elements, numbers ascending, `undefined` last |
| Surrounding.ParseKey | src/hooks/utils/getSurrounding.ts:74 | `parseInt` of a key: the chain group, or `NaN` |
| Surrounding.AllElements | src/hooks/utils/getSurrounding.ts:76-79 | as many elements as the residues hold together |
| Surrounding.ConcatElements | src/hooks/utils/getSurrounding.ts:76-79 | the pushes collect exactly `AllElements` |
| Surrounding.SeedUnitsMeaning | src/hooks/utils/getSurrounding.ts:72-88 | one seed unit per chain bucket, carrying the parsed chain group and exactly its residues' elements, sorted |
| Surrounding.SeedIndexMap | src/hooks/utils/getSurrounding.ts:87 | the index map sends each chain group to its unit's position, and holds nothing else |
| Surrounding.SeedElementCount | src/hooks/utils/getSurrounding.ts:63-90 | the seed counts every element of every residue once |
| Surrounding.BuildSeedUnit | src/hooks/utils/getSurrounding.ts:76-85 | one bucket's seed unit and its element count |
| Surrounding.BuildSeedFrom | src/hooks/utils/getSurrounding.ts:72-90 | the bucket loop builds the units, the index map and the count |
| Surrounding.BuildSeed | src/hooks/utils/getSurrounding.ts:37-99 | one protein's seed structure is exactly `SeedOf` |
| Surrounding.UnitVisits | src/hooks/utils/getSurrounding.ts:127-129 | one residue index per element, never `NaN` |
| Surrounding.RecordAllMeaning | src/hooks/utils/getSurrounding.ts:125-134 | recording collapses consecutive repeats: no two neighbours equal, every number met is recorded, and nothing else is |
| Surrounding.CollectSeqIdxs | src/hooks/utils/getSurrounding.ts:125-134 | the nested loops with `unshift` record exactly that |
| Surrounding.ResolveSeqIdx | src/hooks/utils/getSurrounding.ts:135 | a location found carries the residue index looked up |
| Surrounding.ResolveAllThrows | src/hooks/utils/getSurrounding.ts:135 | resolving fails exactly when one lookup throws |
| Surrounding.FoundStep | src/hooks/utils/getSurrounding.ts:135 | resolving one more ascending index keeps the result ascending, drawn from the indices and holding every index that resolves |
| Surrounding.ResolveAllFound | src/hooks/utils/getSurrounding.ts:135 | for ascending indices the result ascends by residue index, each location comes from an index, and every index that resolves is there |
| Surrounding.ResolveEach | src/hooks/utils/getSurrounding.ts:135 | the map and filter compute exactly `ResolveAll` |
| Surrounding.ResultOf | src/hooks/utils/getSurrounding.ts:116-136 | a structure with no result contributes nothing |
| Surrounding.ResultOfMeaning | src/hooks/utils/getSurrounding.ts:120-135 | a share ascends by residue index, comes from the indices met, and includes each one that resolves |
| Surrounding.ConcatSharesMeaning | src/hooks/utils/getSurrounding.ts:116-138 | the result throws exactly when a share throws, and is otherwise the shares one after another |
| Surrounding.DefaultRadiusIsFive | src/hooks/utils/getSurrounding.ts:20 | a missing radius behaves as 5 |
| Surrounding.ProteinShare | src/hooks/utils/getSurrounding.ts:37-136 | one protein's share: seed, query, collect and resolve |
| Surrounding.ShareEach | src/hooks/utils/getSurrounding.ts:37-114 | the shares, protein by protein |
| Surrounding.ConcatEach | src/hooks/utils/getSurrounding.ts:116-136 | the shares joined, stopping at the first throw |
| Surrounding.GetSurrounding | src/hooks/utils/getSurrounding.ts:17-139 | `getSurrounding` computes exactly `SurroundingOf` |
| TransformRepres.TrimMeaning | src/hooks/useTransformRepres.ts:184 | `trim` drops exactly the white space at both ends |
| TransformRepres.TrimIdempotent | src/hooks/useTransformRepres.ts:184 | trimming twice is trimming once |
| TransformRepres.Label | src/hooks/useTransformRepres.ts:183-184 | a missing label becomes `''`; the label never starts or ends with white space |
| TransformRepres.ChainFirstIndicesMeaning | src/hooks/useTransformRepres.ts:200 | a position survives the filter exactly when it is the first of its chain index |
| TransformRepres.UniqueChainIndexMeaning | src/hooks/useTransformRepres.ts:200 | survivors are first occurrences, no two share a chain index, and every chain index other than `NaN` keeps one |
| TransformRepres.ChainRunMeaning | src/hooks/useTransformRepres.ts:199-201 | each bucket after filter and sort: first occurrences, distinct and ascending chain indices, every non-`NaN` chain index represented |
| TransformRepres.ChainRunEmpty | src/hooks/useTransformRepres.ts:200 | a bucket is emptied exactly when all its chain indices are `NaN` |
| TransformRepres.UnitFor | src/hooks/useTransformRepres.ts:206 | the unit found has the chain group; none found means no unit has it |
| TransformRepres.Ranges | src/hooks/useTransformRepres.ts:219-225 | two range entries per location |
| TransformRepres.RangesMeaning | src/hooks/useTransformRepres.ts:219-225 | the entries are the positions in the unit's elements of each location's first and last element |
| TransformRepres.BuildRanges | src/hooks/useTransformRepres.ts:220-225 | the pushes build exactly `Ranges` |
| TransformRepres.ElementFor | src/hooks/useTransformRepres.ts:204-227 | empty ranges when no unit has the chain group, two per location otherwise |
| TransformRepres.ElementsOf | src/hooks/useTransformRepres.ts:204-227 | the `map` throws exactly when a bucket is empty, and otherwise gives one element per bucket |
| TransformRepres.BundleThrows | src/hooks/useTransformRepres.ts:198-227 | the bundle throws exactly when some chain group's selections all have a `NaN` chain index |
| TransformRepres.BundleElements | src/hooks/useTransformRepres.ts:190-227 | one element per chain group with `groupedUnits = [[chainGroupId]]`, no set, and the ranges of its filtered, sorted bucket or none without a unit |
| TransformRepres.ComponentRequest | src/hooks/useTransformRepres.ts:182-245 | no request when the cell does not resolve to data; a request carries the trimmed label |
| TransformRepres.GetTransformRepreComponent | src/hooks/useTransformRepres.ts:182-245 | the grouping, filter, sort and map compute exactly `ComponentRequest` |
| TransformRepres.TransformKeyInjective | src/hooks/useTransformRepres.ts:87 | keys `structureKey--atomIndex` of one structure are equal exactly when the atom indices are |
| TransformRepres.LoadedProtein | src/hooks/useTransformRepres.ts:81 | the first LOADED protein with the group's structure key, or none |
| TransformRepres.PlanOfSound | src/hooks/useTransformRepres.ts:76-99 | every request is for a selected atom without a transform of the requested type, and every removal is of a transform of another type |
| TransformRepres.PlanMembersCrashed | src/hooks/useTransformRepres.ts:86-98 | once the loop has thrown nothing further happens |
| TransformRepres.PlanWork | src/hooks/useTransformRepres.ts:76-99 | the nested loops compute exactly `PlanGroups` |
| TransformRepres.SettleAllMeaning | src/hooks/useTransformRepres.ts:101-127 | keys without a request keep their entry; every other entry is unchanged or a visible transform of the requested type |
| TransformRepres.SettleWork | src/hooks/useTransformRepres.ts:101-128 | a rejected request makes the whole call reject; otherwise the settled table |
| TransformRepres.HandledKeepsSameType | src/hooks/useTransformRepres.ts:88-91 | an atom with a transform of the requested type keeps it unchanged |
| TransformRepres.HandledEntries | src/hooks/useTransformRepres.ts:59-132 | entries of unselected atoms are untouched; the rest are unchanged or visible transforms of the requested type |
| TransformRepres.TransformStore.HandleTransformRepres | src/hooks/useTransformRepres.ts:59-132 | stores the handled table when no request rejects, logs the removals of replaced transforms |
| TransformRepres.Toggled | src/hooks/useTransformRepres.ts:46-56 | every entry ends with the negated flag; exactly the entries whose `visible` equalled the flag change |
| TransformRepres.ToggleEach | src/hooks/useTransformRepres.ts:48-54 | the `forEach` flips exactly those entries |
| TransformRepres.TransformStore.HandleToggleTransformVisible | src/hooks/useTransformRepres.ts:46-57 | the table becomes `Toggled` and the flag is negated |
| Measurements.IndicesWhereMeaning | src/hooks/useGetMesurements.ts:54-69 | the picked positions increase and are exactly those satisfying the test |
| Measurements.FlipWhere | src/hooks/useGetMesurements.ts:71-75 | every entry satisfying the test is flipped, the others are unchanged, and nothing else about them changes |
| Measurements.RefsWhere | src/hooks/useGetMesurements.ts:71-75 | one toggle call per flipped entry |
| Measurements.ToggleSettles | src/hooks/useGetMesurements.ts:38-49 | after the toggle every entry shows the negated flag |
| Measurements.ToggleTwice | src/hooks/useGetMesurements.ts:38-49 | toggling twice gives back every entry, shown exactly when the flag is |
| Measurements.NeedsToggleMeaning | src/hooks/useGetMesurements.ts:54-69 | an entry is picked exactly when its visibility disagrees with its target: hidden while the flag is off, shown while on with no protein listed, otherwise shown exactly when its protein is listed |
| Measurements.ReconciledMeaning | src/hooks/useGetMesurements.ts:51-77 | after the effect every entry has its target visibility, and nothing is left to pick |
| Measurements.ReconcileIdempotent | src/hooks/useGetMesurements.ts:51-77 | running the effect twice is running it once |
| Measurements.SelectWhere | src/hooks/useGetMesurements.ts:54-69 | the filters pick exactly `IndicesWhere` |
| Measurements.FlipAt | src/hooks/useGetMesurements.ts:71-75 | each picked entry gets one toggle call and one flip; the others are unchanged |
| Measurements.FlipChosen | src/hooks/useGetMesurements.ts:71-75 | flipping the picked positions is flipping where the test holds |
| Measurements.ReconcileEach | src/hooks/useGetMesurements.ts:54-75 | the two passes compute exactly `FlipWhere` and its calls |
| Measurements.FlipEach | src/hooks/useGetMesurements.ts:40-46 | the toggle's `forEach` computes exactly `FlipWhere` and its calls |
| Measurements.MeasurementStore.GetDistance | src/hooks/useGetMesurements.ts:20-36 | appends one shown entry with both locations, or nothing without a representation |
| Measurements.MeasurementStore.HandleToggleDistanceVisible | src/hooks/useGetMesurements.ts:38-49 | flips the entries equal to the flag, logs their toggles and negates the flag |
| Measurements.MeasurementStore.SyncVisibleProteins | src/hooks/useGetMesurements.ts:51-77 | the list becomes `Reconciled`, with one logged toggle per changed entry |

## Left out

- Mol* engine calls whose effect is only on the viewer: `PluginCommands`, state-tree
  `build`/`commit`, `addRepresentation`, `removeTransform`, `ToggleVisibility`, and the
  click events of range selection. They become log entries or are dropped.
- Engine calls whose results are used: `getLoci` of a wrapper, `Stats.ofLoci`, loci
  construction, `StateObjectRef.resolveAndCheck`, `tryCreateComponent` and the structure
  hash. They become abstract values or function-valued parameters (`Engine`, `Query`).
- The `transformRepres` callback (src/hooks/useTransformRepres.ts:134-168) and
  `tryCreateComponent` (247-269): only engine calls.
- The engine plumbing in src/hooks/useGetProteins.ts:349-472, handleChangeColor.ts,
  changeComponentRepresentation.ts, updateRepresentation.ts and wrapper.ts: not part of
  this model.
- The compiled surroundings query (src/hooks/utils/getSurrounding.ts:101-114): a
  parameter. Writing the radius into the shared module-level expression is modelled only
  as passing the radius.
- Floating-point formatting (`formatFloat`, `toFixed`): coordinates, occupancy, B and the
  ANISOU components are taken as already formatted strings.
- React and ahooks plumbing (state setters, `useLatest`, debounce timers, effects):
  debounced flushes are explicit method calls, and each hook's state is a class field.
- Promise settlement order: requests settle in the order they were issued.
- Network and file I/O in `handleLoadProteinByUrl` and `handleLoadProteinByFile`
  (fetching, reading and parsing the file): the structure key they produce is a
  parameter. `handleLoadProteinByUrl` itself is not part of this model.
- UI event dispatch in src/useMolstar.ts: not part of this model.
- `cloneDeep`: the identity on Dafny values.
- `Object.values` on objects keyed by strings that look like array indices: keys are
  ordered as JavaScript orders them only where the key is a chain-group number. Keys that
  are structure keys are taken in creation order.
- Measurements and transforms the source shares by reference are modelled as positions
  in a list or keys in a map.
- The early returns taken when the plugin is absent: a plugin is always present.
- Proteins.ProteinStore.SyncStructures: the `ToggleVisibility` calls of the protein hook
  are recorded as keys in a log, not performed.
- SplitStructure.AtomFields: the contract gives the number of fields; the column layout
  is the function's definition, used by `AtomRecordLine` and `UnitContent`.
- SplitStructure.HelixFields: likewise, the HELIX column layout is the definition.
- SplitStructure.SheetFields: likewise, the SHEET column layout is the definition.
- GetLocation.LocationByAtomIndex: its own contract states the chain group and atom
  index; when a location is found and what it holds are in ByAtomIndexFound and
  ByAtomIndexRun.
- Selection.RangeOutsMeaning: ranges that contain -1 are excluded, because the source
  marks selected entries with -1 and a residue index of -1 would be confused with the
  mark; residue indices are never negative.
- TransformRepres.ChainRunMeaning: an undefined chain index is ordered as 0. The
  comparator at src/hooks/useTransformRepres.ts:201 gives `NaN` for it, which leaves its
  place to the engine's sort, so the model fixes one of the possible orders.
- Surrounding.ProteinShare: the protein of a group is the one at the group's key. The
  source (src/hooks/utils/getSurrounding.ts:119) finds the protein whose structure is the
  very object the selection was made on; object identity is not modelled.
- Selection.SelectionManager.ModifyRe: the statistics of the engine's loci are an
  input, not computed.

## Findings

| source | as written | input that shows it | evidently intended | confidence | as-written member | corrected member |
|---|---|---|---|---|---|---|
| src/hooks/utils/getLocation.ts:51-53 | the element scan compares each atom's chain with `chainIndexInfo.chain`, which is `undefined` when no chain is given, although line 22 defaults the chain to `'A'` | a LOADED protein of one atom of chain A, sequence number 7, serial id 1, asked for index 7 with no chain: elements `[undefined]`, atom index `NaN` | scan the defaulted chain: elements `[1]`, atom index `0` | not executed | GetLocation.ChainOmittedAsWritten | GetLocation.ByChainIndexElements |
| src/hooks/useGetSelection.ts:124 | `wrapperKey === wrapperKey` compares the selection's wrapper key with itself, so selections on every wrapper mark the range | one selection on wrapper B at residue index 3; a range 3-4 selected on wrapper A clicks only 4 | compare with the key of the wrapper the range is selected on, the `wrapper` argument of the handler (line 117), so the range clicks 3 and 4; that argument is an engine sequence wrapper, so the key would have to be carried with it | not executed | Selection.OtherWrapperMasksRange | Selection.RangeOutsMeaning |
| src/hooks/utils/getLocation.ts:207 | the test `stats.unitCount >= 1` appears on both sides of the logical or, so a selection counted only by chain takes its units from the first structure location, whose structure line 211 reads even when it is unset | chain count 1, unit and structure counts 0, the first chain location and one unit location set, the first structure location unset: as written the resolver throws | the second operand is `stats.chainCount >= 1`, so the chain's unit locations are resolved against the chain's structure | not executed | GetLocation.ChainSelectionAsWritten | GetLocation.ChainSelectionCorrected |
