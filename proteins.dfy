/** `useGetProteins`: the protein list, changed only by replaying a queue of pending works,
    and the show/hide state machine that keeps each structure's visibility in line with the
    list of proteins the user wants to see. */
module Proteins {
  import opened Common
  import opened StructureModel
  import opened JsUtils

  // ------------------------------------------------------------------ works

  /** The top-level fields an `update` work may overwrite (`{ ...protein, ...data }`). */
  datatype ProteinPatch = ProteinPatch(
    name: Option<string>,
    filename: Option<string>,
    filetype: Option<string>,
    status: Option<ProteinStatus>)

  /** The engine fields an `updateMolData` work may overwrite (`{ ...molData, ...data }`). */
  datatype MolDataPatch = MolDataPatch(
    structureKey: Option<string>,
    structure: Option<Structure>,
    wrappers: Option<seq<Wrapper>>,
    structureLabel: Option<string>,
    modelId: Option<string>)

  /** One queued change to the protein list (lines 24-29). */
  datatype Work =
    | Placeholder(protein: Protein)
    | Create(protein: Protein)
    | Update(protein: Protein, patch: ProteinPatch)
    | Remove(protein: Protein)
    | UpdateMolData(protein: Protein, molPatch: MolDataPatch)

  function Override<T>(patch: Option<T>, current: T): T
  {
    if patch.Some? then patch.value else current
  }

  function OverrideSome<T>(patch: Option<T>, current: Option<T>): Option<T>
  {
    if patch.Some? then patch else current
  }

  /** A shallow merge of `patch` over `p`: every field the patch gives wins, the rest and
      the key stay. */
  function Patched(p: Protein, patch: ProteinPatch): (r: Protein)
    ensures r.key == p.key && r.molData == p.molData
    ensures patch.status.Some? ==> r.status == patch.status.value
    ensures patch.status.None? ==> r.status == p.status
  {
    Protein(p.key, Override(patch.name, p.name), Override(patch.filename, p.filename),
      Override(patch.filetype, p.filetype), Override(patch.status, p.status), p.molData)
  }

  /** A shallow merge of `patch` over the protein's engine data only. */
  function MolDataPatched(p: Protein, patch: MolDataPatch): (r: Protein)
    ensures r.key == p.key && r.name == p.name && r.status == p.status
    ensures patch.structure.Some? ==> r.molData.structure == patch.structure
    ensures patch.structure.None? ==> r.molData.structure == p.molData.structure
  {
    var m := p.molData;
    p.(molData := MolData(OverrideSome(patch.structureKey, m.structureKey), OverrideSome(patch.structure, m.structure),
      OverrideSome(patch.wrappers, m.wrappers), OverrideSome(patch.structureLabel, m.structureLabel),
      OverrideSome(patch.modelId, m.modelId)))
  }

  function KeyIs(key: string): Protein -> bool
  {
    (p: Protein) => p.key == key
  }

  /** `findIndex(p => p.key === key)`. */
  function IndexOfKey(ps: seq<Protein>, key: string): (i: int)
    ensures -1 <= i < |ps|
    ensures i >= 0 ==> ps[i].key == key && forall j :: 0 <= j < i ==> ps[j].key != key
    ensures i == -1 ==> forall j :: 0 <= j < |ps| ==> ps[j].key != key
  {
    FirstWhere(ps, KeyIs(key))
  }

  /** One work applied to the list (one pass of the `forEach` at lines 78-114). */
  function Step(ps: seq<Protein>, w: Work): seq<Protein>
  {
    var i := IndexOfKey(ps, w.protein.key);
    match w
    case Placeholder(p) => ps + [p]
    case Create(p) => if i == -1 then ps + [p] else ps[i := p]
    case Update(_, patch) => if i == -1 then ps else ps[i := Patched(ps[i], patch)]
    case Remove(_) => if i == -1 then ps else ps[..i] + ps[i + 1..]
    case UpdateMolData(_, patch) => if i == -1 then ps else ps[i := MolDataPatched(ps[i], patch)]
  }

  /** The works applied in queue order. */
  function Replay(ps: seq<Protein>, works: seq<Work>): seq<Protein>
  {
    if |works| == 0 then ps else Step(Replay(ps, works[..|works| - 1]), works[|works| - 1])
  }

  /** Replaying a queue is replaying its first part, then the rest. */
  lemma {:induction false} ReplayAppend(ps: seq<Protein>, a: seq<Work>, b: seq<Work>)
    ensures Replay(ps, a + b) == Replay(Replay(ps, a), b)
  {
    if |b| == 0 {
      assert a + b == a;
    } else {
      assert (a + b)[..|a + b| - 1] == a + b[..|b| - 1];
      ReplayAppend(ps, a, b[..|b| - 1]);
    }
  }

  /** No two proteins share a key. */
  predicate UniqueKeys(ps: seq<Protein>)
  {
    forall i, j :: 0 <= i < j < |ps| ==> ps[i].key != ps[j].key
  }

  /** `create` leaves exactly one protein with the new protein's key, the new protein, and
      adds an entry only when the key was missing; every other entry keeps its place. */
  lemma StepCreate(ps: seq<Protein>, p: Protein)
    requires UniqueKeys(ps)
    ensures var r := Step(ps, Create(p));
            var i := IndexOfKey(ps, p.key);
            UniqueKeys(r) &&
            |r| == (if i == -1 then |ps| + 1 else |ps|) &&
            (forall j :: 0 <= j < |r| ==> (r[j].key == p.key <==> r[j] == p)) &&
            (exists j :: 0 <= j < |r| && r[j] == p) &&
            (forall j :: 0 <= j < |ps| && ps[j].key != p.key ==> r[j] == ps[j])
  {
    var r := Step(ps, Create(p));
    var i := IndexOfKey(ps, p.key);
    if i == -1 {
      assert r[|ps|] == p;
    } else {
      assert r[i] == p;
      forall a, b | 0 <= a < b < |r|
        ensures r[a].key != r[b].key
      {
        if a != i && b != i {
          assert r[a] == ps[a] && r[b] == ps[b];
        }
      }
    }
  }

  /** `update` on a missing key changes nothing; otherwise it merges the patch into the
      one entry with that key and leaves the keys, the length and the other entries. */
  lemma StepUpdate(ps: seq<Protein>, p: Protein, patch: ProteinPatch)
    ensures var r := Step(ps, Update(p, patch));
            var i := IndexOfKey(ps, p.key);
            |r| == |ps| &&
            (i == -1 ==> r == ps) &&
            (forall j :: 0 <= j < |ps| ==> r[j].key == ps[j].key) &&
            (forall j :: 0 <= j < |ps| && j != i ==> r[j] == ps[j]) &&
            (i != -1 ==> r[i] == Patched(ps[i], patch))
  {
  }

  /** `remove` on a missing key changes nothing; otherwise it drops exactly the first entry
      with that key and keeps the others in order. */
  lemma StepRemove(ps: seq<Protein>, p: Protein)
    ensures var r := Step(ps, Remove(p));
            var i := IndexOfKey(ps, p.key);
            (i == -1 ==> r == ps) &&
            (i != -1 ==> |r| == |ps| - 1 && multiset(r) + multiset{ps[i]} == multiset(ps) &&
                         (forall j :: 0 <= j < i ==> r[j] == ps[j]) &&
                         (forall j :: i < j < |ps| ==> r[j - 1] == ps[j]))
  {
    var i := IndexOfKey(ps, p.key);
    if i != -1 {
      assert Step(ps, Remove(p)) == ps[..i] + ps[i + 1..];
      DropOne(ps, i);
    }
  }

  /** Dropping the entry at `i`: the others keep their order and the multiset loses one. */
  lemma DropOne(ps: seq<Protein>, i: int)
    requires 0 <= i < |ps|
    ensures var r := ps[..i] + ps[i + 1..];
            |r| == |ps| - 1 && multiset(r) + multiset{ps[i]} == multiset(ps) &&
            (forall j :: 0 <= j < i ==> r[j] == ps[j]) &&
            (forall j :: i < j < |ps| ==> r[j - 1] == ps[j])
  {
    assert ps == ps[..i] + [ps[i]] + ps[i + 1..];
  }

  /** With unique keys, `remove` keeps them unique and the removed key is gone. */
  lemma StepRemoveUnique(ps: seq<Protein>, p: Protein)
    requires UniqueKeys(ps)
    ensures UniqueKeys(Step(ps, Remove(p)))
    ensures forall j :: 0 <= j < |Step(ps, Remove(p))| ==> Step(ps, Remove(p))[j].key != p.key
  {
    var r := Step(ps, Remove(p));
    var i := IndexOfKey(ps, p.key);
    if i != -1 {
      forall j | 0 <= j < |r|
        ensures r[j].key != p.key
      {
        if j >= i {
          assert r[j] == ps[j + 1];
        }
      }
    }
  }

  /** `updateMolData` touches only the engine data of the entry with that key. */
  lemma StepUpdateMolData(ps: seq<Protein>, p: Protein, patch: MolDataPatch)
    ensures var r := Step(ps, UpdateMolData(p, patch));
            var i := IndexOfKey(ps, p.key);
            |r| == |ps| &&
            (i == -1 ==> r == ps) &&
            (forall j :: 0 <= j < |ps| ==> r[j].key == ps[j].key && r[j].status == ps[j].status) &&
            (forall j :: 0 <= j < |ps| && j != i ==> r[j] == ps[j]) &&
            (i != -1 ==> r[i].molData.structure == OverrideSome(patch.structure, ps[i].molData.structure))
  {
  }

  /** Every work but `placeholder` keeps the keys unique, so a replay without placeholders
      does too. */
  lemma {:induction false} ReplayKeepsKeysUnique(ps: seq<Protein>, works: seq<Work>)
    requires UniqueKeys(ps)
    requires forall k :: 0 <= k < |works| ==> !works[k].Placeholder?
    ensures UniqueKeys(Replay(ps, works))
  {
    if |works| > 0 {
      var before := Replay(ps, works[..|works| - 1]);
      ReplayKeepsKeysUnique(ps, works[..|works| - 1]);
      var w := works[|works| - 1];
      match w
      case Create(p) => StepCreate(before, p);
      case Update(p, patch) => StepUpdate(before, p, patch);
      case Remove(p) => StepRemoveUnique(before, p);
      case UpdateMolData(p, patch) => StepUpdateMolData(before, p, patch);
    }
  }

  /** The keys of the proteins still loading (lines 53-57). */
  function UnsettledKeys(ps: seq<Protein>): (r: seq<string>)
    ensures forall k :: k in r <==> exists j :: 0 <= j < |ps| && ps[j].status == Loading && ps[j].key == k
  {
    if |ps| == 0 then []
    else
      var last := ps[|ps| - 1];
      var r := UnsettledKeys(ps[..|ps| - 1]) + (if last.status == Loading then [last.key] else []);
      assert forall j :: 0 <= j < |ps| - 1 ==> ps[..|ps| - 1][j] == ps[j];
      r
  }

  // -------------------------------------------------------------- visibility

  /** `proteinDisplayStatusRef` values: 1 shown, 2 hidden, -1 show pending, -2 hide pending. */
  datatype DisplayStatus = Shown | Hidden | ShowPending | HidePending

  /** A key with no entry counts as shown. */
  function StatusOf(display: map<string, DisplayStatus>, key: string): DisplayStatus
  {
    if key in display then display[key] else Shown
  }

  /** `proteinDisplayStatusRefUpdate`'s table (lines 318-330): a settled state starts the
      switch to the other, a pending state settles. */
  function Next(s: DisplayStatus): (r: DisplayStatus)
    ensures (s == Shown || s == Hidden) <==> (r == ShowPending || r == HidePending)
  {
    match s
    case Shown => HidePending
    case Hidden => ShowPending
    case HidePending => Hidden
    case ShowPending => Shown
  }

  /** Two steps from a settled state reach the other settled state. */
  lemma TwoStepsSwitch(s: DisplayStatus)
    ensures s == Shown ==> Next(Next(s)) == Hidden
    ensures s == Hidden ==> Next(Next(s)) == Shown
    ensures s == ShowPending || s == HidePending ==> Next(Next(s)) != s
  {
  }

  /** What a protein should look like (line 264): shown if the visible list is empty or
      names it, else hidden. */
  function Desired(visible: seq<string>, key: string): (r: DisplayStatus)
    ensures r == Shown || r == Hidden
    ensures r == Shown <==> |visible| == 0 || key in visible
  {
    if |visible| == 0 || key in visible then Shown else Hidden
  }

  /** The condition at line 271: the state is settled and not the desired one. */
  predicate NeedsToggle(visible: seq<string>, display: map<string, DisplayStatus>, key: string)
  {
    var s := StatusOf(display, key);
    (s == Shown || s == Hidden) && s != Desired(visible, key)
  }

  /** The updates a component keeps: the status map and the `ToggleVisibility` calls made,
      by structure key, in order. */
  datatype Ledger = Ledger(display: map<string, DisplayStatus>, toggles: seq<string>)

  /** The table step on one key, with nothing else (lines 318-330). */
  function Transition(l: Ledger, key: string): (r: Ledger)
    ensures r.toggles == l.toggles
    ensures r.display.Keys == l.display.Keys + {key}
    ensures forall k :: k in l.display && k != key ==> r.display[k] == l.display[k]
  {
    Ledger(l.display[key := Next(StatusOf(l.display, key))], l.toggles)
  }

  /** `proteinVisibleCheck` (lines 263-281): when the state is settled and wrong, start the
      switch and ask the engine to toggle. The check that the nested status update runs
      right after finds the state pending and does nothing (`CheckSettles`). */
  function Check(visible: seq<string>, l: Ledger, key: string): Ledger
  {
    if NeedsToggle(visible, l.display, key) then
      var t := Transition(l, key);
      Ledger(t.display, t.toggles + [key])
    else l
  }

  /** `proteinDisplayStatusRefUpdate` (lines 318-333): step the table, then check. */
  function StatusUpdate(visible: seq<string>, l: Ledger, key: string): Ledger
  {
    Check(visible, Transition(l, key), key)
  }

  /** A pending state never asks for a toggle, so right after a check has started a switch
      a second check does nothing. */
  lemma CheckSettles(visible: seq<string>, l: Ledger, key: string)
    ensures StatusOf(l.display, key) == ShowPending || StatusOf(l.display, key) == HidePending ==>
              Check(visible, l, key) == l
    ensures NeedsToggle(visible, l.display, key) ==>
              var c := Check(visible, l, key);
              c.toggles == l.toggles + [key] &&
              (StatusOf(c.display, key) == ShowPending || StatusOf(c.display, key) == HidePending) &&
              Check(visible, c, key) == c
  {
  }

  /** A check followed by the status update that runs when the engine's toggle completes
      leaves the protein in its desired state, with exactly one toggle asked for. */
  lemma ToggleReachesDesired(visible: seq<string>, l: Ledger, key: string)
    requires NeedsToggle(visible, l.display, key)
    ensures var done := StatusUpdate(visible, Check(visible, l, key), key);
            StatusOf(done.display, key) == Desired(visible, key) &&
            done.toggles == l.toggles + [key] &&
            !NeedsToggle(visible, done.display, key)
  {
    var c := Check(visible, l, key);
    var s := StatusOf(l.display, key);
    assert StatusOf(c.display, key) == Next(s);
    TwoStepsSwitch(s);
  }

  /** A check asks for nothing exactly when the state is pending or already the desired
      one; without a toggle it changes nothing. */
  lemma CheckMeaning(visible: seq<string>, l: Ledger, key: string)
    ensures Check(visible, l, key) == l <==> !NeedsToggle(visible, l.display, key)
    ensures !NeedsToggle(visible, l.display, key) <==>
              var s := StatusOf(l.display, key);
              s == ShowPending || s == HidePending || s == Desired(visible, key)
  {
    if NeedsToggle(visible, l.display, key) {
      assert |Check(visible, l, key).toggles| == |l.toggles| + 1;
    }
  }

  // ---------------------------------------------------------------- sweep

  /** The keys `updateVisibleProteins` aims at (lines 287-289): the list given, or every
      protein's key when it is empty. */
  function Targets(keys: seq<string>, ps: seq<Protein>): (r: seq<string>)
    ensures |keys| > 0 ==> r == keys
    ensures |keys| == 0 ==> forall j :: 0 <= j < |ps| ==> ps[j].key in r
  {
    if |keys| == 0 then ProteinKeys(ps) else keys
  }

  function ProteinKeys(ps: seq<Protein>): (r: seq<string>)
    ensures |r| == |ps| && forall j :: 0 <= j < |ps| ==> r[j] == ps[j].key
  {
    if |ps| == 0 then [] else ProteinKeys(ps[..|ps| - 1]) + [ps[|ps| - 1].key]
  }

  /** The test at lines 292-299: a loaded protein in a settled state that is not the one
      the targets ask for. */
  predicate SweepToggles(targets: seq<string>, display: map<string, DisplayStatus>, p: Protein)
  {
    var s := StatusOf(display, p.key);
    p.status == Loaded && (s == Shown || s == Hidden) &&
    !(p.key in targets && s == Shown) && !(p.key !in targets && s == Hidden)
  }

  /** The sweep's test is the visibility check's decision, for the list just set. */
  lemma SweepIsCheck(keys: seq<string>, ps: seq<Protein>, display: map<string, DisplayStatus>, p: Protein)
    requires p in ps
    ensures SweepToggles(Targets(keys, ps), display, p) <==> p.status == Loaded && NeedsToggle(keys, display, p.key)
  {
  }

  /** `proteinsLatestRef.current.forEach(...)` at lines 291-311. */
  function Sweep(targets: seq<string>, ps: seq<Protein>, l: Ledger): Ledger
  {
    if |ps| == 0 then l
    else SweepStep(targets, Sweep(targets, ps[..|ps| - 1], l), ps[|ps| - 1])
  }

  /** The sweep's visit of one protein. */
  function SweepStep(targets: seq<string>, l: Ledger, p: Protein): Ledger
  {
    if SweepToggles(targets, l.display, p) then
      var t := Transition(l, p.key);
      Ledger(t.display, t.toggles + [p.key])
    else l
  }

  /** A protein's state after the sweep, as decided from the state before it. */
  function StatusAfter(targets: seq<string>, display: map<string, DisplayStatus>, p: Protein): DisplayStatus
  {
    if SweepToggles(targets, display, p) then Next(StatusOf(display, p.key)) else StatusOf(display, p.key)
  }

  /** No protein has key `k`. */
  predicate NotKeyOf(ps: seq<Protein>, k: string)
  {
    forall j :: 0 <= j < |ps| ==> ps[j].key != k
  }

  /** With unique keys, the sweep switches each loaded protein whose settled state the
      targets contradict, judged on the state before the sweep, and no other key. */
  lemma {:induction false} SweepStatus(targets: seq<string>, ps: seq<Protein>, l: Ledger)
    requires UniqueKeys(ps)
    ensures forall j :: 0 <= j < |ps| ==> StatusOf(Sweep(targets, ps, l).display, ps[j].key) == StatusAfter(targets, l.display, ps[j])
    ensures forall k :: NotKeyOf(ps, k) ==> StatusOf(Sweep(targets, ps, l).display, k) == StatusOf(l.display, k)
  {
    if |ps| > 0 {
      var init, p := ps[..|ps| - 1], ps[|ps| - 1];
      SweepStatus(targets, init, l);
      assert forall j :: 0 <= j < |init| ==> init[j] == ps[j];
      assert NotKeyOf(init, p.key);
      var r := Sweep(targets, ps, l);
      forall j | 0 <= j < |ps|
        ensures StatusOf(r.display, ps[j].key) == StatusAfter(targets, l.display, ps[j])
      {
        if j < |init| {
          assert ps[j].key != p.key;
        }
      }
      forall k | NotKeyOf(ps, k)
        ensures StatusOf(r.display, k) == StatusOf(l.display, k)
      {
        assert NotKeyOf(init, k);
        assert p.key != k;
      }
    }
  }

  /** The keys the sweep asks the engine to toggle, in list order. */
  function ToggledKeys(targets: seq<string>, ps: seq<Protein>, display: map<string, DisplayStatus>): seq<string>
  {
    if |ps| == 0 then []
    else
      var p := ps[|ps| - 1];
      ToggledKeys(targets, ps[..|ps| - 1], display) + (if SweepToggles(targets, display, p) then [p.key] else [])
  }

  /** With unique keys, the sweep asks for exactly those toggles, each once. */
  lemma {:induction false} SweepLog(targets: seq<string>, ps: seq<Protein>, l: Ledger)
    requires UniqueKeys(ps)
    ensures Sweep(targets, ps, l).toggles == l.toggles + ToggledKeys(targets, ps, l.display)
  {
    if |ps| > 0 {
      var init, p := ps[..|ps| - 1], ps[|ps| - 1];
      SweepLog(targets, init, l);
      assert forall j :: 0 <= j < |init| ==> init[j] == ps[j];
      assert NotKeyOf(init, p.key);
      SweepStatus(targets, init, l);
    }
  }

  /** A key is toggled exactly when it is a loaded protein's whose settled state the
      targets contradict. */
  lemma {:induction false} ToggledKeysMembers(targets: seq<string>, ps: seq<Protein>, display: map<string, DisplayStatus>, k: string)
    ensures k in ToggledKeys(targets, ps, display) <==>
              exists j :: 0 <= j < |ps| && ps[j].key == k && SweepToggles(targets, display, ps[j])
  {
    if |ps| > 0 {
      var init := ps[..|ps| - 1];
      ToggledKeysMembers(targets, init, display, k);
      assert forall j :: 0 <= j < |init| ==> init[j] == ps[j];
      if exists j :: 0 <= j < |ps| && ps[j].key == k && SweepToggles(targets, display, ps[j]) {
        var j :| 0 <= j < |ps| && ps[j].key == k && SweepToggles(targets, display, ps[j]);
        if j < |init| {
          assert init[j] == ps[j];
        }
      }
    }
  }

  /** A structure the engine reports (lines 63-67), with the engine data the sync would
      merge into its protein (lines 236-248). */
  datatype StructureInfo = StructureInfo(key: string, molPatch: MolDataPatch)

  /** The reported structures that belong to proteins still loading (lines 60-68). */
  function SyncTargets(ps: seq<Protein>, infos: seq<StructureInfo>): (r: seq<StructureInfo>)
    ensures forall k :: 0 <= k < |r| ==> r[k].key in UnsettledKeys(ps)
  {
    Filter(infos, InfoPending(UnsettledKeys(ps)))
  }

  /** A reported structure is synced exactly when a protein with its key is loading. */
  lemma SyncTargetsMembers(ps: seq<Protein>, infos: seq<StructureInfo>, info: StructureInfo)
    ensures info in SyncTargets(ps, infos) <==>
              info in infos && exists j :: 0 <= j < |ps| && ps[j].status == Loading && ps[j].key == info.key
  {
    FilterMembers(infos, InfoPending(UnsettledKeys(ps)), info);
  }

  function InfoPending(unsettled: seq<string>): StructureInfo -> bool
  {
    (info: StructureInfo) => info.key in unsettled
  }

  /** The protein whose engine data carries a structure key (line 231). */
  function IndexOfStructure(ps: seq<Protein>, key: string): (i: int)
    ensures -1 <= i < |ps|
    ensures i >= 0 ==> ps[i].molData.structureKey == Some(key)
    ensures i == -1 ==> forall j :: 0 <= j < |ps| ==> ps[j].molData.structureKey != Some(key)
  {
    FirstWhere(ps, StructureIs(key))
  }

  function StructureIs(key: string): Protein -> bool
  {
    (p: Protein) => p.molData.structureKey == Some(key)
  }

  /** The `update` that marks a protein loaded (line 251). */
  function LoadedPatch(): ProteinPatch
  {
    ProteinPatch(None, None, None, Some(Loaded))
  }

  /** The queue and ledger after `syncStructures` (lines 204-261). */
  datatype SyncState = SyncState(queue: seq<Work>, ledger: Ledger)

  /** One structure's share of `syncStructures`: queue its engine data and the status
      change and check its visibility, or, with no protein for it, just toggle it. */
  function SyncOne(ps: seq<Protein>, visible: seq<string>, st: SyncState, info: StructureInfo): SyncState
  {
    var i := IndexOfStructure(ps, info.key);
    if i == -1 then SyncState(st.queue, Ledger(st.ledger.display, st.ledger.toggles + [info.key]))
    else
      var p := ps[i];
      SyncState(st.queue + [UpdateMolData(p, info.molPatch), Update(p, LoadedPatch())], Check(visible, st.ledger, p.key))
  }

  function SyncAll(ps: seq<Protein>, visible: seq<string>, st: SyncState, infos: seq<StructureInfo>): SyncState
  {
    if |infos| == 0 then st else SyncOne(ps, visible, SyncAll(ps, visible, st, infos[..|infos| - 1]), infos[|infos| - 1])
  }

  /** `molstarSync` (lines 47-73): nothing unless some protein is loading and the engine
      reports one of its structures. */
  function MolstarSync(ps: seq<Protein>, visible: seq<string>, st: SyncState, infos: seq<StructureInfo>): SyncState
  {
    var targets := SyncTargets(ps, infos);
    if |UnsettledKeys(ps)| == 0 || |targets| == 0 then st else SyncAll(ps, visible, st, targets)
  }

  /** Replaying what a sync queues for a loading protein whose structure is reported marks
      it loaded and merges the engine data. */
  lemma SyncThenReplay(ps: seq<Protein>, p: Protein, patch: MolDataPatch)
    requires UniqueKeys(ps) && p in ps
    ensures var r := Replay(ps, [UpdateMolData(p, patch), Update(p, LoadedPatch())]);
            var i := IndexOfKey(ps, p.key);
            |r| == |ps| && 0 <= i && r[i].status == Loaded && r[i].key == p.key &&
            r[i].molData.structure == OverrideSome(patch.structure, ps[i].molData.structure) &&
            forall j :: 0 <= j < |ps| && j != i ==> r[j] == ps[j]
  {
    var w1, w2 := UpdateMolData(p, patch), Update(p, LoadedPatch());
    var r1 := Step(ps, w1);
    var j :| 0 <= j < |ps| && ps[j] == p;
    assert IndexOfKey(ps, p.key) != -1;
    StepUpdateMolData(ps, p, patch);
    StepUpdate(r1, p, LoadedPatch());
    assert Replay(ps, [w1]) == r1 by {
      assert [w1][..0] == [];
    }
    assert Replay(ps, [w1, w2]) == Step(r1, w2) by {
      assert [w1, w2][..1] == [w1];
    }
    assert IndexOfKey(r1, p.key) == IndexOfKey(ps, p.key);
  }

  /** With no protein loading, a sync does nothing. */
  lemma SyncNeedsLoading(ps: seq<Protein>, visible: seq<string>, st: SyncState, infos: seq<StructureInfo>)
    requires forall j :: 0 <= j < |ps| ==> ps[j].status != Loading
    ensures MolstarSync(ps, visible, st, infos) == st
  {
    var keys := UnsettledKeys(ps);
    assert forall k :: 0 <= k < |keys| ==> keys[k] !in keys;
  }

  // ---------------------------------------------------------------- the store

  /** The name a protein loaded from a file receives (line 175): `name || file.name ||
      'unknown protein'` with its extension removed. */
  function LoadedName(fileName: string, name: Option<string>): (r: string)
    ensures name.Some? && name.value != "" ==>
              r <= name.value && ('.' !in name.value ==> r == name.value)
    ensures (name.None? || name.value == "") && fileName != "" ==>
              r <= fileName && ('.' !in fileName ==> r == fileName)
    ensures (name.None? || name.value == "") && fileName == "" ==> r == "unknown protein"
  {
    var chosen := if name.Some? && name.value != "" then name.value
                  else if fileName != "" then fileName
                  else "unknown protein";
    UnknownProteinHasNoDot();
    GetFilenameWithoutType(chosen)
  }

  lemma UnknownProteinHasNoDot()
    ensures '.' !in "unknown protein"
  {
    var u := "unknown protein";
    assert u == ['u', 'n', 'k', 'n', 'o', 'w', 'n', ' ', 'p', 'r', 'o', 't', 'e', 'i', 'n'];
  }

  /** A protein loaded without a name from a file with a `.` keeps the whole file name
      between its name and its file type. */
  lemma LoadedFromFileName(fileName: string)
    requires '.' in fileName
    ensures LoadedName(fileName, None) + "." + GetFileType(Some(fileName)) == fileName
  {
    NameAndTypeRejoin(fileName);
  }

  /** The loading protein a file produces (lines 173-182): keyed and engine-referenced by its
      structure, named by `LoadedName`, of the file type its name ends in. */
  function FromFile(structureKey: string, fileName: string, name: Option<string>): (p: Protein)
    ensures p.key == structureKey && p.status == Loading && p.filename == fileName
    ensures p.molData == MolData(Some(structureKey), None, None, None, None)
    ensures p.name == LoadedName(fileName, name) && p.filetype == GetFileType(Some(fileName))
  {
    Protein(structureKey, LoadedName(fileName, name), fileName, GetFileType(Some(fileName)),
            Loading, MolData(Some(structureKey), None, None, None, None))
  }

  /** The component's state: the committed list, the work queue, the early copy of the
      visible list, the status map and the log of engine toggles. */
  class ProteinStore {
    var proteins: seq<Protein>
    var queue: seq<Work>
    var visible: seq<string>
    var display: map<string, DisplayStatus>
    var toggles: seq<string>

    constructor()
      ensures proteins == [] && queue == [] && visible == [] && display == map[] && toggles == []
    {
      proteins := [];
      queue := [];
      visible := [];
      display := map[];
      toggles := [];
    }

    function LedgerOf(): Ledger
      reads this
    {
      Ledger(display, toggles)
    }

    /** `handleLoadProteinByFile` (lines 158-187): queue the creation of a loading protein
        keyed by its structure, named after the given name or else the file name (each
        without its extension), of the file type the file name ends in. Reading and parsing
        the file are not part of this model: `structureKey` is what they produce. */
    method LoadProtein(structureKey: string, fileName: string, name: Option<string>)
      modifies this
      ensures queue == old(queue) + [Create(FromFile(structureKey, fileName, name))]
      ensures proteins == old(proteins) && LedgerOf() == old(LedgerOf()) && visible == old(visible)
    {
      var p := FromFile(structureKey, fileName, name);
      Push(Create(p));
    }

    /** `syncQueueRef.current.push(work)`: the work joins the end of the queue. */
    method Push(w: Work)
      modifies this
      ensures queue == old(queue) + [w]
      ensures proteins == old(proteins) && LedgerOf() == old(LedgerOf()) && visible == old(visible)
    {
      queue := queue + [w];
    }

    /** `handleUpdateProteinMolData` (lines 189-192). */
    method UpdateProteinMolData(p: Protein, patch: MolDataPatch)
      modifies this
      ensures queue == old(queue) + [UpdateMolData(p, patch)]
      ensures proteins == old(proteins) && LedgerOf() == old(LedgerOf()) && visible == old(visible)
    {
      Push(UpdateMolData(p, patch));
    }

    /** `handleRemoveProtein` (lines 194-202); removing the structure from the engine is
        not part of this model. */
    method RemoveProtein(p: Protein)
      modifies this
      ensures queue == old(queue) + [Remove(p)]
      ensures proteins == old(proteins) && LedgerOf() == old(LedgerOf()) && visible == old(visible)
    {
      Push(Remove(p));
    }

    /** `syncWorks` (lines 76-118): replay the queue on a copy of the list, commit it and
        empty the queue. */
    method SyncWorks()
      modifies this
      ensures proteins == Replay(old(proteins), old(queue))
      ensures queue == []
      ensures LedgerOf() == old(LedgerOf()) && visible == old(visible)
    {
      var ps := ReplayEach(proteins, queue);
      queue := [];
      proteins := ps;
    }

    /** `proteinVisibleCheck` (lines 263-281). */
    method VisibleCheck(key: string)
      modifies this
      ensures LedgerOf() == Check(visible, old(LedgerOf()), key)
      ensures proteins == old(proteins) && queue == old(queue) && visible == old(visible)
    {
      var current := if key in display then display[key] else Shown;
      var wanted := if |visible| == 0 || key in visible then Shown else Hidden;
      if (current == Shown || current == Hidden) && current != wanted {
        display := display[key := Next(current)];
        toggles := toggles + [key];
      }
    }

    /** `proteinDisplayStatusRefUpdate` (lines 318-333), run also when an engine toggle
        completes. */
    method UpdateStatus(key: string)
      modifies this
      ensures LedgerOf() == StatusUpdate(visible, old(LedgerOf()), key)
      ensures proteins == old(proteins) && queue == old(queue) && visible == old(visible)
    {
      var current := if key in display then display[key] else Shown;
      display := display[key := Next(current)];
      VisibleCheck(key);
    }

    /** `updateVisibleProteins` (lines 284-315): record the list, then switch every loaded
        protein whose settled state it contradicts. */
    method UpdateVisibleProteins(keys: seq<string>)
      modifies this
      ensures visible == keys
      ensures LedgerOf() == Sweep(Targets(keys, old(proteins)), old(proteins), old(LedgerOf()))
      ensures proteins == old(proteins) && queue == old(queue)
    {
      visible := keys;
      var targets := keys;
      if |keys| == 0 {
        targets := KeysOf(proteins);
      }
      ghost var start := LedgerOf();
      var ps := proteins;
      for j := 0 to |ps|
        invariant visible == keys && proteins == ps && queue == old(queue)
        invariant LedgerOf() == Sweep(targets, ps[..j], start)
      {
        assert ps[..j + 1][..j] == ps[..j];
        SweepProtein(targets, ps[j]);
      }
      assert ps[..|ps|] == ps;
    }

    /** The body of the sweep at lines 301-310 for protein `p`. */
    method SweepProtein(targets: seq<string>, p: Protein)
      modifies this
      ensures LedgerOf() == SweepStep(targets, old(LedgerOf()), p)
      ensures proteins == old(proteins) && queue == old(queue) && visible == old(visible)
    {
      var current := if p.key in display then display[p.key] else Shown;
      if p.status == Loaded && (current == Shown || current == Hidden) {
        if p.key in targets && current == Shown {
        } else if p.key !in targets && current == Hidden {
        } else {
          display := display[p.key := Next(current)];
          toggles := toggles + [p.key];
        }
      }
    }

    /** `molstarSync` with the structures the engine reports. */
    method MolstarSyncWith(infos: seq<StructureInfo>)
      modifies this
      ensures SyncState(queue, LedgerOf()) == MolstarSync(proteins, visible, SyncState(old(queue), old(LedgerOf())), infos)
      ensures proteins == old(proteins) && visible == old(visible)
    {
      var unsettled := LoadingKeys(proteins);
      if |unsettled| == 0 {
        return;
      }
      var targets := PendingInfos(infos, unsettled);
      if |targets| == 0 {
        return;
      }
      SyncStructures(targets);
    }

    /** `syncStructures` (lines 204-261). */
    method SyncStructures(targets: seq<StructureInfo>)
      modifies this
      ensures SyncState(queue, LedgerOf()) == SyncAll(proteins, visible, SyncState(old(queue), old(LedgerOf())), targets)
      ensures proteins == old(proteins) && visible == old(visible)
    {
      ghost var start := SyncState(queue, LedgerOf());
      var ps := proteins;
      for k := 0 to |targets|
        invariant proteins == ps && visible == old(visible)
        invariant SyncState(queue, LedgerOf()) == SyncAll(ps, visible, start, targets[..k])
      {
        assert targets[..k + 1][..k] == targets[..k];
        var info := targets[k];
        var i := FindStructure(ps, info.key);
        if i == -1 {
          toggles := toggles + [info.key];
        } else {
          var p := ps[i];
          queue := queue + [UpdateMolData(p, info.molPatch), Update(p, LoadedPatch())];
          VisibleCheck(p.key);
        }
      }
      assert targets[..|targets|] == targets;
    }
  }

  /** The reported structures whose key is among the loading ones (lines 60-68). */
  method PendingInfos(infos: seq<StructureInfo>, unsettled: seq<string>) returns (targets: seq<StructureInfo>)
    ensures targets == Filter(infos, InfoPending(unsettled))
  {
    targets := [];
    for k := 0 to |infos|
      invariant targets == Filter(infos[..k], InfoPending(unsettled))
    {
      assert infos[..k + 1][..k] == infos[..k];
      if infos[k].key in unsettled {
        targets := targets + [infos[k]];
      }
    }
    assert infos[..|infos|] == infos;
  }

  /** The `forEach` at lines 78-114 on a copy of the list. */
  method ReplayEach(start: seq<Protein>, works: seq<Work>) returns (ps: seq<Protein>)
    ensures ps == Replay(start, works)
  {
    ps := start;
    for k := 0 to |works|
      invariant ps == Replay(start, works[..k])
    {
      assert works[..k + 1][..k] == works[..k];
      ps := ApplyWork(ps, works[k]);
    }
    assert works[..|works|] == works;
  }

  /** One pass of the `forEach` at lines 78-114 on the working copy. */
  method ApplyWork(ps: seq<Protein>, w: Work) returns (r: seq<Protein>)
    ensures r == Step(ps, w)
  {
    var index := FindKey(ps, w.protein.key);
    r := ps;
    match w {
      case Placeholder(p) =>
        r := ps + [p];
      case Create(p) =>
        if index == -1 {
          r := ps + [p];
        } else {
          r := ps[index := p];
        }
      case Update(_, patch) =>
        if index != -1 {
          r := ps[index := Patched(ps[index], patch)];
        }
      case Remove(_) =>
        if index != -1 {
          r := ps[..index] + ps[index + 1..];
        }
      case UpdateMolData(_, patch) =>
        if index != -1 {
          r := ps[index := MolDataPatched(ps[index], patch)];
        }
    }
  }

  /** `findIndex(p => p.key === key)` as a loop. */
  method FindKey(ps: seq<Protein>, key: string) returns (i: int)
    ensures i == IndexOfKey(ps, key)
  {
    i := 0;
    while i < |ps| && ps[i].key != key
      invariant 0 <= i <= |ps|
      invariant forall j :: 0 <= j < i ==> ps[j].key != key
    {
      i := i + 1;
    }
    if i == |ps| {
      i := -1;
    }
  }

  /** `find(p => p.molData?.structureKey === key)` as a loop. */
  method FindStructure(ps: seq<Protein>, key: string) returns (i: int)
    ensures i == IndexOfStructure(ps, key)
  {
    i := 0;
    while i < |ps| && ps[i].molData.structureKey != Some(key)
      invariant 0 <= i <= |ps|
      invariant forall j :: 0 <= j < i ==> ps[j].molData.structureKey != Some(key)
    {
      i := i + 1;
    }
    if i == |ps| {
      i := -1;
    }
  }

  /** `proteins.map(p => p.key)`. */
  method KeysOf(ps: seq<Protein>) returns (keys: seq<string>)
    ensures keys == ProteinKeys(ps)
  {
    keys := [];
    for j := 0 to |ps|
      invariant keys == ProteinKeys(ps[..j])
    {
      assert ps[..j + 1][..j] == ps[..j];
      keys := keys + [ps[j].key];
    }
    assert ps[..|ps|] == ps;
  }

  /** The filter and map at lines 53-57. */
  method LoadingKeys(ps: seq<Protein>) returns (keys: seq<string>)
    ensures keys == UnsettledKeys(ps)
  {
    keys := [];
    for j := 0 to |ps|
      invariant keys == UnsettledKeys(ps[..j])
    {
      assert ps[..j + 1][..j] == ps[..j];
      if ps[j].status == Loading {
        keys := keys + [ps[j].key];
      }
    }
    assert ps[..|ps|] == ps;
  }
}
