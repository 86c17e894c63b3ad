/** The measurement hook: the list of distance measurements, the global visibility flag, and
    the reconciliation of each measurement's visibility with the proteins on show. */
module Measurements {
  import opened Common
  import opened StructureModel

  /** One measurement: the engine reference of its representation, whether it is shown, the
      structure it belongs to and the two locations it joins. */
  datatype Distance = Distance(ref: string, visible: bool, structureKey: string, locations: seq<Location>)

  function Flipped(d: Distance): Distance
  {
    d.(visible := !d.visible)
  }

  // ------------------------------------------------------------ selecting entries

  /** The positions among the first `n` whose entry satisfies `p`, in increasing order. */
  function IndicesWhere(ds: seq<Distance>, p: Distance -> bool, n: nat): (r: seq<nat>)
    requires n <= |ds|
    ensures |r| <= n
    ensures forall k :: 0 <= k < |r| ==> r[k] < n
  {
    if n == 0 then []
    else IndicesWhere(ds, p, n - 1) + (if p(ds[n - 1]) then [n - 1] else [])
  }

  /** The positions are increasing and are exactly those whose entry satisfies `p`. */
  lemma {:induction false} IndicesWhereMeaning(ds: seq<Distance>, p: Distance -> bool, n: nat)
    requires n <= |ds|
    ensures var r := IndicesWhere(ds, p, n);
            (forall a, b :: 0 <= a < b < |r| ==> r[a] < r[b]) &&
            (forall i :: 0 <= i < n ==> (i in r <==> p(ds[i])))
  {
    if n > 0 {
      IndicesWhereMeaning(ds, p, n - 1);
      var before := IndicesWhere(ds, p, n - 1);
      if p(ds[n - 1]) {
        assert IndicesWhere(ds, p, n) == before + [n - 1];
      } else {
        assert IndicesWhere(ds, p, n) == before;
      }
    }
  }

  /** Every entry satisfying `p` flipped, the others as they were. */
  function FlipWhere(ds: seq<Distance>, p: Distance -> bool): (r: seq<Distance>)
    ensures |r| == |ds|
    ensures forall i :: 0 <= i < |ds| ==>
              r[i].ref == ds[i].ref && r[i].structureKey == ds[i].structureKey && r[i].locations == ds[i].locations
    ensures forall i :: 0 <= i < |ds| ==> (r[i].visible != ds[i].visible <==> p(ds[i]))
  {
    seq(|ds|, i requires 0 <= i < |ds| => if p(ds[i]) then Flipped(ds[i]) else ds[i])
  }

  /** The references handed to `ToggleVisibility`, one per flipped entry, in list order. */
  function RefsWhere(ds: seq<Distance>, p: Distance -> bool): (r: seq<string>)
    ensures |r| == |IndicesWhere(ds, p, |ds|)|
  {
    var idx := IndicesWhere(ds, p, |ds|);
    seq(|idx|, k requires 0 <= k < |idx| => ds[idx[k]].ref)
  }

  // ------------------------------------------------------------ the global toggle

  function SameAsFlag(flag: bool): Distance -> bool
  {
    (d: Distance) => d.visible == flag
  }

  /** After the toggle of lines 38-49 every entry shows the new flag. */
  lemma ToggleSettles(ds: seq<Distance>, flag: bool)
    ensures forall i :: 0 <= i < |ds| ==> FlipWhere(ds, SameAsFlag(flag))[i].visible == !flag
  {
    var r := FlipWhere(ds, SameAsFlag(flag));
    forall i | 0 <= i < |ds|
      ensures r[i].visible == !flag
    {
      assert SameAsFlag(flag)(ds[i]) <==> ds[i].visible == flag;
    }
  }

  /** Toggling twice leaves every entry as it was, shown exactly when the flag is. */
  lemma ToggleTwice(ds: seq<Distance>, flag: bool)
    ensures var twice := FlipWhere(FlipWhere(ds, SameAsFlag(flag)), SameAsFlag(!flag));
            |twice| == |ds| &&
            forall i :: 0 <= i < |ds| ==> twice[i] == ds[i].(visible := flag)
  {
    var once := FlipWhere(ds, SameAsFlag(flag));
    var twice := FlipWhere(once, SameAsFlag(!flag));
    ToggleSettles(ds, flag);
    forall i | 0 <= i < |ds|
      ensures twice[i] == ds[i].(visible := flag)
    {
      assert SameAsFlag(!flag)(once[i]);
    }
  }

  // ------------------------------------------------------------ reconciliation

  /** The visibility a measurement should have (lines 54-69): none while the flag is off,
      all while the flag is on and no protein is listed, otherwise exactly the measurements of
      the listed proteins. */
  predicate Target(d: Distance, flag: bool, visibleProteins: seq<string>)
  {
    flag && (|visibleProteins| == 0 || d.structureKey in visibleProteins)
  }

  /** The three filters of lines 54-69. */
  predicate NeedsToggle(d: Distance, flag: bool, visibleProteins: seq<string>)
  {
    if !flag then d.visible
    else if |visibleProteins| == 0 then !d.visible
    else (d.visible && d.structureKey !in visibleProteins) || (!d.visible && d.structureKey in visibleProteins)
  }

  function NeedsToggleTest(flag: bool, visibleProteins: seq<string>): Distance -> bool
  {
    (d: Distance) => NeedsToggle(d, flag, visibleProteins)
  }

  /** An entry is picked exactly when its visibility disagrees with its target. */
  lemma NeedsToggleMeaning(d: Distance, flag: bool, visibleProteins: seq<string>)
    ensures NeedsToggle(d, flag, visibleProteins) <==> d.visible != Target(d, flag, visibleProteins)
  {
  }

  /** The list after the effect of lines 51-77. */
  function Reconciled(ds: seq<Distance>, flag: bool, visibleProteins: seq<string>): seq<Distance>
  {
    FlipWhere(ds, NeedsToggleTest(flag, visibleProteins))
  }

  /** After the effect every measurement has its target visibility, and running the effect
      again picks nothing. */
  lemma ReconciledMeaning(ds: seq<Distance>, flag: bool, visibleProteins: seq<string>)
    ensures var r := Reconciled(ds, flag, visibleProteins);
            (forall i :: 0 <= i < |ds| ==> r[i].visible == Target(ds[i], flag, visibleProteins)) &&
            (forall i :: 0 <= i < |ds| ==> !NeedsToggle(r[i], flag, visibleProteins))
  {
    var r := Reconciled(ds, flag, visibleProteins);
    forall i | 0 <= i < |ds|
      ensures r[i].visible == Target(ds[i], flag, visibleProteins)
      ensures !NeedsToggle(r[i], flag, visibleProteins)
    {
      assert NeedsToggleTest(flag, visibleProteins)(ds[i]) <==> NeedsToggle(ds[i], flag, visibleProteins);
      NeedsToggleMeaning(ds[i], flag, visibleProteins);
      NeedsToggleMeaning(r[i], flag, visibleProteins);
    }
  }

  /** The effect is idempotent. */
  lemma ReconcileIdempotent(ds: seq<Distance>, flag: bool, visibleProteins: seq<string>)
    ensures Reconciled(Reconciled(ds, flag, visibleProteins), flag, visibleProteins) == Reconciled(ds, flag, visibleProteins)
  {
    var r := Reconciled(ds, flag, visibleProteins);
    var rr := Reconciled(r, flag, visibleProteins);
    ReconciledMeaning(ds, flag, visibleProteins);
    forall i | 0 <= i < |r|
      ensures rr[i] == r[i]
    {
      assert !NeedsToggleTest(flag, visibleProteins)(r[i]);
    }
  }

  // ------------------------------------------------------------ the loops

  /** A `forEach` that toggles and flips every entry satisfying `p` as it passes. */
  method FlipEach(ds: seq<Distance>, p: Distance -> bool) returns (out: seq<Distance>, refs: seq<string>)
    ensures out == FlipWhere(ds, p)
    ensures refs == RefsWhere(ds, p)
  {
    out := ds;
    refs := [];
    ghost var idx: seq<nat> := [];
    for i := 0 to |ds|
      invariant |out| == |ds|
      invariant forall j :: 0 <= j < i ==> out[j] == FlipWhere(ds, p)[j]
      invariant forall j :: i <= j < |ds| ==> out[j] == ds[j]
      invariant idx == IndicesWhere(ds, p, i)
      invariant |refs| == |idx| && forall k :: 0 <= k < |idx| ==> refs[k] == ds[idx[k]].ref
    {
      if p(ds[i]) {
        refs := refs + [ds[i].ref];
        out := out[i := Flipped(ds[i])];
        idx := idx + [i];
      }
    }
  }

  /** `newDistanceDatas.filter(...)` of lines 54-69: the positions of the entries to flip. */
  method SelectWhere(ds: seq<Distance>, p: Distance -> bool) returns (idx: seq<nat>)
    ensures idx == IndicesWhere(ds, p, |ds|)
  {
    idx := [];
    for i := 0 to |ds|
      invariant idx == IndicesWhere(ds, p, i)
    {
      if p(ds[i]) {
        idx := idx + [i];
      }
    }
  }

  /** `needToToggle.forEach(...)` (lines 71-75): toggle and flip each chosen entry. */
  method FlipAt(ds: seq<Distance>, idx: seq<nat>) returns (out: seq<Distance>, refs: seq<string>)
    requires forall k :: 0 <= k < |idx| ==> idx[k] < |ds|
    requires forall a, b :: 0 <= a < b < |idx| ==> idx[a] < idx[b]
    ensures |out| == |ds|
    ensures forall i :: 0 <= i < |ds| ==> out[i] == if i in idx then Flipped(ds[i]) else ds[i]
    ensures |refs| == |idx| && forall k :: 0 <= k < |idx| ==> refs[k] == ds[idx[k]].ref
  {
    out := ds;
    refs := [];
    for k := 0 to |idx|
      invariant |out| == |ds| && |refs| == k
      invariant forall i :: 0 <= i < |ds| ==> out[i] == if i in idx[..k] then Flipped(ds[i]) else ds[i]
      invariant forall j :: 0 <= j < k ==> refs[j] == ds[idx[j]].ref
    {
      var i := idx[k];
      assert i !in idx[..k];
      refs := refs + [out[i].ref];
      out := out[i := Flipped(out[i])];
      assert idx[..k + 1] == idx[..k] + [i];
    }
    assert idx[..|idx|] == idx;
  }

  /** Flipping the chosen positions is flipping where `p` holds. */
  lemma FlipChosen(ds: seq<Distance>, p: Distance -> bool, out: seq<Distance>, refs: seq<string>)
    requires var idx := IndicesWhere(ds, p, |ds|);
             |out| == |ds| && (forall i :: 0 <= i < |ds| ==> out[i] == if i in idx then Flipped(ds[i]) else ds[i]) &&
             |refs| == |idx| && (forall k :: 0 <= k < |idx| ==> refs[k] == ds[idx[k]].ref)
    ensures out == FlipWhere(ds, p) && refs == RefsWhere(ds, p)
  {
    IndicesWhereMeaning(ds, p, |ds|);
  }

  /** The effect's two passes: pick with `filter`, then flip each pick. */
  method ReconcileEach(ds: seq<Distance>, test: Distance -> bool) returns (out: seq<Distance>, refs: seq<string>)
    ensures out == FlipWhere(ds, test)
    ensures refs == RefsWhere(ds, test)
  {
    var needToToggle := SelectWhere(ds, test);
    IndicesWhereMeaning(ds, test, |ds|);
    out, refs := FlipAt(ds, needToToggle);
    FlipChosen(ds, test, out, refs);
  }

  /** The hook's state: the measurements, the global flag and the references handed to
      `ToggleVisibility`, in call order. */
  class MeasurementStore {
    var distanceDatas: seq<Distance>
    var visible: bool
    var toggled: seq<string>

    constructor()
      ensures distanceDatas == [] && visible && toggled == []
    {
      distanceDatas := [];
      visible := true;
      toggled := [];
    }

    /** `getDistance` (lines 20-36), given the reference of the representation the engine
        made for the two locations, if any. */
    method GetDistance(location1: Location, location2: Location, structureKey: string, representation: Option<string>)
      modifies this
      ensures representation.None? ==> distanceDatas == old(distanceDatas)
      ensures representation.Some? ==>
                distanceDatas == old(distanceDatas) + [Distance(representation.value, true, structureKey, [location1, location2])]
      ensures visible == old(visible) && toggled == old(toggled)
    {
      if representation.None? {
        return;
      }
      distanceDatas := distanceDatas + [Distance(representation.value, true, structureKey, [location1, location2])];
    }

    /** `handleToggleDistanceVisible` (lines 38-49). */
    method HandleToggleDistanceVisible()
      modifies this
      ensures distanceDatas == FlipWhere(old(distanceDatas), SameAsFlag(old(visible)))
      ensures toggled == old(toggled) + RefsWhere(old(distanceDatas), SameAsFlag(old(visible)))
      ensures visible == !old(visible)
    {
      var out, refs := FlipEach(distanceDatas, SameAsFlag(visible));
      distanceDatas := out;
      toggled := toggled + refs;
      visible := !visible;
    }

    /** The effect run when the visible proteins change (lines 51-77). */
    method SyncVisibleProteins(visibleProteins: seq<string>)
      modifies this
      ensures distanceDatas == Reconciled(old(distanceDatas), visible, visibleProteins)
      ensures toggled == old(toggled) + RefsWhere(old(distanceDatas), NeedsToggleTest(visible, visibleProteins))
      ensures visible == old(visible)
    {
      var out, refs := ReconcileEach(distanceDatas, NeedsToggleTest(visible, visibleProteins));
      distanceDatas := out;
      toggled := toggled + refs;
    }
  }
}
