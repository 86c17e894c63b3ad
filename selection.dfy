/** The buffered selection manager of `useGetSelection.ts`: pending additions and removals
    flushed into the selection by `sync`, range toggling along a sequence, and the merge of
    queued marker statuses. */
module Selection {
  import opened Common
  import opened StructureModel
  import opened GetLocation

  // ------------------------------------------------------------------ removal

  /** The test of lines 61-65: same structure and chain group, and the same atom index,
      author sequence number or residue index (`===`, so `NaN` matches nothing). */
  predicate Matches(s: Location, r: Location)
  {
    s.structureKey == r.structureKey && s.chainGroupId == r.chainGroupId &&
    (StrictEq(s.atomIndex, r.atomIndex) || StrictEq(s.chainIndex, r.chainIndex) || StrictEq(s.seqIdx, r.seqIdx))
  }

  function MatchesOf(r: Location): Location -> bool
  {
    (s: Location) => Matches(s, r)
  }

  /** One removal (lines 61-68): the first entry matching `r` is spliced out, if any. */
  function RemoveFirst(s: seq<Location>, r: Location): (t: seq<Location>)
    ensures (forall j :: 0 <= j < |s| ==> !Matches(s[j], r)) ==> t == s
    ensures (exists j :: 0 <= j < |s| && Matches(s[j], r)) ==>
              |t| == |s| - 1 &&
              var i := FirstWhere(s, MatchesOf(r));
              0 <= i < |s| && Matches(s[i], r) && (forall j :: 0 <= j < i ==> !Matches(s[j], r)) &&
              t[..i] == s[..i] && t[i..] == s[i + 1..]
  {
    var i := FirstWhere(s, MatchesOf(r));
    FirstMatchOf(s, r);
    if i == -1 then s else s[..i] + s[i + 1..]
  }

  /** The search for the first matching entry, in terms of `Matches`. */
  lemma FirstMatchOf(s: seq<Location>, r: Location)
    ensures var i := FirstWhere(s, MatchesOf(r));
            (i == -1 ==> forall j :: 0 <= j < |s| ==> !Matches(s[j], r)) &&
            (i != -1 ==> 0 <= i < |s| && Matches(s[i], r) && forall j :: 0 <= j < i ==> !Matches(s[j], r))
  {
    var i := FirstWhere(s, MatchesOf(r));
    if i != -1 {
      assert MatchesOf(r)(s[i]);
      forall j | 0 <= j < i
        ensures !Matches(s[j], r)
      {
        assert !MatchesOf(r)(s[j]);
      }
    } else {
      forall j | 0 <= j < |s|
        ensures !Matches(s[j], r)
      {
        assert !MatchesOf(r)(s[j]);
      }
    }
  }

  /** A removal takes away at most one entry, and only one that was there. */
  lemma RemoveFirstShrinks(s: seq<Location>, r: Location)
    ensures multiset(RemoveFirst(s, r)) <= multiset(s)
    ensures |s| - 1 <= |RemoveFirst(s, r)| <= |s|
  {
    var i := FirstWhere(s, MatchesOf(r));
    if i == -1 {
      assert RemoveFirst(s, r) == s;
    } else {
      assert RemoveFirst(s, r) == s[..i] + s[i + 1..];
      RemoveAtShrinks(s, i);
    }
  }

  /** The removals applied in order. */
  function ApplyRemoves(s: seq<Location>, removes: seq<Location>): seq<Location>
  {
    if |removes| == 0 then s
    else RemoveFirst(ApplyRemoves(s, removes[..|removes| - 1]), removes[|removes| - 1])
  }

  /** Each removal deletes at most one entry: what is left is a sub-multiset of the input
      and at most `|removes|` shorter. */
  lemma {:induction false} ApplyRemovesShrinks(s: seq<Location>, removes: seq<Location>)
    ensures multiset(ApplyRemoves(s, removes)) <= multiset(s)
    ensures |s| - |removes| <= |ApplyRemoves(s, removes)| <= |s|
  {
    if |removes| > 0 {
      var before := ApplyRemoves(s, removes[..|removes| - 1]);
      ApplyRemovesShrinks(s, removes[..|removes| - 1]);
      RemoveFirstShrinks(before, removes[|removes| - 1]);
    }
  }

  // ------------------------------------------------------------ de-duplication

  /** The key test of line 71: same structure, chain name and author sequence number. */
  predicate SameEntry(a: Location, b: Location)
  {
    a.structureKey == b.structureKey && a.chainName == b.chainName && StrictEq(a.chainIndex, b.chainIndex)
  }

  function SameAs(a: Location): Location -> bool
  {
    (b: Location) => SameEntry(a, b)
  }

  /** Entry `i` survives the filter of lines 70-72: the first entry with its key is itself. */
  predicate FirstOfKey(s: seq<Location>, i: int)
    requires 0 <= i < |s|
  {
    FirstWhere(s, SameAs(s[i])) == i
  }

  /** An entry survives exactly when it has a key equal to itself (its author sequence number
      is not `NaN`) and no earlier entry has that key. */
  lemma FirstOfKeyMeaning(s: seq<Location>, i: int)
    requires 0 <= i < |s|
    ensures FirstOfKey(s, i) <==> SameEntry(s[i], s[i]) && forall j :: 0 <= j < i ==> !SameEntry(s[i], s[j])
  {
    var k := FirstWhere(s, SameAs(s[i]));
    if SameEntry(s[i], s[i]) && forall j :: 0 <= j < i ==> !SameEntry(s[i], s[j]) {
      if k != i {
        assert SameAs(s[i])(s[i]);
      }
    }
  }

  function FirstOfKeyTest(s: seq<Location>): nat -> bool
  {
    (i: nat) => i < |s| && FirstOfKey(s, i)
  }

  /** The positions among the first `n` that survive, in increasing order. */
  function Kept(s: seq<Location>, n: nat): (r: seq<nat>)
    requires n <= |s|
    ensures |r| <= n
    ensures forall k :: 0 <= k < |r| ==> r[k] < n
  {
    KeptBy(n, FirstOfKeyTest(s))
  }

  /** The surviving positions increase. */
  lemma KeptIncreasing(s: seq<Location>, n: nat)
    requires n <= |s|
    ensures forall p, q :: 0 <= p < q < |Kept(s, n)| ==> Kept(s, n)[p] < Kept(s, n)[q]
  {
    KeptByIncreasing(n, FirstOfKeyTest(s));
  }

  /** A position below `n` survives exactly when it is the first of its key. */
  lemma KeptMembers(s: seq<Location>, n: nat)
    requires n <= |s|
    ensures forall i :: 0 <= i < n ==> (i in Kept(s, n) <==> FirstOfKey(s, i))
  {
    forall i | 0 <= i < n
      ensures i in Kept(s, n) <==> FirstOfKey(s, i)
    {
      KeptByMember(n, FirstOfKeyTest(s), i);
    }
  }

  /** `_selections.filter(...)` of lines 70-72. */
  function Dedup(s: seq<Location>): (d: seq<Location>)
    ensures |d| == |Kept(s, |s|)|
    ensures forall k :: 0 <= k < |d| ==> d[k] == s[Kept(s, |s|)[k]]
  {
    var idx := Kept(s, |s|);
    seq(|idx|, k requires 0 <= k < |idx| => s[idx[k]])
  }

  /** After the filter no two entries share (structure, chain name, author sequence number). */
  lemma DedupUnique(s: seq<Location>)
    ensures forall p, q :: 0 <= p < q < |Dedup(s)| ==> !SameEntry(Dedup(s)[p], Dedup(s)[q])
  {
    var idx := Kept(s, |s|);
    KeptIncreasing(s, |s|);
    KeptMembers(s, |s|);
    forall p, q | 0 <= p < q < |Dedup(s)|
      ensures !SameEntry(Dedup(s)[p], Dedup(s)[q])
    {
      var ip, iq := idx[p], idx[q];
      assert ip < iq && iq in idx;
      FirstOfKeyMeaning(s, iq);
    }
  }

  /** The first entry of each key survives (unless its author sequence number is `NaN`),
      and survivors keep their relative order. */
  lemma DedupKeepsFirst(s: seq<Location>, i: int)
    requires 0 <= i < |s|
    requires SameEntry(s[i], s[i]) && forall j :: 0 <= j < i ==> !SameEntry(s[i], s[j])
    ensures exists k :: 0 <= k < |Dedup(s)| && Kept(s, |s|)[k] == i && Dedup(s)[k] == s[i]
  {
    FirstOfKeyMeaning(s, i);
    KeptMembers(s, |s|);
    var k :| 0 <= k < |Kept(s, |s|)| && Kept(s, |s|)[k] == i;
  }

  /** What `sync` leaves: the selections followed by the additions, each removal applied in
      turn, then the de-duplication; with nothing pending, the selections as they are. */
  function Synced(selections: seq<Location>, add: seq<Location>, remove: seq<Location>): (r: seq<Location>)
    ensures |add| == 0 && |remove| == 0 ==> r == selections
    ensures |r| <= |selections| + |add|
  {
    if |add| == 0 && |remove| == 0 then selections
    else
      ApplyRemovesShrinks(selections + add, remove);
      Dedup(ApplyRemoves(selections + add, remove))
  }

  /** Once something was pending, the flushed selection holds no two entries with the same
      key. */
  lemma SyncedUnique(selections: seq<Location>, add: seq<Location>, remove: seq<Location>)
    requires |add| > 0 || |remove| > 0
    ensures var r := Synced(selections, add, remove);
            forall p, q :: 0 <= p < q < |r| ==> !SameEntry(r[p], r[q])
  {
    DedupUnique(ApplyRemoves(selections + add, remove));
  }

  // ------------------------------------------------------------------- ranges

  /** Line 127: the entry of `range` holding `v` becomes -1, if there is one. */
  function Mark(range: seq<int>, v: int): (r: seq<int>)
    ensures |r| == |range|
  {
    var i := IndexOf(range, v);
    if i == -1 then range else range[i := -1]
  }

  /** Whether a selection's residue index lies in `[start, end]` (`seqIdx! >= start`, with
      `undefined` and `NaN` failing both tests). */
  predicate InRange(seqIdx: JsNum, start: int, end: int)
  {
    seqIdx.Num? && start <= seqIdx.value <= end
  }

  /** Whether a selection takes part in the range test: every selection when `key` is
      absent (line 124 as written, `wrapperKey === wrapperKey`), otherwise only the
      selections on the wrapper with that key. */
  predicate Counts(l: Location, key: Option<string>)
  {
    key.None? || l.wrapperKey == key
  }

  /** `range` after the first `n` counted selections marked their residue index. */
  function Marked(range: seq<int>, selections: seq<Location>, key: Option<string>, start: int, end: int, n: nat): (r: seq<int>)
    requires n <= |selections|
    ensures |r| == |range|
  {
    if n == 0 then range
    else
      var before := Marked(range, selections, key, start, end, n - 1);
      var seqIdx := selections[n - 1].seqIdx;
      if Counts(selections[n - 1], key) && InRange(seqIdx, start, end) then Mark(before, seqIdx.value) else before
  }

  /** `Array.from({ length: end - start + 1 }).map((_, i) => start + i)`. */
  function Consecutive(start: int, end: int): (r: seq<int>)
    ensures |r| == if start <= end then end - start + 1 else 0
    ensures forall k :: 0 <= k < |r| ==> r[k] == start + k
    decreases end - start
  {
    if start > end then [] else Consecutive(start, end - 1) + [end]
  }

  /** Whether some counted selection among the first `n` has residue index `v`. */
  predicate Selected(selections: seq<Location>, key: Option<string>, n: nat, v: int)
    requires n <= |selections|
  {
    exists j :: 0 <= j < n && Counts(selections[j], key) && selections[j].seqIdx == Num(v)
  }

  /** Entry `k` of `r` is -1 when some of the first `n` selections has residue index
      `start + k`, and `start + k` otherwise. */
  predicate MarkedAs(r: seq<int>, selections: seq<Location>, key: Option<string>, start: int, n: nat)
    requires n <= |selections|
  {
    forall k :: 0 <= k < |r| ==> r[k] == if Selected(selections, key, n, start + k) then -1 else start + k
  }

  lemma SelectedNext(selections: seq<Location>, key: Option<string>, n: nat, w: int)
    requires 0 < n <= |selections|
    ensures Selected(selections, key, n, w) <==> Selected(selections, key, n - 1, w) || (Counts(selections[n - 1], key) && selections[n - 1].seqIdx == Num(w))
  {
    if Selected(selections, key, n, w) && !(Counts(selections[n - 1], key) && selections[n - 1].seqIdx == Num(w)) {
      var j :| 0 <= j < n && Counts(selections[j], key) && selections[j].seqIdx == Num(w);
      assert j < n - 1;
    }
  }

  /** Marking `v` on a range whose entries are each their own value or -1 clears exactly
      the entry of `v`. */
  lemma MarkOne(before: seq<int>, start: int, v: int)
    requires v != -1
    requires forall k :: 0 <= k < |before| ==> before[k] == start + k || before[k] == -1
    ensures forall k :: 0 <= k < |before| ==> Mark(before, v)[k] == if start + k == v then -1 else before[k]
  {
    var i := IndexOf(before, v);
    if i != -1 {
      assert before[i] == start + i;
    } else {
      forall k | 0 <= k < |before| && start + k == v
        ensures before[k] == -1
      {
        assert before[k] != v;
      }
    }
  }

  /** On the range of residue indices from `start` (none of them -1), each position ends up
      -1 exactly when some selection has its residue index, and otherwise keeps it. */
  lemma {:induction false} MarkedMeaning(selections: seq<Location>, key: Option<string>, start: int, end: int, n: nat)
    requires n <= |selections| && start <= end && !(start <= -1 <= end)
    ensures MarkedAs(Marked(Consecutive(start, end), selections, key, start, end, n), selections, key, start, n)
  {
    var range := Consecutive(start, end);
    if n > 0 {
      MarkedMeaning(selections, key, start, end, n - 1);
      var before := Marked(range, selections, key, start, end, n - 1);
      var seqIdx := selections[n - 1].seqIdx;
      var r := Marked(range, selections, key, start, end, n);
      if Counts(selections[n - 1], key) && InRange(seqIdx, start, end) {
        MarkOne(before, start, seqIdx.value);
      }
      forall k | 0 <= k < |r|
        ensures r[k] == if Selected(selections, key, n, start + k) then -1 else start + k
      {
        SelectedNext(selections, key, n, start + k);
      }
    }
  }

  /** The numbers of `s` other than -1, in order. */
  function Unmarked(s: seq<int>): (r: seq<int>)
    ensures |r| <= |s|
  {
    if |s| == 0 then [] else Unmarked(s[..|s| - 1]) + (if s[|s| - 1] != -1 then [s[|s| - 1]] else [])
  }

  /** A number other than -1 is kept exactly when it is in `s`. */
  lemma {:induction false} UnmarkedMembers(s: seq<int>, v: int)
    ensures v in Unmarked(s) <==> v != -1 && v in s
  {
    if |s| > 0 {
      UnmarkedMembers(s[..|s| - 1], v);
      assert s == s[..|s| - 1] + [s[|s| - 1]];
    }
  }

  /** The residue indices a range selection of `[start, end]` clicks (lines 120-134): those
      not yet selected, or the whole range when all are. */
  function RangeOuts(selections: seq<Location>, key: Option<string>, start: int, end: int): seq<int>
  {
    var range := Consecutive(start, end);
    var outs := Unmarked(Marked(range, selections, key, start, end, |selections|));
    if |outs| == 0 then range else outs
  }

  /** A selection at residue index `seqIdx` of the wrapper with key `wrapperKey`. */
  function SelectionAt(wrapperKey: string, seqIdx: int): (l: Location)
    ensures l.wrapperKey == Some(wrapperKey) && l.seqIdx == Num(seqIdx)
  {
    Location(None, None, Some("A"), Some("s"), Some(wrapperKey), Some(0), Num(seqIdx), [], Num(seqIdx), Num(seqIdx), None)
  }

  /** Line 124 compares a selection's wrapper key with itself, so a selection on another
      chain masks the range: with residue 3 of wrapper "B" selected, a range selection of
      3..4 on wrapper "A" clicks only 4 as written, and 3 and 4 once the key is compared
      with the ranged wrapper's. */
  lemma OtherWrapperMasksRange()
    ensures RangeOuts([SelectionAt("B", 3)], None, 3, 4) == [4]
    ensures RangeOuts([SelectionAt("B", 3)], Some("A"), 3, 4) == [3, 4]
  {
    var sels := [SelectionAt("B", 3)];
    RangeThreeFour();
    assert Marked([3, 4], sels, None, 3, 4, 1) == [-1, 4] by {
      assert IndexOf([3, 4], 3) == 0;
    }
    UnmarkedPair(-1, 4);
    assert Marked([3, 4], sels, Some("A"), 3, 4, 1) == [3, 4];
    UnmarkedPair(3, 4);
  }

  lemma RangeThreeFour()
    ensures Consecutive(3, 4) == [3, 4]
  {
  }

  /** `Unmarked` on two numbers. */
  lemma UnmarkedPair(a: int, b: int)
    ensures Unmarked([a, b]) == (if a != -1 then [a] else []) + (if b != -1 then [b] else [])
  {
    assert [a, b][..1] == [a];
    assert [a][..0] == [];
  }

  /** A sequence of -1 only has nothing unmarked. */
  lemma {:induction false} UnmarkedNone(s: seq<int>)
    requires forall k :: 0 <= k < |s| ==> s[k] == -1
    ensures Unmarked(s) == []
  {
    if |s| > 0 {
      UnmarkedNone(s[..|s| - 1]);
    }
  }

  /** On a range without -1: a residue index of the range is clicked exactly when no
      selection has it, unless every one is selected, and then the whole range is. */
  lemma RangeOutsMeaning(selections: seq<Location>, key: Option<string>, start: int, end: int, v: int)
    requires start <= end && !(start <= -1 <= end)
    ensures AllSelected(selections, key, start, end) ==> RangeOuts(selections, key, start, end) == Consecutive(start, end)
    ensures !AllSelected(selections, key, start, end) ==>
              (v in RangeOuts(selections, key, start, end) <==> start <= v <= end && !Selected(selections, key, |selections|, v))
  {
    var range := Consecutive(start, end);
    var marked := Marked(range, selections, key, start, end, |selections|);
    MarkedMeaning(selections, key, start, end, |selections|);
    if AllSelected(selections, key, start, end) {
      forall k | 0 <= k < |marked|
        ensures marked[k] == -1
      {
        assert Selected(selections, key, |selections|, start + k);
      }
      UnmarkedNone(marked);
    } else {
      var w :| start <= w <= end && !Selected(selections, key, |selections|, w);
      UnmarkedMembers(marked, w);
      assert marked[w - start] == w;
      UnmarkedMembers(marked, v);
      if v in marked && v != -1 {
        var k :| 0 <= k < |marked| && marked[k] == v;
      }
      if start <= v <= end && !Selected(selections, key, |selections|, v) {
        assert marked[v - start] == v;
      }
    }
  }

  /** Every residue index of `[start, end]` is already selected. */
  predicate AllSelected(selections: seq<Location>, key: Option<string>, start: int, end: int)
  {
    forall w :: start <= w <= end ==> Selected(selections, key, |selections|, w)
  }

  // ------------------------------------------------------------------ markers

  /** `{ ...status, ...queue }`: queued statuses win over current ones. */
  function MergeStatus(status: map<string, bool>, queue: map<string, bool>): (r: map<string, bool>)
    ensures r.Keys == status.Keys + queue.Keys
    ensures forall k :: k in queue ==> r[k] == queue[k]
    ensures forall k :: k in status && k !in queue ==> r[k] == status[k]
  {
    status + queue
  }

  /** The selector's modifiers; only `add` and `remove` touch the pending buffers. */
  datatype Modifier = Add | Remove | Set

  /** The hook's selection state: the current selections, the pending buffers, the marker
      statuses and the queue of marker changes not yet applied. */
  class SelectionManager {
    var selections: seq<Location>
    var addBuf: seq<Location>
    var removeBuf: seq<Location>
    var markerStatus: map<string, bool>
    var markerQueue: map<string, bool>

    constructor ()
      ensures selections == [] && addBuf == [] && removeBuf == []
      ensures markerStatus == map[] && markerQueue == map[]
    {
      selections := [];
      addBuf := [];
      removeBuf := [];
      markerStatus := map[];
      markerQueue := map[];
    }

    /** `sync`: with nothing pending the selections are returned as they are; otherwise
        the additions are appended, each removal deletes its first match, duplicates are
        dropped, and the buffers are emptied. */
    method Sync() returns (result: seq<Location>)
      modifies this
      ensures result == selections == Synced(old(selections), old(addBuf), old(removeBuf))
      ensures old(|addBuf| == 0 && |removeBuf| == 0) ==> addBuf == old(addBuf) && removeBuf == old(removeBuf)
      ensures old(|addBuf| > 0 || |removeBuf| > 0) ==> addBuf == [] && removeBuf == []
      ensures markerStatus == old(markerStatus) && markerQueue == old(markerQueue)
    {
      if |addBuf| == 0 && |removeBuf| == 0 {
        return selections;
      }
      var s := RemoveEach(selections + addBuf, removeBuf);
      s := Dedup(s);
      addBuf, removeBuf := [], [];
      selections := s;
      return s;
    }

    /** `modifyRe`: the locations of the loci's statistics join the additions or the
        removals by modifier; other modifiers change nothing, and a resolution that throws
        changes nothing. */
    method ModifyRe(modifier: Modifier, stats: Stats, loci: Option<Loci>, proteins: seq<Protein>)
      returns (thrown: bool)
      modifies this
      ensures thrown <==> LocationsByStats(stats, loci, proteins).Throws?
      ensures var located := LocationsByStats(stats, loci, proteins);
              addBuf == if !thrown && modifier == Add then old(addBuf) + located.value else old(addBuf)
      ensures var located := LocationsByStats(stats, loci, proteins);
              removeBuf == if !thrown && modifier == Remove then old(removeBuf) + located.value else old(removeBuf)
      ensures selections == old(selections)
      ensures markerStatus == old(markerStatus) && markerQueue == old(markerQueue)
    {
      var located := GetLocationByStats(stats, loci, proteins);
      thrown := Buffer(modifier, located);
    }

    /** The buffering half of `modifyRe`, once the locations are resolved. */
    method Buffer(modifier: Modifier, located: Outcome<seq<Location>>) returns (thrown: bool)
      modifies this
      ensures thrown <==> located.Throws?
      ensures addBuf == if !thrown && modifier == Add then old(addBuf) + located.value else old(addBuf)
      ensures removeBuf == if !thrown && modifier == Remove then old(removeBuf) + located.value else old(removeBuf)
      ensures selections == old(selections)
      ensures markerStatus == old(markerStatus) && markerQueue == old(markerQueue)
    {
      if located.Throws? {
        return true;
      }
      if modifier == Add {
        addBuf := addBuf + located.value;
      } else if modifier == Remove {
        removeBuf := removeBuf + located.value;
      }
      return false;
    }

    /** `clearRe`: no selections and nothing pending. */
    method ClearRe()
      modifies this
      ensures selections == [] && addBuf == [] && removeBuf == []
      ensures markerStatus == old(markerStatus) && markerQueue == old(markerQueue)
    {
      selections := [];
      addBuf, removeBuf := [], [];
    }

    /** The residue indices `handleRangeSelection` clicks on `wrapper` for `[start, end]`
        given in either order, after a `sync`; as line 124 compares each selection's
        wrapper key with itself, every selection masks the range, whatever its wrapper. */
    method HandleRangeSelection(wrapper: Wrapper, from: int, to: int) returns (outs: seq<int>)
      modifies this
      ensures selections == Synced(old(selections), old(addBuf), old(removeBuf))
      ensures outs == RangeOuts(selections, None, Min(from, to), Max(from, to))
      ensures markerStatus == old(markerStatus) && markerQueue == old(markerQueue)
    {
      var start, end := Min(from, to), Max(from, to);
      var current := Sync();
      var range := new int[end - start + 1](i => start + i);
      var initial := range[..];
      assert initial == Consecutive(start, end);
      MarkRange(range, current, None, start, end);
      outs := Unmarked(range[..]);
      if |outs| == 0 {
        outs := initial;
      }
    }

    /** `handleMarkerChange` (without the debounced update): queue a status. */
    method HandleMarkerChange(wrapperKey: string, status: bool)
      modifies this
      ensures markerQueue == old(markerQueue)[wrapperKey := status]
      ensures markerStatus == old(markerStatus)
      ensures selections == old(selections) && addBuf == old(addBuf) && removeBuf == old(removeBuf)
    {
      markerQueue := markerQueue[wrapperKey := status];
    }

    /** `handleUpdateMarker`: merge the queue over the statuses and empty it. */
    method HandleUpdateMarker()
      modifies this
      ensures markerStatus == MergeStatus(old(markerStatus), old(markerQueue))
      ensures markerQueue == map[]
      ensures selections == old(selections) && addBuf == old(addBuf) && removeBuf == old(removeBuf)
    {
      markerStatus := MergeStatus(markerStatus, markerQueue);
      markerQueue := map[];
    }

    /** `handleMarkerChangeNow`: queue a status and merge at once. */
    method HandleMarkerChangeNow(wrapperKey: string, status: bool)
      modifies this
      ensures markerStatus == MergeStatus(old(markerStatus), old(markerQueue)[wrapperKey := status])
      ensures markerStatus[wrapperKey] == status
      ensures markerQueue == map[]
      ensures selections == old(selections) && addBuf == old(addBuf) && removeBuf == old(removeBuf)
    {
      HandleMarkerChange(wrapperKey, status);
      HandleUpdateMarker();
    }
  }

  /** The `remove.forEach` loop of lines 60-69 on the local copy of the selections. */
  method RemoveEach(selections: seq<Location>, removes: seq<Location>) returns (s: seq<Location>)
    ensures s == ApplyRemoves(selections, removes)
  {
    s := selections;
    for i := 0 to |removes|
      invariant s == ApplyRemoves(selections, removes[..i])
    {
      var index := FirstWhere(s, MatchesOf(removes[i]));
      if index != -1 {
        s := s[..index] + s[index + 1..];
      }
      assert removes[..i + 1][..i] == removes[..i];
    }
    assert removes[..|removes|] == removes;
  }

  function Min(a: int, b: int): int { if a < b then a else b }

  /** Lines 122-130: every selection whose residue index lies in `[start, end]` marks that
      index of `range` with -1; with a key, only the selections of the wrapper with that
      key do. */
  method MarkRange(range: array<int>, current: seq<Location>, key: Option<string>, start: int, end: int)
    modifies range
    ensures range[..] == Marked(old(range[..]), current, key, start, end, |current|)
  {
    ghost var initial := range[..];
    for i := 0 to |current|
      invariant range[..] == Marked(initial, current, key, start, end, i)
    {
      var seqIdx := current[i].seqIdx;
      if (key.None? || current[i].wrapperKey == key) && seqIdx.Num? && seqIdx.value >= start && seqIdx.value <= end {
        var index := IndexOfArray(range, seqIdx.value);
        if index != -1 {
          range[index] := -1;
        }
      }
    }
  }

  /** `range.indexOf(v)` on an array. */
  method IndexOfArray(a: array<int>, v: int) returns (i: int)
    ensures i == IndexOf(a[..], v)
  {
    i := 0;
    while i < a.Length
      invariant 0 <= i <= a.Length
      invariant forall j :: 0 <= j < i ==> a[j] != v
    {
      if a[i] == v {
        IndexOfIs(a[..], v, i);
        return;
      }
      i := i + 1;
    }
    return -1;
  }
}
