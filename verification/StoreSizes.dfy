/** Deleting images accounts for exactly the space it frees. */
module StoreSizes {
  import opened Common
  import opened ParentChain
  import opened StoreState
  import opened ImageRemoval
  import opened StoreOps
  import opened StoreIntegrity

  ghost function Sum(m: map<string, int>): int {
    if m == map[] then 0 else var k :| k in m; m[k] + Sum(m - {k})
  }

  /** The sum does not depend on the order in which the map is read. */
  lemma {:induction false} SumWithout(m: map<string, int>, k: string)
    requires k in m
    ensures Sum(m) == m[k] + Sum(m - {k})
    decreases |m|
  {
    var first :| first in m && Sum(m) == m[first] + Sum(m - {first});
    if first != k {
      SumWithout(m - {first}, k);
      SumWithout(m - {k}, first);
      assert m - {first} - {k} == m - {k} - {first};
    }
  }

  /** The recorded size, or the measured one when none is recorded. */
  function Measured(l: Layer): int {
    if l.size == -1 then l.diffSize else l.size
  }

  ghost function LayerSizes(s: State): map<string, int> {
    map l | l in s.layers :: Measured(s.layers[l])
  }

  ghost function ImageSizes(s: State): map<string, int> {
    map i | i in s.images :: Sum(s.images[i].bigData)
  }

  ghost function TotalSize(s: State): int {
    Sum(LayerSizes(s)) + Sum(ImageSizes(s))
  }

  ghost function SizeIn(s: State, l: string): int {
    if l in s.layers then Measured(s.layers[l]) else 0
  }

  ghost function SizeOf(s: State, ls: seq<string>): int {
    if ls == [] then 0 else SizeOf(s, ls[..|ls| - 1]) + SizeIn(s, ls[|ls| - 1])
  }

  lemma {:induction false} DroppedSize(s: State, ls: seq<string>)
    requires Distinct(ls) && forall l :: l in ls ==> l in s.layers
    ensures Sum(LayerSizes(s)) == Sum(LayerSizes(DropLayers(s, Elements(ls)))) + SizeOf(s, ls)
  {
    if ls == [] {
      assert DropLayers(s, Elements(ls)) == s;
    } else {
      var last, rest := ls[|ls| - 1], ls[..|ls| - 1];
      DroppedSize(s, rest);
      var t := DropLayers(s, Elements(rest));
      assert last in t.layers;
      SumWithout(LayerSizes(t), last);
      assert LayerSizes(t) - {last} == LayerSizes(DropLayers(s, Elements(ls)));
    }
  }

  lemma {:induction false} ChainExists(s: State, id: string, j: nat)
    requires ParentsExist(s) && ImageLayersExist(s) && id in s.images && ChainAt(s, id, j) != ""
    ensures ChainAt(s, id, j) in s.layers
  {
    if j > 0 {
      ClimbTurns(ParentsOf(s), s.images[id].top, j - 1);
      ChainExists(s, id, j - 1);
    }
  }

  lemma RemovedExists(s: State, id: string, removed: seq<string>, k: nat)
    requires Integrity(s) && id in s.images && Removal(s, id, removed) && k < |removed|
    ensures removed[k] in s.layers
  {
    var copies := s.images[id].mapped;
    if k < |copies| {
      assert removed[k] == removed[..|copies|][k];
      assert MappedCopyOf(s, id, copies[k]);
    } else {
      ChainExists(s, id, k - |copies|);
    }
  }

  lemma RemovedDiffer(s: State, id: string, removed: seq<string>, k: nat, l: nat)
    requires Integrity(s) && id in s.images && Removal(s, id, removed) && k < l < |removed|
    requires forall c :: c in s.containers ==> s.containers[c].image != id
    ensures removed[k] != removed[l]
  {
    var copies := s.images[id].mapped;
    assert k < |copies| ==> removed[k] == removed[..|copies|][k] == copies[k];
    if l < |copies| {
      assert removed[l] == removed[..|copies|][l] == copies[l];
    } else if k < |copies| {
      UnusedImageHasBareCopies(s, id);
      CopyIsOffChain(s, id, copies[k], l - |copies|);
    } else {
      var i, j := k - |copies|, l - |copies|;
      assert removed[|copies| + i] == ChainAt(s, id, i) && removed[|copies| + j] == ChainAt(s, id, j);
      if ChainAt(s, id, i) == ChainAt(s, id, j) {
        ChainVisitsOnce(ParentsOf(s), s.images[id].top, i, j);
        assert false;
      }
    }
  }

  /** The list of layers to remove names existing layers, each of them once. */
  lemma RemovalNamesEachOnce(s: State, id: string, removed: seq<string>)
    requires Integrity(s) && id in s.images && Removal(s, id, removed)
    requires forall c :: c in s.containers ==> s.containers[c].image != id
    ensures Distinct(removed) && forall l :: l in removed ==> l in s.layers
  {
    forall k | 0 <= k < |removed|
      ensures removed[k] in s.layers
    {
      RemovedExists(s, id, removed, k);
    }
    forall k, l | 0 <= k < l < |removed|
      ensures removed[k] != removed[l]
    {
      RemovedDiffer(s, id, removed, k, l);
    }
  }

  lemma CopyIsOffChain(s: State, id: string, m: string, j: nat)
    requires Integrity(s) && MappedCopyOf(s, id, m) && Leaf(s, m)
    ensures ChainAt(s, id, j) != m
  {
    assert PrivateCopy(s, id, m);
    if j > 0 {
      ClimbTurns(ParentsOf(s), s.images[id].top, j - 1);
      if ChainAt(s, id, j - 1) != "" {
        ChainExists(s, id, j - 1);
      } else {
        assert Parent(ParentsOf(s), "") == "";
      }
    }
  }

  /** What DeleteImageWithSize reports for a deletion that removes `removed`. */
  ghost function Reported(s: State, id: string, removed: seq<string>): int
    requires id in s.images
  {
    Sum(s.images[id].bigData) + SizeOf(s, removed)
  }

  /** A completed deletion of image `id` from `s`. */
  ghost predicate Deletes(s: State, id: string, removed: seq<string>, s': State) {
    id in s.images && DeleteImage(s, id, removed, |removed|, s', Ok)
  }

  lemma FreedSize(s: State, id: string, removed: seq<string>, s': State)
    requires id in s.images && Distinct(removed) && (forall l :: l in removed ==> l in s.layers)
    requires s' == DropLayers(s.(images := s.images - {id}), Elements(removed))
    ensures TotalSize(s) - TotalSize(s') == Reported(s, id, removed)
  {
    DroppedSize(s, removed);
    assert LayerSizes(s') == LayerSizes(DropLayers(s, Elements(removed)));
    SumWithout(ImageSizes(s), id);
    assert ImageSizes(s') == ImageSizes(s) - {id};
  }

  lemma DeletionFreesWhatItReports(s: State, id: string, removed: seq<string>, s': State)
    requires Integrity(s) && Deletes(s, id, removed, s')
    ensures Integrity(s') && Distinct(removed) && forall l :: l in removed ==> l in s.layers && l !in s'.layers
    ensures TotalSize(s) - TotalSize(s') == Reported(s, id, removed)
  {
    RemovalNamesEachOnce(s, id, removed);
    DeleteImageKeepsIntegrity(s, id, removed, |removed|, s', Ok);
    assert removed[..|removed|] == removed;
    FreedSize(s, id, removed, s');
  }

  /** A run of completed deletions. */
  ghost predicate IsDeletionRun(states: seq<State>, ids: seq<string>, removals: seq<seq<string>>) {
    && |ids| == |removals| && |states| == |ids| + 1
    && forall k: nat :: k < |ids| ==> DeletesAt(states, ids, removals, k)
  }

  /** The step at `k` is a completed deletion. */
  ghost predicate DeletesAt(states: seq<State>, ids: seq<string>, removals: seq<seq<string>>, k: nat)
    requires |ids| == |removals| && |states| == |ids| + 1 && k < |ids|
  {
    Deletes(states[k], ids[k], removals[k], states[k + 1])
  }

  ghost function ReportedInAll(states: seq<State>, ids: seq<string>, removals: seq<seq<string>>, n: nat): int
    requires IsDeletionRun(states, ids, removals) && n <= |ids|
  {
    if n == 0 then 0
    else
      assert DeletesAt(states, ids, removals, n - 1);
      ReportedInAll(states, ids, removals, n - 1) + Reported(states[n - 1], ids[n - 1], removals[n - 1])
  }

  lemma {:induction false} DeletionsKeepIntegrity(states: seq<State>, ids: seq<string>, removals: seq<seq<string>>, n: nat)
    requires IsDeletionRun(states, ids, removals) && n <= |ids| && Integrity(states[0])
    ensures Integrity(states[n])
  {
    if n > 0 {
      DeletionsKeepIntegrity(states, ids, removals, n - 1);
      assert DeletesAt(states, ids, removals, n - 1);
      DeletionFreesWhatItReports(states[n - 1], ids[n - 1], removals[n - 1], states[n]);
    }
  }

  lemma ReportOneMore(states: seq<State>, ids: seq<string>, removals: seq<seq<string>>, k: nat)
    requires IsDeletionRun(states, ids, removals) && k < |ids| && Integrity(states[0])
    ensures ReportedInAll(states, ids, removals, k + 1)
         == ReportedInAll(states, ids, removals, k) + (TotalSize(states[k]) - TotalSize(states[k + 1]))
  {
    DeletionsKeepIntegrity(states, ids, removals, k);
    assert DeletesAt(states, ids, removals, k);
    DeletionFreesWhatItReports(states[k], ids[k], removals[k], states[k + 1]);
  }

  /** Over any run of deletions the reported sizes add up to the drop in total size. */
  lemma {:induction false} ReportsAddUp(states: seq<State>, ids: seq<string>, removals: seq<seq<string>>, n: nat)
    requires IsDeletionRun(states, ids, removals) && n <= |ids| && Integrity(states[0])
    ensures ReportedInAll(states, ids, removals, n) == TotalSize(states[0]) - TotalSize(states[n])
  {
    if n > 0 {
      ReportsAddUp(states, ids, removals, n - 1);
      ReportOneMore(states, ids, removals, n - 1);
    }
  }

  lemma {:induction false} GoneStaysGone(states: seq<State>, ids: seq<string>, removals: seq<seq<string>>, i: nat, j: nat, l: string)
    requires IsDeletionRun(states, ids, removals) && i <= j < |states| && l !in states[i].layers
    ensures l !in states[j].layers
    decreases j - i
  {
    if i < j {
      assert DeletesAt(states, ids, removals, i);
      GoneStaysGone(states, ids, removals, i + 1, j, l);
    }
  }

  lemma RemovedGoes(states: seq<State>, ids: seq<string>, removals: seq<seq<string>>, k: nat, l: string)
    requires IsDeletionRun(states, ids, removals) && Integrity(states[0]) && k < |ids| && l in removals[k]
    ensures l in states[k].layers && l !in states[k + 1].layers
  {
    DeletionsKeepIntegrity(states, ids, removals, k);
    assert DeletesAt(states, ids, removals, k);
    DeletionFreesWhatItReports(states[k], ids[k], removals[k], states[k + 1]);
  }

  /** A shared layer is counted in one deletion only, the one that releases it. */
  lemma CountedOnce(states: seq<State>, ids: seq<string>, removals: seq<seq<string>>, i: nat, j: nat, l: string)
    requires IsDeletionRun(states, ids, removals) && Integrity(states[0]) && i < j < |ids|
    requires l in removals[i]
    ensures l !in removals[j]
  {
    RemovedGoes(states, ids, removals, i, l);
    GoneStaysGone(states, ids, removals, i + 1, j, l);
    if l in removals[j] {
      RemovedGoes(states, ids, removals, j, l);
    }
  }
}
