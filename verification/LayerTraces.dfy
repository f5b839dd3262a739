/** Creating and deleting a layer as the durable states it passes through, and why each of them is safe (storage/layers.go). */
module LayerTraces {
  import opened Common
  import opened LayerRecords

  /** How deleting a layer below the records goes: completely, or the driver fails, or the files beside it do. */
  datatype Removal = Completes | DriverFails | FilesFail

  /** How creating a layer goes: which of its steps fails, if any does. */
  datatype Filling = Finishes | DraftUnsaved | CreateFails | ContentsFail | FinishUnsaved

  /** The durable states an operation passes through, the last of them, and the records it leaves in memory. */
  datatype Outcome = Outcome(trace: seq<Disk>, disk: Disk, layers: seq<Record>)

  function Save(ls: seq<Record>, d: Disk, loc: Loc): Disk {
    WithFile(d, loc, OnLoc(ls, loc))
  }

  function Driver(d: Disk, id: string, finished: bool): Disk {
    d.(driver := d.driver[id := finished])
  }

  /** The driver takes a layer's contents apart and then forgets the layer; a layer it does not know is no error. */
  function Remove(d: Disk, id: string, how: Removal): (seq<Disk>, Disk) {
    var partial := if id in d.driver then Driver(d, id, false) else d;
    var gone := d.(driver := d.driver - {id});
    if how == DriverFails then ([partial], partial) else ([partial, gone], gone)
  }

  /** Flags the record on disk unless it is flagged, then removes the layer from the driver and from memory. */
  function Unlink(ls: seq<Record>, d: Disk, r: Record, how: Removal): Outcome {
    var flagged := Flag(ls, r.id);
    var d1 := if r.incomplete then d else Save(flagged, d, r.loc);
    var first := if r.incomplete then [] else [d1];
    var (removal, d2) := Remove(d1, r.id, how);
    Outcome(first + removal, d2, if how == Completes then Without(flagged, {r.id}) else flagged)
  }

  /** Unlinks a layer and, when that completes, records that it is gone. */
  function Delete(ls: seq<Record>, d: Disk, r: Record, how: Removal): Outcome {
    var o := Unlink(ls, d, r, how);
    if how == Completes then
      var gone := Save(o.layers, o.disk, r.loc);
      Outcome(o.trace + [gone], gone, o.layers)
    else o
  }

  /** What a deletion leaves when the flag could not be recorded: it is in memory only, and the deletion stops. */
  function FlagUnsaved(ls: seq<Record>, d: Disk, r: Record): Outcome {
    Outcome([], d, Flag(ls, r.id))
  }

  /** Puts the contents of the recorded layer `r` in place; a failure deletes what there is, which goes as `how` says. */
  function Fill(ls: seq<Record>, d: Disk, r: Record, filling: Filling, how: Removal): Outcome {
    var draft := r.(incomplete := true);
    var started := Driver(d, r.id, false);
    var filled := Driver(started, r.id, true);
    match filling
    case DraftUnsaved | CreateFails => Delete(ls + [draft], d, draft, how)
    case ContentsFail =>
      var o := Delete(ls + [draft], started, draft, how);
      o.(trace := [started] + o.trace)
    case FinishUnsaved =>
      var o := Delete(ls + [r], filled, r, how);
      o.(trace := [started, filled] + o.trace)
    case Finishes =>
      var recorded := Save(ls + [r], filled, r.loc);
      Outcome([started, filled, recorded], recorded, ls + [r])
  }

  /** Records the new layer `r` as incomplete and then fills it; without that record it is only taken back. */
  function Create(ls: seq<Record>, d: Disk, r: Record, filling: Filling, how: Removal): Outcome {
    if filling == DraftUnsaved then Fill(ls, d, r, filling, how)
    else
      var drafted := Save(ls + [r.(incomplete := true)], d, r.loc);
      var o := Fill(ls, drafted, r, filling, how);
      o.(trace := [drafted] + o.trace)
  }

  // ---- Every crash point of a creation or a deletion is safe

  ghost predicate AllSafe(trace: seq<Disk>) {
    forall d :: d in trace ==> Safe(d)
  }

  lemma SaveFiles(ls: seq<Record>, ls': seq<Record>, d: Disk, loc: Loc)
    requires Filed(ls, d) && forall other :: other != loc ==> OnLoc(ls', other) == OnLoc(ls, other)
    ensures Filed(ls', Save(ls', d, loc))
  {
    forall other
      ensures File(Save(ls', d, loc), other) == OnLoc(ls', other)
    {
      assert File(d, other) == OnLoc(ls, other);
    }
  }

  lemma FlagFiles(ls: seq<Record>, d: Disk, r: Record)
    requires Filed(ls, d) && DistinctIds(ls) && r in ls
    ensures Filed(Flag(ls, r.id), Save(Flag(ls, r.id), d, r.loc))
    ensures DistinctIds(Flag(ls, r.id))
  {
    forall other | other != r.loc
      ensures OnLoc(Flag(ls, r.id), other) == OnLoc(ls, other)
    {
      OnLocAgrees(Flag(ls, r.id), ls, other);
    }
    SaveFiles(ls, Flag(ls, r.id), d, r.loc);
  }

  lemma DropFiles(ls: seq<Record>, d: Disk, r: Record)
    requires Filed(ls, d) && DistinctIds(ls) && r in ls
    ensures Filed(Without(ls, {r.id}), Save(Without(ls, {r.id}), d, r.loc))
  {
    forall other | other != r.loc
      ensures OnLoc(Without(ls, {r.id}), other) == OnLoc(ls, other)
    {
      OnLocOfWithout(ls, {r.id}, other);
      forall t | t in OnLoc(ls, other)
        ensures t.id != r.id
      {
        OnLocHas(ls, other, t);
      }
      WithoutAgrees(OnLoc(ls, other), {r.id}, {});
      WithoutNothing(OnLoc(ls, other));
    }
    SaveFiles(ls, Without(ls, {r.id}), d, r.loc);
  }

  lemma FlagKeepsIds(ls: seq<Record>, id: string, x: string)
    ensures HasId(Flag(ls, id), x) <==> HasId(ls, x)
  {
    if HasId(ls, x) {
      var i :| 0 <= i < |ls| && ls[i].id == x;
      assert Flag(ls, id)[i].id == x;
    }
    if HasId(Flag(ls, id), x) {
      var i :| 0 <= i < |ls| && Flag(ls, id)[i].id == x;
      assert ls[i].id == x;
    }
  }

  lemma FlaggingReflects(ls: seq<Record>, d: Disk, r: Record)
    requires Reflects(ls, d) && r in ls
    ensures Reflects(Flag(ls, r.id), Save(Flag(ls, r.id), d, r.loc))
  {
    FlagFiles(ls, d, r);
    forall id | id in d.driver
      ensures HasId(Flag(ls, r.id), id)
    {
      FlagKeepsIds(ls, r.id, id);
    }
    assert forall t :: t in Flag(ls, r.id) && !t.incomplete ==> t in ls;
  }

  /** Once a record carries the flag, its driver layer may be in any state, or gone. */
  lemma FlaggedIsFree(ls: seq<Record>, d: Disk, e: Disk, id: string)
    requires Reflects(ls, d) && forall t :: t in ls && t.id == id ==> t.incomplete
    requires HasId(ls, id)
    requires e == Driver(d, id, true) || e == Driver(d, id, false) || e == d.(driver := d.driver - {id})
    ensures Reflects(ls, e)
  {
    assert forall loc :: File(e, loc) == File(d, loc);
  }

  lemma RemovalReflects(ls: seq<Record>, d: Disk, id: string, how: Removal)
    requires Reflects(ls, d) && HasId(ls, id) && forall t :: t in ls && t.id == id ==> t.incomplete
    ensures forall e :: e in Remove(d, id, how).0 ==> Reflects(ls, e)
    ensures Reflects(ls, Remove(d, id, how).1)
  {
    FlaggedIsFree(ls, d, Driver(d, id, false), id);
    FlaggedIsFree(ls, d, d.(driver := d.driver - {id}), id);
  }

  lemma DroppingIsBacked(ls: seq<Record>, driver: map<string, bool>, id: string)
    requires Backed(ls, driver) && TidyNames(ls) && id !in driver
    ensures Backed(Without(ls, {id}), driver) && TidyNames(Without(ls, {id}))
  {
    forall t
      ensures t in Without(ls, {id}) <==> t in ls && t.id != id
    {
      WithoutHas(ls, {id}, t);
    }
    forall x | x in driver
      ensures HasId(Without(ls, {id}), x)
    {
      var i :| 0 <= i < |ls| && ls[i].id == x;
      assert ls[i] in Without(ls, {id});
    }
  }

  lemma DroppingReflects(ls: seq<Record>, d: Disk, r: Record)
    requires Reflects(ls, d) && r in ls && r.id !in d.driver
    ensures Reflects(Without(ls, {r.id}), Save(Without(ls, {r.id}), d, r.loc))
  {
    DropFiles(ls, d, r);
    WithoutStaysDistinct(ls, {r.id});
    DroppingIsBacked(ls, d.driver, r.id);
  }

  lemma DeleteIsSafe(ls: seq<Record>, d: Disk, r: Record, how: Removal)
    requires Reflects(ls, d) && r in ls
    ensures AllSafe(Delete(ls, d, r, how).trace)
    ensures Reflects(Delete(ls, d, r, how).layers, Delete(ls, d, r, how).disk)
  {
    var flagged := Flag(ls, r.id);
    var d1 := if r.incomplete then d else Save(flagged, d, r.loc);
    FlaggingReflects(ls, d, r);
    if r.incomplete {
      FlagChangesNothing(ls, r);
    }
    assert Reflects(flagged, d1);
    FlagKeepsIds(ls, r.id, r.id);
    RemovalReflects(flagged, d1, r.id, how);
    var (removal, d2) := Remove(d1, r.id, how);
    forall e | e in [d1] + removal
      ensures Safe(e)
    {
      ReflectsIsSafe(flagged, e);
    }
    if how == Completes {
      var i :| 0 <= i < |ls| && ls[i] == r;
      assert flagged[i] == r.(incomplete := true);
      DroppingReflects(flagged, d2, r.(incomplete := true));
      ReflectsIsSafe(Without(flagged, {r.id}), Save(Without(flagged, {r.id}), d2, r.loc));
    }
  }

  lemma FlagChangesNothing(ls: seq<Record>, r: Record)
    requires DistinctIds(ls) && r in ls && r.incomplete
    ensures Flag(ls, r.id) == ls
  {
    assert forall i :: 0 <= i < |ls| && ls[i].id == r.id ==> ls[i] == r;
  }

  lemma AppendReflects(ls: seq<Record>, d: Disk, r: Record, driver: map<string, bool>)
    requires Reflects(ls, d) && !HasId(ls, r.id) && Distinct(r.names)
    requires driver - {r.id} == d.driver && (!r.incomplete ==> r.id in driver && driver[r.id])
    ensures Reflects(ls + [r], Save(ls + [r], d.(driver := driver), r.loc))
  {
    var e := d.(driver := driver);
    forall other | other != r.loc
      ensures OnLoc(ls + [r], other) == OnLoc(ls, other)
    {
      assert (ls + [r])[..|ls|] == ls;
    }
    assert Filed(ls, e) by {
      assert forall loc :: File(e, loc) == File(d, loc);
    }
    SaveFiles(ls, ls + [r], e, r.loc);
    forall id | id in driver
      ensures HasId(ls + [r], id)
    {
      if id == r.id {
        assert (ls + [r])[|ls|].id == id;
      } else {
        assert id in driver - {r.id};
        var i :| 0 <= i < |ls| && ls[i].id == id;
        assert (ls + [r])[i].id == id;
      }
    }
    forall t | t in ls && !t.incomplete
      ensures t.id in driver && driver[t.id]
    {
      assert t.id in d.driver && (driver - {r.id})[t.id] == d.driver[t.id];
    }
  }

  /** From the first write of a creation on, the driver may do what it likes with the new layer. */
  lemma DraftReflects(ls: seq<Record>, d: Disk, draft: Record)
    requires Reflects(ls, d) && draft.incomplete && !HasId(ls, draft.id) && Distinct(draft.names)
    ensures
      var d1 := Save(ls + [draft], d, draft.loc);
      && Reflects(ls + [draft], d1)
      && Reflects(ls + [draft], Driver(d1, draft.id, false))
      && Reflects(ls + [draft], Driver(d1, draft.id, true))
  {
    var ls1 := ls + [draft];
    var d1 := Save(ls1, d, draft.loc);
    assert draft.id !in d.driver;
    AppendReflects(ls, d, draft, d.driver);
    assert ls1[|ls|].id == draft.id && forall t :: t in ls ==> t.id != draft.id;
    FlaggedIsFree(ls1, d1, Driver(d1, draft.id, false), draft.id);
    FlaggedIsFree(ls1, d1, Driver(d1, draft.id, true), draft.id);
  }

  lemma FinishedReflects(ls: seq<Record>, d: Disk, r: Record)
    requires Reflects(ls, d) && !r.incomplete && !HasId(ls, r.id) && Distinct(r.names)
    ensures
      var drafted := Save(ls + [r.(incomplete := true)], d, r.loc);
      Reflects(ls + [r], Save(ls + [r], Driver(drafted, r.id, true), r.loc))
  {
    var drafted := Save(ls + [r.(incomplete := true)], d, r.loc);
    assert r.id !in d.driver;
    AppendReflects(ls, d, r, d.driver[r.id := true]);
    assert Save(ls + [r], Driver(drafted, r.id, true), r.loc) == Save(ls + [r], d.(driver := d.driver[r.id := true]), r.loc);
  }

  lemma SavedAlready(ls: seq<Record>, d: Disk, loc: Loc)
    requires Filed(ls, d)
    ensures Save(ls, d, loc) == d
  {
    assert File(d, loc) == OnLoc(ls, loc);
  }

  lemma WithoutLast(ls: seq<Record>, r: Record)
    requires !HasId(ls, r.id)
    ensures Without(ls + [r], {r.id}) == ls && Flag(ls + [r], r.id) == ls + [r.(incomplete := true)]
  {
    assert (ls + [r])[..|ls|] == ls;
    WithoutStrangers(ls, r.id);
  }

  lemma {:induction false} WithoutStrangers(ls: seq<Record>, id: string)
    requires !HasId(ls, id)
    ensures Without(ls, {id}) == ls
  {
    if ls != [] {
      var rest := ls[..|ls| - 1];
      forall i | 0 <= i < |rest|
        ensures rest[i].id != id
      {
        assert ls[i].id != id;
      }
      assert ls[|ls| - 1].id != id;
      WithoutStrangers(rest, id);
    }
  }

  /** A layer that never got to the disk is taken back without a trace. */
  lemma UndraftedLeavesNothing(ls: seq<Record>, d: Disk, draft: Record, how: Removal)
    requires Reflects(ls, d) && draft.incomplete && !HasId(ls, draft.id)
    ensures var o := Delete(ls + [draft], d, draft, how);
      && (forall e :: e in o.trace ==> e == d) && o.disk == d
      && o.layers == if how == Completes then ls else ls + [draft]
  {
    assert draft.id !in d.driver;
    WithoutLast(ls, draft);
    SavedAlready(ls, d, draft.loc);
    assert d.(driver := d.driver - {draft.id}) == d;
  }

  /** A layer whose end could not be recorded is deleted like one that still carries the flag, which it does on disk. */
  lemma UnfinishedIsDraft(ls: seq<Record>, d: Disk, r: Record, how: Removal)
    requires Reflects(ls + [r.(incomplete := true)], d) && !r.incomplete && !HasId(ls, r.id)
    ensures var o := Delete(ls + [r.(incomplete := true)], d, r.(incomplete := true), how);
      Delete(ls + [r], d, r, how) == o.(trace := [d] + o.trace)
  {
    var draft := r.(incomplete := true);
    WithoutLast(ls, r);
    WithoutLast(ls, draft);
    SavedAlready(ls + [draft], d, r.loc);
    var (removal, gone) := Remove(d, r.id, how);
    Regroup([d], removal, [Save(ls, gone, r.loc)]);
    assert [] + removal == removal;
  }

  lemma FillIsSafe(ls: seq<Record>, d: Disk, r: Record, filling: Filling, how: Removal)
    requires Reflects(ls + [r.(incomplete := true)], d) && Reflects(ls + [r.(incomplete := true)], Driver(d, r.id, false))
    requires Reflects(ls + [r.(incomplete := true)], Driver(d, r.id, true))
    requires Reflects(ls + [r], Save(ls + [r], Driver(d, r.id, true), r.loc)) && !r.incomplete && !HasId(ls, r.id)
    ensures AllSafe(Fill(ls, d, r, filling, how).trace)
    ensures Reflects(Fill(ls, d, r, filling, how).layers, Fill(ls, d, r, filling, how).disk)
  {
    var draft := r.(incomplete := true);
    var started, filled := Driver(d, r.id, false), Driver(d, r.id, true);
    assert Driver(started, r.id, true) == filled;
    ReflectsIsSafe(ls + [draft], started);
    ReflectsIsSafe(ls + [draft], filled);
    match filling
    case DraftUnsaved | CreateFails => DeleteIsSafe(ls + [draft], d, draft, how);
    case ContentsFail => DeleteIsSafe(ls + [draft], started, draft, how);
    case FinishUnsaved =>
      UnfinishedIsDraft(ls, filled, r, how);
      DeleteIsSafe(ls + [draft], filled, draft, how);
    case Finishes => ReflectsIsSafe(ls + [r], Save(ls + [r], filled, r.loc));
  }

  /** Memory matches the disk at the end, except for a draft that was not saved and could not be taken back. */
  lemma CreateIsSafe(ls: seq<Record>, d: Disk, r: Record, filling: Filling, how: Removal)
    requires Reflects(ls, d) && !r.incomplete && !HasId(ls, r.id) && Distinct(r.names)
    ensures AllSafe(Create(ls, d, r, filling, how).trace)
    ensures filling == DraftUnsaved ==> Create(ls, d, r, filling, how).disk == d
    ensures Reflects(Create(ls, d, r, filling, how).layers, Create(ls, d, r, filling, how).disk) <==>
            !(filling == DraftUnsaved && how != Completes)
  {
    var draft := r.(incomplete := true);
    if filling == DraftUnsaved {
      UndraftedLeavesNothing(ls, d, draft, how);
      ReflectsIsSafe(ls, d);
      if how != Completes {
        UnsavedDraftIsMissing(ls, d, draft);
      }
    } else {
      var drafted := Save(ls + [draft], d, r.loc);
      DraftReflects(ls, d, draft);
      FinishedReflects(ls, d, r);
      ReflectsIsSafe(ls + [draft], drafted);
      FillIsSafe(ls, drafted, r, filling, how);
    }
  }

  lemma UnsavedDraftIsMissing(ls: seq<Record>, d: Disk, draft: Record)
    requires Reflects(ls, d) && !HasId(ls, draft.id)
    ensures !Reflects(ls + [draft], d)
  {
    OnLocHas(ls, draft.loc, draft);
    OnLocHas(ls + [draft], draft.loc, draft);
    assert (ls + [draft])[|ls|] == draft;
    assert File(d, draft.loc) == OnLoc(ls, draft.loc);
  }
}
