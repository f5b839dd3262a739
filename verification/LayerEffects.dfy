/** What a finished creation or deletion of a layer leaves in memory, in the files and in the driver (storage/layers.go). */
module LayerEffects {
  import opened LayerRecords
  import opened LayerTraces

  /** Record `r` comes last in its file and its contents are finished; everything else is as it was. */
  ghost predicate Added(d: Disk, r: Record, d': Disk) {
    && d'.driver == d.driver[r.id := true]
    && forall loc :: File(d', loc) == File(d, loc) + if loc == r.loc then [r] else []
  }

  /** One record with ID `id` is gone; the others keep their order. */
  ghost predicate TakenOut(before: seq<Record>, after: seq<Record>, id: string) {
    exists i :: 0 <= i < |before| && before[i].id == id && after == before[..i] + before[i + 1..]
  }

  /** The record of `r` is gone from its file and the driver has forgotten it; everything else is as it was. */
  ghost predicate Dropped(d: Disk, r: Record, d': Disk) {
    && d'.driver == d.driver - {r.id}
    && TakenOut(File(d, r.loc), File(d', r.loc), r.id)
    && forall loc :: loc != r.loc ==> File(d', loc) == File(d, loc)
  }

  /** The record of layer `id` carries the flag, and nothing else has changed. */
  ghost predicate FlaggedOnly(before: seq<Record>, after: seq<Record>, id: string) {
    |after| == |before| && forall i :: 0 <= i < |before| ==> after[i] == before[i].(incomplete := before[i].incomplete || before[i].id == id)
  }

  // ---- Creation

  /** A creation that finishes records the layer as it was asked for, beside what was there. */
  lemma CreatedIsAdded(ls: seq<Record>, d: Disk, r: Record, how: Removal)
    ensures var o := Create(ls, d, r, Finishes, how);
      && o.layers == ls + [r] && r in File(o.disk, r.loc) && o.disk.driver == d.driver[r.id := true]
      && (Filed(ls, d) ==> Added(d, r, o.disk))
  {
    var o := Create(ls, d, r, Finishes, how);
    assert (ls + [r])[..|ls|] == ls && (ls + [r])[|ls|] == r;
    assert OnLoc(ls + [r], r.loc) == OnLoc(ls, r.loc) + [r];
    assert o.disk.driver == d.driver[r.id := true];
  }

  /** The layer that was recorded last is gone from memory, driver and file. */
  ghost predicate TakenBack(ls: seq<Record>, d: Disk, r: Record, o: Outcome) {
    && o.layers == ls && o.disk.driver == d.driver - {r.id}
    && forall loc :: File(o.disk, loc) == if loc == r.loc then OnLoc(ls, loc) else File(d, loc)
  }

  lemma LastTakenBack(ls: seq<Record>, d: Disk, r: Record, last: Record)
    requires !HasId(ls, r.id) && last.id == r.id && last.loc == r.loc
    ensures TakenBack(ls, d, r, Delete(ls + [last], d, last, Completes))
  {
    WithoutLast(ls, last);
    WithoutLast(ls, last.(incomplete := true));
  }

  lemma FillTakenBack(ls: seq<Record>, d: Disk, r: Record, filling: Filling)
    requires !HasId(ls, r.id) && filling != Finishes
    ensures TakenBack(ls, d, r, Fill(ls, d, r, filling, Completes))
  {
    var draft, started := r.(incomplete := true), Driver(d, r.id, false);
    match filling
    case DraftUnsaved | CreateFails => LastTakenBack(ls, d, r, draft);
    case ContentsFail => LastTakenBack(ls, started, r, draft);
    case FinishUnsaved => LastTakenBack(ls, Driver(started, r.id, true), r, r);
  }

  /** A creation that fails and is cleaned up leaves memory and disk as they were. */
  lemma FailedIsUndone(ls: seq<Record>, d: Disk, r: Record, filling: Filling)
    requires !HasId(ls, r.id) && filling != Finishes
    ensures var o := Create(ls, d, r, filling, Completes);
      o.layers == ls && (Reflects(ls, d) ==> o.disk == d)
  {
    var d1 := if filling == DraftUnsaved then d else Save(ls + [r.(incomplete := true)], d, r.loc);
    FillTakenBack(ls, d1, r, filling);
    if Reflects(ls, d) {
      var e := Fill(ls, d1, r, filling, Completes).disk;
      assert File(d, r.loc) == OnLoc(ls, r.loc);
      SameFiles(e, d);
    }
  }

  lemma SameFiles(d: Disk, e: Disk)
    requires d.driver == e.driver && forall loc :: File(d, loc) == File(e, loc)
    ensures d == e
  {
    assert File(d, Stable) == File(e, Stable) && File(d, ImageStore) == File(e, ImageStore) && File(d, Volatile) == File(e, Volatile);
  }

  /** A creation that fails and cannot be cleaned up leaves the layer in memory with the flag. */
  lemma FailedStaysFlagged(ls: seq<Record>, d: Disk, r: Record, filling: Filling, how: Removal)
    requires !r.incomplete && !HasId(ls, r.id) && filling != Finishes && how != Completes
    ensures Create(ls, d, r, filling, how).layers == ls + [r.(incomplete := true)]
  {
    WithoutLast(ls, r);
    WithoutLast(ls, r.(incomplete := true));
  }

  /** What asking for layer `r` comes to: it is there as asked for, or nothing has changed, or the clean-up is still to do. */
  ghost predicate CreatedAs(ls: seq<Record>, d: Disk, r: Record, how: Removal, ok: bool, ls': seq<Record>, d': Disk) {
    if ok then
      && ls' == ls + [r] && r in File(d', r.loc) && d'.driver == d.driver[r.id := true]
      && (Filed(ls, d) ==> Added(d, r, d'))
    else if how == Completes then
      ls' == ls && (Reflects(ls, d) ==> d' == d)
    else
      ls' == ls + [r.(incomplete := true)]
  }

  lemma CreateDoesIt(ls: seq<Record>, d: Disk, r: Record, filling: Filling, how: Removal)
    requires !r.incomplete && !HasId(ls, r.id)
    ensures var o := Create(ls, d, r, filling, how); CreatedAs(ls, d, r, how, filling == Finishes, o.layers, o.disk)
  {
    if filling == Finishes {
      CreatedIsAdded(ls, d, r, how);
    } else if how == Completes {
      FailedIsUndone(ls, d, r, filling);
    } else {
      FailedStaysFlagged(ls, d, r, filling, how);
    }
  }

  // ---- Deletion

  lemma {:induction false} WithoutOne(ls: seq<Record>, i: nat)
    requires DistinctIds(ls) && i < |ls|
    ensures Without(ls, {ls[i].id}) == ls[..i] + ls[i + 1..]
  {
    var rest, last := ls[..|ls| - 1], ls[|ls| - 1];
    if i == |ls| - 1 {
      WithoutStrangers(rest, last.id);
    } else {
      WithoutOne(rest, i);
      assert rest[..i] + rest[i + 1..] + [last] == ls[..i] + ls[i + 1..];
    }
  }

  lemma FlagIsAllThatChanges(ls: seq<Record>, id: string)
    ensures FlaggedOnly(ls, Flag(ls, id), id)
  {
  }

  /** Flagging a record that goes away makes no difference. */
  lemma {:induction false} FlaggedGoes(ls: seq<Record>, id: string)
    ensures Without(Flag(ls, id), {id}) == Without(ls, {id})
  {
    if ls != [] {
      var rest := ls[..|ls| - 1];
      assert Flag(ls, id)[..|ls| - 1] == Flag(rest, id);
      FlaggedGoes(rest, id);
    }
  }

  lemma TakenFromFile(ls: seq<Record>, r: Record)
    requires DistinctIds(ls) && r in ls
    ensures TakenOut(OnLoc(ls, r.loc), OnLoc(Without(ls, {r.id}), r.loc), r.id)
  {
    OnLocOfWithout(ls, {r.id}, r.loc);
    OnLocStaysDistinct(ls, r.loc);
    OnLocHas(ls, r.loc, r);
    var i :| 0 <= i < |OnLoc(ls, r.loc)| && OnLoc(ls, r.loc)[i] == r;
    WithoutOne(OnLoc(ls, r.loc), i);
  }

  lemma UnlinkedLeaves(ls: seq<Record>, d: Disk, r: Record)
    ensures var o := Unlink(ls, d, r, Completes);
      && o.layers == Without(ls, {r.id}) && o.disk.driver == d.driver - {r.id}
      && forall loc :: loc != r.loc ==> File(o.disk, loc) == File(d, loc)
  {
    FlaggedGoes(ls, r.id);
  }

  lemma DeletedLeaves(ls: seq<Record>, d: Disk, r: Record)
    ensures var o := Delete(ls, d, r, Completes);
      && o.layers == Without(ls, {r.id}) && o.disk.driver == d.driver - {r.id}
      && forall loc :: File(o.disk, loc) == if loc == r.loc then OnLoc(Without(ls, {r.id}), loc) else File(d, loc)
  {
    UnlinkedLeaves(ls, d, r);
    var u := Unlink(ls, d, r, Completes);
    assert Delete(ls, d, r, Completes).disk == Save(u.layers, u.disk, r.loc);
  }

  lemma TakenFromList(ls: seq<Record>, r: Record)
    requires DistinctIds(ls) && r in ls
    ensures TakenOut(ls, Without(ls, {r.id}), r.id)
    ensures forall t :: t in OnLoc(Without(ls, {r.id}), r.loc) ==> t.id != r.id
  {
    var i :| 0 <= i < |ls| && ls[i] == r;
    WithoutOne(ls, i);
    forall t | t in OnLoc(Without(ls, {r.id}), r.loc)
      ensures t.id != r.id
    {
      OnLocHas(Without(ls, {r.id}), r.loc, t);
      WithoutHas(ls, {r.id}, t);
    }
  }

  /** A deletion that completes removes the layer from memory, file and driver, and nothing else. */
  lemma DeletedIsDropped(ls: seq<Record>, d: Disk, r: Record)
    requires DistinctIds(ls) && r in ls
    ensures var o := Delete(ls, d, r, Completes);
      && TakenOut(ls, o.layers, r.id) && o.disk.driver == d.driver - {r.id}
      && (forall t :: t in File(o.disk, r.loc) ==> t.id != r.id)
      && (Filed(ls, d) ==> Dropped(d, r, o.disk))
  {
    DeletedLeaves(ls, d, r);
    TakenFromList(ls, r);
    TakenFromFile(ls, r);
    var e := Delete(ls, d, r, Completes).disk;
    assert File(e, r.loc) == OnLoc(Without(ls, {r.id}), r.loc);
  }

  /** What deleting layer `r` comes to: `removed` says whether driver and files went, `saved` whether that was recorded. */
  ghost predicate DeletedAs(ls: seq<Record>, d: Disk, r: Record, removed: bool, saved: bool, ls': seq<Record>, d': Disk) {
    if removed then
      && TakenOut(ls, ls', r.id) && d'.driver == d.driver - {r.id}
      && (saved ==> (forall t :: t in File(d', r.loc) ==> t.id != r.id) && (Filed(ls, d) ==> Dropped(d, r, d')))
    else
      FlaggedOnly(ls, ls', r.id)
  }

  lemma DeleteDoesIt(ls: seq<Record>, d: Disk, r: Record, how: Removal)
    requires DistinctIds(ls) && r in ls
    ensures var o := Delete(ls, d, r, how); DeletedAs(ls, d, r, how == Completes, true, o.layers, o.disk)
    ensures var o := Unlink(ls, d, r, how); DeletedAs(ls, d, r, how == Completes, false, o.layers, o.disk)
    ensures var o := FlagUnsaved(ls, d, r); DeletedAs(ls, d, r, false, false, o.layers, o.disk)
  {
    FlagIsAllThatChanges(ls, r.id);
    if how == Completes {
      DeletedIsDropped(ls, d, r);
      UnlinkedLeaves(ls, d, r);
      TakenFromList(ls, r);
    }
  }
}
