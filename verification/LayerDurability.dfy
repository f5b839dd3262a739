/** Over every run, finished layers survive until they are deleted, and deleted layers stay away until they are created. */
module LayerDurability {
  import opened Common
  import opened LayerRecords
  import opened LayerTraces
  import opened LayerEffects
  import opened LayerLoad
  import opened NameClaims
  import opened LayerRuns

  /** Record `r` is on disk, in the file it belongs in. */
  predicate OnDisk(d: Disk, r: Record) {
    r in File(d, r.loc)
  }

  ghost predicate AlwaysOnDisk(trace: seq<Disk>, r: Record) {
    forall e :: e in trace ==> OnDisk(e, r)
  }

  /** The records of `rs` are records of `us`, up to the flag. */
  ghost predicate ComeFrom(rs: seq<Record>, us: seq<Record>) {
    forall t :: t in rs ==> exists u :: u in us && u.id == t.id && u.names == t.names
  }

  ghost predicate AlwaysFrom(trace: seq<Disk>, us: seq<Record>) {
    forall e :: e in trace ==> ComeFrom(All(e), us)
  }

  lemma OnDiskHas(ls: seq<Record>, d: Disk, r: Record)
    requires Filed(ls, d)
    ensures OnDisk(d, r) <==> r in ls
    ensures OnDisk(d, r) <==> r in All(d)
  {
    assert File(d, r.loc) == OnLoc(ls, r.loc);
    OnLocHas(ls, r.loc, r);
    AllHas(ls, d, r);
  }

  // ---- What a single write does

  lemma SaveLeaves(ls: seq<Record>, d: Disk, loc: Loc, r: Record)
    requires OnDisk(d, r) && r in ls
    ensures OnDisk(Save(ls, d, loc), r)
  {
    OnLocHas(ls, loc, r);
  }

  lemma RemoveLeaves(d: Disk, id: string, how: Removal, r: Record)
    requires OnDisk(d, r)
    ensures AlwaysOnDisk(Remove(d, id, how).0, r) && OnDisk(Remove(d, id, how).1, r)
  {
  }

  lemma InAll(d: Disk, t: Record)
    ensures t in All(d) <==> exists loc :: t in File(d, loc)
  {
    if t in All(d) {
      assert t in File(d, Stable) || t in File(d, ImageStore) || t in File(d, Volatile);
    }
    if loc :| t in File(d, loc) {
      assert loc == Stable || loc == ImageStore || loc == Volatile;
    }
  }

  lemma SaveBringsNothing(ls: seq<Record>, d: Disk, loc: Loc, us: seq<Record>)
    requires ComeFrom(All(d), us) && ComeFrom(ls, us)
    ensures ComeFrom(All(Save(ls, d, loc)), us)
  {
    forall t | t in All(Save(ls, d, loc))
      ensures exists u :: u in us && u.id == t.id && u.names == t.names
    {
      InAll(Save(ls, d, loc), t);
      var l :| t in File(Save(ls, d, loc), l);
      if l == loc {
        OnLocHas(ls, loc, t);
      } else {
        assert t in File(d, l);
        InAll(d, t);
      }
    }
  }

  lemma RemoveBringsNothing(d: Disk, id: string, how: Removal, us: seq<Record>)
    requires ComeFrom(All(d), us)
    ensures AlwaysFrom(Remove(d, id, how).0, us) && ComeFrom(All(Remove(d, id, how).1), us)
  {
    forall e | e in Remove(d, id, how).0 + [Remove(d, id, how).1]
      ensures ComeFrom(All(e), us)
    {
      assert All(e) == All(d);
    }
  }

  // ---- Deletion

  lemma FlagLeaves(ls: seq<Record>, id: string, r: Record)
    requires r in ls && r.id != id
    ensures r in Flag(ls, id) && r in Without(Flag(ls, id), {id})
  {
    var i :| 0 <= i < |ls| && ls[i] == r;
    assert Flag(ls, id)[i] == r;
    WithoutHas(Flag(ls, id), {id}, r);
  }

  lemma FlagBringsNothing(ls: seq<Record>, id: string, us: seq<Record>)
    requires ComeFrom(ls, us)
    ensures ComeFrom(Flag(ls, id), us) && ComeFrom(Without(Flag(ls, id), {id}), us)
  {
    forall t | t in Flag(ls, id)
      ensures exists u :: u in us && u.id == t.id && u.names == t.names
    {
      var i :| 0 <= i < |ls| && Flag(ls, id)[i] == t;
      assert ls[i] in ls;
    }
    forall t | t in Without(Flag(ls, id), {id})
      ensures t in Flag(ls, id)
    {
      WithoutHas(Flag(ls, id), {id}, t);
    }
  }

  lemma UnlinkLeaves(ls: seq<Record>, d: Disk, t: Record, how: Removal, r: Record)
    requires r in ls && OnDisk(d, r) && r.id != t.id
    ensures AlwaysOnDisk(Unlink(ls, d, t, how).trace, r) && OnDisk(Unlink(ls, d, t, how).disk, r) && r in Unlink(ls, d, t, how).layers
  {
    FlagLeaves(ls, t.id, r);
    SaveLeaves(Flag(ls, t.id), d, t.loc, r);
    RemoveLeaves(if t.incomplete then d else Save(Flag(ls, t.id), d, t.loc), t.id, how, r);
  }

  /** Deleting one layer leaves the record of another alone, at every write. */
  lemma DeleteLeaves(ls: seq<Record>, d: Disk, t: Record, how: Removal, r: Record)
    requires r in ls && OnDisk(d, r) && r.id != t.id
    ensures AlwaysOnDisk(Delete(ls, d, t, how).trace, r) && OnDisk(Delete(ls, d, t, how).disk, r)
  {
    UnlinkLeaves(ls, d, t, how, r);
    var o := Unlink(ls, d, t, how);
    SaveLeaves(o.layers, o.disk, t.loc, r);
  }

  lemma DeleteBringsNothing(ls: seq<Record>, d: Disk, t: Record, how: Removal, us: seq<Record>)
    requires ComeFrom(ls, us) && ComeFrom(All(d), us)
    ensures AlwaysFrom(Delete(ls, d, t, how).trace, us) && ComeFrom(All(Delete(ls, d, t, how).disk), us)
  {
    var flagged := Flag(ls, t.id);
    FlagBringsNothing(ls, t.id, us);
    SaveBringsNothing(flagged, d, t.loc, us);
    var d1 := if t.incomplete then d else Save(flagged, d, t.loc);
    RemoveBringsNothing(d1, t.id, how, us);
    SaveBringsNothing(Without(flagged, {t.id}), Remove(d1, t.id, how).1, t.loc, us);
  }

  // ---- Creation

  lemma FillLeaves(ls: seq<Record>, d: Disk, t: Record, filling: Filling, how: Removal, r: Record)
    requires r in ls && OnDisk(d, r) && r.id != t.id
    ensures AlwaysOnDisk(Fill(ls, d, t, filling, how).trace, r) && OnDisk(Fill(ls, d, t, filling, how).disk, r)
  {
    var draft := t.(incomplete := true);
    var started := Driver(d, t.id, false);
    var filled := Driver(started, t.id, true);
    match filling
    case DraftUnsaved | CreateFails => DeleteLeaves(ls + [draft], d, draft, how, r);
    case ContentsFail => DeleteLeaves(ls + [draft], started, draft, how, r);
    case FinishUnsaved => DeleteLeaves(ls + [t], filled, t, how, r);
    case Finishes => SaveLeaves(ls + [t], filled, t.loc, r);
  }

  /** Creating one layer leaves the record of another alone, at every write. */
  lemma CreateLeaves(ls: seq<Record>, d: Disk, t: Record, filling: Filling, how: Removal, r: Record)
    requires r in ls && OnDisk(d, r) && r.id != t.id
    ensures AlwaysOnDisk(Create(ls, d, t, filling, how).trace, r) && OnDisk(Create(ls, d, t, filling, how).disk, r)
  {
    var draft := t.(incomplete := true);
    SaveLeaves(ls + [draft], d, t.loc, r);
    FillLeaves(ls, if filling == DraftUnsaved then d else Save(ls + [draft], d, t.loc), t, filling, how, r);
  }

  lemma FillBringsOnly(ls: seq<Record>, d: Disk, t: Record, filling: Filling, how: Removal, us: seq<Record>)
    requires ComeFrom(ls, us) && ComeFrom(All(d), us) && t in us
    ensures AlwaysFrom(Fill(ls, d, t, filling, how).trace, us) && ComeFrom(All(Fill(ls, d, t, filling, how).disk), us)
  {
    var draft := t.(incomplete := true);
    var started := Driver(d, t.id, false);
    var filled := Driver(started, t.id, true);
    assert All(started) == All(d) && All(filled) == All(d);
    match filling
    case DraftUnsaved | CreateFails => DeleteBringsNothing(ls + [draft], d, draft, how, us);
    case ContentsFail => DeleteBringsNothing(ls + [draft], started, draft, how, us);
    case FinishUnsaved => DeleteBringsNothing(ls + [t], filled, t, how, us);
    case Finishes => SaveBringsNothing(ls + [t], filled, t.loc, us);
  }

  lemma CreateBringsOnly(ls: seq<Record>, d: Disk, t: Record, filling: Filling, how: Removal, us: seq<Record>)
    requires ComeFrom(ls, us) && ComeFrom(All(d), us) && t in us
    ensures AlwaysFrom(Create(ls, d, t, filling, how).trace, us) && ComeFrom(All(Create(ls, d, t, filling, how).disk), us)
  {
    var draft := t.(incomplete := true);
    SaveBringsNothing(ls + [draft], d, t.loc, us);
    FillBringsOnly(ls, if filling == DraftUnsaved then d else Save(ls + [draft], d, t.loc), t, filling, how, us);
  }

  // ---- Loading

  /** Only the driver has changed. */
  ghost predicate SameRecords(d: Disk, e: Disk) {
    e == d.(driver := e.driver)
  }

  lemma {:induction false} CleanLeaves(todo: seq<string>, d: Disk, how: string -> Removal)
    ensures forall e :: e in Clean(todo, d, how).0 ==> SameRecords(d, e)
    ensures SameRecords(d, Clean(todo, d, how).1)
  {
    if todo != [] {
      var rest, last := todo[..|todo| - 1], todo[|todo| - 1];
      CleanLeaves(rest, d, how);
      var d1 := Clean(rest, d, how).1;
      forall e | e in Remove(d1, last, how(last)).0
        ensures SameRecords(d, e)
      {
      }
    }
  }

  lemma SavingLeaves(ls: seq<Record>, d: Disk, locs: set<Loc>, r: Record)
    requires OnDisk(d, r) && r in ls
    ensures AlwaysOnDisk(SaveTrace(ls, d, locs), r) && OnDisk(Saved(ls, d, locs), r)
  {
    var d1 := SaveIf(ls, d, locs, Stable);
    var d2 := SaveIf(ls, d1, locs, ImageStore);
    SaveLeaves(ls, d, Stable, r);
    SaveLeaves(ls, d1, ImageStore, r);
    SaveLeaves(ls, d2, Volatile, r);
  }

  lemma SavingBringsNothing(ls: seq<Record>, d: Disk, locs: set<Loc>, us: seq<Record>)
    requires ComeFrom(ls, us) && ComeFrom(All(d), us)
    ensures AlwaysFrom(SaveTrace(ls, d, locs), us) && ComeFrom(All(Saved(ls, d, locs)), us)
  {
    var d1 := SaveIf(ls, d, locs, Stable);
    var d2 := SaveIf(ls, d1, locs, ImageStore);
    SaveBringsNothing(ls, d, Stable, us);
    SaveBringsNothing(ls, d1, ImageStore, us);
    SaveBringsNothing(ls, d2, Volatile, us);
  }

  /** A load takes no record that is not flagged from the disk, at any write. */
  lemma LoadLeaves(d: Disk, how: string -> Removal, r: Record)
    requires Safe(d) && UniqueNames(All(d)) && OnDisk(d, r) && !r.incomplete
    ensures AlwaysOnDisk(Load(d, how).trace, r) && OnDisk(Load(d, how).disk, r)
  {
    var rs := All(d);
    if NeedsRepair(rs) {
      var todo := Incomplete(rs);
      var ls := Without(Resolve(rs), Gone(todo, how));
      UniqueNamesResolveToThemselves(rs);
      OnDiskHas(rs, d, r);
      var i :| 0 <= i < |rs| && rs[i] == r;
      assert Stays(rs, how, r);
      CleanedStays(rs, how, r);
      CleanLeaves(todo, d, how);
      SavingLeaves(ls, Clean(todo, d, how).1, Modified(rs), r);
    }
  }

  lemma LoadBringsNothing(d: Disk, how: string -> Removal)
    requires DistinctIds(All(d)) && UniqueNames(All(d))
    ensures AlwaysFrom(Load(d, how).trace, All(d)) && ComeFrom(All(Load(d, how).disk), All(d))
  {
    var rs := All(d);
    if NeedsRepair(rs) {
      var todo := Incomplete(rs);
      var ls := Without(Resolve(rs), Gone(todo, how));
      UniqueNamesResolveToThemselves(rs);
      forall t | t in ls
        ensures t in rs
      {
        WithoutHas(rs, Gone(todo, how), t);
      }
      CleanLeaves(todo, d, how);
      forall e | e in Clean(todo, d, how).0 + [Clean(todo, d, how).1]
        ensures ComeFrom(All(e), rs)
      {
        assert All(e) == rs;
      }
      SavingBringsNothing(ls, Clean(todo, d, how).1, Modified(rs), rs);
    }
  }

  // ---- Steps

  /** The disk after a step, whether the act was finished or not. */
  lemma NextDisk(w: World, a: Act, w': World)
    requires Next(w, a, w')
    ensures w'.disk == w.disk || w'.disk in Does(w, a).trace || w'.disk == Does(w, a).disk
  {
  }

  /** The records that may be on disk after a step: those before it, and the one being created. */
  ghost function Sources(w: World, a: Act): seq<Record> {
    All(w.disk) + if a.Make? && w.layers.Some? && !Refused(w.layers.value, a.r) then [a.r] else []
  }

  lemma MemoryComesFrom(w: World, us: seq<Record>)
    requires Sound(w) && w.layers.Some? && forall r :: r in All(w.disk) ==> r in us
    ensures ComeFrom(w.layers.value, us) && ComeFrom(All(w.disk), us)
  {
    forall t | t in w.layers.value
      ensures t in us
    {
      AllHas(w.layers.value, w.disk, t);
    }
  }

  lemma StepBringsOnly(w: World, a: Act, w': World)
    requires Sound(w) && UniqueNames(All(w.disk)) && Legal(w, a) && Next(w, a, w')
    ensures ComeFrom(All(w'.disk), Sources(w, a))
  {
    NextDisk(w, a, w');
    var us := Sources(w, a);
    match a
    case Start(each) => LoadBringsNothing(w.disk, each);
    case Make(r, filling, how) =>
      MemoryComesFrom(w, us);
      if !Refused(w.layers.value, r) {
        CreateBringsOnly(w.layers.value, w.disk, r, filling, how, us);
      }
    case Kill(id, how) =>
      MemoryComesFrom(w, us);
      if HasId(w.layers.value, id) {
        DeleteBringsNothing(w.layers.value, w.disk, The(w.layers.value, id), how, us);
      }
  }

  lemma NamesOnDiskAreKnown(w: World, n: string)
    requires Sound(w) && w.layers.Some? && Lists(NamesOf(All(w.disk)), n)
    ensures Lists(NamesOf(w.layers.value), n)
  {
    var rs, ls := All(w.disk), w.layers.value;
    var i :| 0 <= i < |rs| && n in NamesOf(rs)[i];
    AllHas(ls, w.disk, rs[i]);
    var j :| 0 <= j < |ls| && ls[j] == rs[i];
    assert n in NamesOf(ls)[j];
  }

  lemma SourcesAreUnique(w: World, a: Act)
    requires Sound(w) && UniqueNames(All(w.disk)) && Legal(w, a)
    ensures UniqueNames(Sources(w, a))
  {
    if a.Make? && !Refused(w.layers.value, a.r) {
      forall n | Lists(NamesOf(All(w.disk)), n)
        ensures Lists(NamesOf(w.layers.value), n)
      {
        NamesOnDiskAreKnown(w, n);
      }
      AppendKeepsNamesUnique(All(w.disk), a.r);
    }
  }

  lemma StepKeepsNamesUnique(w: World, a: Act, w': World)
    requires Sound(w) && UniqueNames(All(w.disk)) && Legal(w, a) && Next(w, a, w')
    ensures UniqueNames(All(w'.disk))
  {
    StepBringsOnly(w, a, w');
    SourcesAreUnique(w, a);
    NamesStayUnique(Sources(w, a), All(w'.disk));
  }

  /** An act that is not the deletion of `r` leaves the finished layer `r` on disk. */
  lemma StepLeaves(w: World, a: Act, w': World, r: Record)
    requires Sound(w) && UniqueNames(All(w.disk)) && Legal(w, a) && Next(w, a, w')
    requires OnDisk(w.disk, r) && !r.incomplete && !(a.Kill? && a.id == r.id)
    ensures OnDisk(w'.disk, r)
  {
    NextDisk(w, a, w');
    if a.Start? {
      LoadLeaves(w.disk, a.each, r);
    } else {
      var ls := w.layers.value;
      OnDiskHas(ls, w.disk, r);
      if a.Make? && !Refused(ls, a.r) {
        var i :| 0 <= i < |ls| && ls[i] == r;
        CreateLeaves(ls, w.disk, a.r, a.filling, a.how, r);
      } else if a.Kill? && HasId(ls, a.id) {
        DeleteLeaves(ls, w.disk, The(ls, a.id), a.how, r);
      }
    }
  }

  /** No record has this ID. */
  ghost predicate Absent(rs: seq<Record>, id: string) {
    forall t :: t in rs ==> t.id != id
  }

  lemma AbsentSources(rs: seq<Record>, us: seq<Record>, id: string)
    requires ComeFrom(rs, us) && Absent(us, id)
    ensures Absent(rs, id)
  {
  }

  /** An act that does not create layer `id` does not bring it to the disk. */
  lemma StepBringsNot(w: World, a: Act, w': World, id: string)
    requires Sound(w) && UniqueNames(All(w.disk)) && Legal(w, a) && Next(w, a, w')
    requires Absent(All(w.disk), id) && !(a.Make? && a.r.id == id)
    ensures Absent(All(w'.disk), id)
  {
    StepBringsOnly(w, a, w');
    AbsentSources(All(w'.disk), Sources(w, a), id);
  }

  // ---- Runs

  lemma {:induction false} RunKeepsNamesUnique(worlds: seq<World>, acts: seq<Act>, k: nat)
    requires IsRun(worlds, acts) && k < |worlds|
    ensures UniqueNames(All(worlds[k].disk))
  {
    if k > 0 {
      RunKeepsNamesUnique(worlds, acts, k - 1);
      RunIsSound(worlds, acts, k - 1);
      assert StepsAt(worlds, acts, k - 1);
      StepKeepsNamesUnique(worlds[k - 1], acts[k - 1], worlds[k]);
    }
  }

  lemma RunStepLeaves(worlds: seq<World>, acts: seq<Act>, k: nat, r: Record)
    requires IsRun(worlds, acts) && k < |acts| && OnDisk(worlds[k].disk, r) && !r.incomplete
    requires !(acts[k].Kill? && acts[k].id == r.id)
    ensures OnDisk(worlds[k + 1].disk, r)
  {
    RunIsSound(worlds, acts, k);
    RunKeepsNamesUnique(worlds, acts, k);
    assert StepsAt(worlds, acts, k);
    StepLeaves(worlds[k], acts[k], worlds[k + 1], r);
  }

  lemma SurvivorIsWhole(w: World, r: Record)
    requires Sound(w) && OnDisk(w.disk, r) && !r.incomplete
    ensures r.id in w.disk.driver && w.disk.driver[r.id] && (w.layers.Some? ==> r in w.layers.value)
  {
    OnDiskHas(All(w.disk), w.disk, r);
    if w.layers.Some? {
      OnDiskHas(w.layers.value, w.disk, r);
    }
  }

  /**
   * In every run, wherever processes die: a layer that was finished stays on disk exactly as it was recorded, and its
   * contents stay finished, for as long as nobody asks to delete it.
   */
  lemma {:induction false} FinishedSurvives(worlds: seq<World>, acts: seq<Act>, j: nat, k: nat, r: Record)
    requires IsRun(worlds, acts) && j <= k < |worlds| && OnDisk(worlds[j].disk, r) && !r.incomplete
    requires forall i :: j <= i < k ==> !(acts[i].Kill? && acts[i].id == r.id)
    ensures OnDisk(worlds[k].disk, r) && r.id in worlds[k].disk.driver && worlds[k].disk.driver[r.id]
    ensures worlds[k].layers.Some? ==> r in worlds[k].layers.value
  {
    if j < k {
      FinishedSurvives(worlds, acts, j, k - 1, r);
      RunStepLeaves(worlds, acts, k - 1, r);
    }
    RunIsSound(worlds, acts, k);
    SurvivorIsWhole(worlds[k], r);
  }

  lemma RunStepBringsNot(worlds: seq<World>, acts: seq<Act>, k: nat, id: string)
    requires IsRun(worlds, acts) && k < |acts| && Absent(All(worlds[k].disk), id) && !(acts[k].Make? && acts[k].r.id == id)
    ensures Absent(All(worlds[k + 1].disk), id)
  {
    RunIsSound(worlds, acts, k);
    RunKeepsNamesUnique(worlds, acts, k);
    assert StepsAt(worlds, acts, k);
    StepBringsNot(worlds[k], acts[k], worlds[k + 1], id);
  }

  lemma AbsentEverywhere(w: World, id: string)
    requires Sound(w) && Absent(All(w.disk), id)
    ensures id !in w.disk.driver && (w.layers.Some? ==> Absent(w.layers.value, id))
  {
    if w.layers.Some? {
      forall t | t in w.layers.value
        ensures t.id != id
      {
        AllHas(w.layers.value, w.disk, t);
      }
    }
  }

  /** In every run, a layer that is gone stays gone, with nothing left in the driver, until somebody asks to create it. */
  lemma {:induction false} GoneStaysGone(worlds: seq<World>, acts: seq<Act>, j: nat, k: nat, id: string)
    requires IsRun(worlds, acts) && j <= k < |worlds| && Absent(All(worlds[j].disk), id)
    requires forall i :: j <= i < k ==> !(acts[i].Make? && acts[i].r.id == id)
    ensures Absent(All(worlds[k].disk), id) && id !in worlds[k].disk.driver
    ensures worlds[k].layers.Some? ==> Absent(worlds[k].layers.value, id)
  {
    if j < k {
      GoneStaysGone(worlds, acts, j, k - 1, id);
      RunStepBringsNot(worlds, acts, k - 1, id);
    }
    RunIsSound(worlds, acts, k);
    AbsentEverywhere(worlds[k], id);
  }

  /** The two ends of a layer's life: a creation that finishes puts it on disk, a deletion that completes takes it off. */
  lemma CreatedThenDeleted(w: World, a: Act, w': World)
    requires Sound(w) && Legal(w, a) && w' == World(Does(w, a).disk, Some(Does(w, a).layers))
    ensures a.Make? && a.filling == Finishes && !Refused(w.layers.value, a.r) ==>
      Added(w.disk, a.r, w'.disk) && OnDisk(w'.disk, a.r) && w'.layers.value == w.layers.value + [a.r]
    ensures a.Kill? && a.how == Completes && HasId(w.layers.value, a.id) ==>
      Dropped(w.disk, The(w.layers.value, a.id), w'.disk) && TakenOut(w.layers.value, w'.layers.value, a.id)
  {
    if a.Make? && a.filling == Finishes {
      CreatedIsAdded(w.layers.value, w.disk, a.r, a.how);
    }
    if a.Kill? && HasId(w.layers.value, a.id) && a.how == Completes {
      DeletedIsDropped(w.layers.value, w.disk, The(w.layers.value, a.id));
    }
  }
}
