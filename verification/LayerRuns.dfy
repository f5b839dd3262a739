/** Runs of layer creations, deletions and loads, cut off by crashes anywhere. */
module LayerRuns {
  import opened Common
  import opened LayerRecords
  import opened LayerTraces
  import opened LayerLoad
  import opened NameClaims

  /** The disk, and the records a process has in memory, if one is running. */
  datatype World = World(disk: Disk, layers: Option<seq<Record>>)

  datatype Act =
    | Start(each: string -> Removal)
    | Make(r: Record, filling: Filling, how: Removal)
    | Kill(id: string, how: Removal)

  /** Refused with "duplicate ID" or "duplicate name". */
  ghost predicate Refused(ls: seq<Record>, r: Record) {
    HasId(ls, r.id) || NameTaken(ls, r.names)
  }

  /** What the process does when it is not interrupted. */
  ghost function Does(w: World, a: Act): Outcome {
    match a
    case Start(each) => Load(w.disk, each)
    case Make(r, filling, how) =>
      if w.layers.None? then Outcome([], w.disk, [])
      else if Refused(w.layers.value, r) then Outcome([], w.disk, w.layers.value)
      else Create(w.layers.value, w.disk, r, filling, how)
    case Kill(id, how) =>
      if w.layers.None? then Outcome([], w.disk, [])
      else if !HasId(w.layers.value, id) then Outcome([], w.disk, w.layers.value)
      else Delete(w.layers.value, w.disk, The(w.layers.value, id), how)
  }

  ghost function The(ls: seq<Record>, id: string): (r: Record)
    requires HasId(ls, id)
    ensures r in ls && r.id == id
  {
    var i :| 0 <= i < |ls| && ls[i].id == id;
    ls[i]
  }

  /** A process must have loaded the store, and callers give every name once. */
  ghost predicate Legal(w: World, a: Act) {
    match a
    case Start(each) => true
    case Make(r, filling, how) => w.layers.Some? && !r.incomplete && Distinct(r.names)
    case Kill(id, how) => w.layers.Some?
  }

  /** A process that could neither save a draft nor take it back has records that are not on disk; it counts as dead. */
  predicate GoesOn(a: Act) {
    !(a.Make? && a.filling == DraftUnsaved && a.how != Completes)
  }

  /** The act completes, or the process dies before its first write or after any of them. */
  ghost predicate Next(w: World, a: Act, w': World) {
    var o := Does(w, a);
    || (GoesOn(a) && w' == World(o.disk, Some(o.layers)))
    || (w'.layers.None? && w'.disk in [w.disk] + o.trace)
  }

  ghost predicate Sound(w: World) {
    && Safe(w.disk)
    && (w.layers.Some? ==> Reflects(w.layers.value, w.disk) && UniqueNames(w.layers.value))
  }

  lemma NamesStayUnique(ls: seq<Record>, ls': seq<Record>)
    requires UniqueNames(ls)
    requires forall r :: r in ls' ==> exists t :: t in ls && t.id == r.id && t.names == r.names
    ensures UniqueNames(ls')
  {
  }

  lemma DeleteKeepsNamesUnique(ls: seq<Record>, d: Disk, r: Record, how: Removal)
    requires UniqueNames(ls)
    ensures UniqueNames(Delete(ls, d, r, how).layers)
  {
    var flagged := Flag(ls, r.id);
    forall t | t in Delete(ls, d, r, how).layers
      ensures exists u :: u in ls && u.id == t.id && u.names == t.names
    {
      WithoutHas(flagged, {r.id}, t);
      var i :| 0 <= i < |ls| && flagged[i] == t;
      assert ls[i] in ls;
    }
    NamesStayUnique(ls, Delete(ls, d, r, how).layers);
  }

  lemma AppendKeepsNamesUnique(ls: seq<Record>, r: Record)
    requires UniqueNames(ls) && Distinct(r.names) && forall n :: n in r.names ==> !Lists(NamesOf(ls), n)
    ensures UniqueNames(ls + [r])
  {
    forall t, n | t in ls && n in t.names
      ensures n !in r.names
    {
      var i :| 0 <= i < |ls| && ls[i] == t;
      assert n in NamesOf(ls)[i];
    }
  }

  lemma CreateKeepsNamesUnique(ls: seq<Record>, d: Disk, r: Record, filling: Filling, how: Removal)
    requires UniqueNames(ls) && !r.incomplete && Distinct(r.names) && !Refused(ls, r)
    ensures UniqueNames(Create(ls, d, r, filling, how).layers)
  {
    var draft := r.(incomplete := true);
    AppendKeepsNamesUnique(ls, r);
    AppendKeepsNamesUnique(ls, draft);
    var d1 := Save(ls + [draft], d, r.loc);
    match filling
    case Finishes =>
    case DraftUnsaved => DeleteKeepsNamesUnique(ls + [draft], d, draft, how);
    case CreateFails => DeleteKeepsNamesUnique(ls + [draft], d1, draft, how);
    case ContentsFail => DeleteKeepsNamesUnique(ls + [draft], Driver(d1, r.id, false), draft, how);
    case FinishUnsaved => DeleteKeepsNamesUnique(ls + [r], Driver(Driver(d1, r.id, false), r.id, true), r, how);
  }

  lemma MakeIsSound(w: World, r: Record, filling: Filling, how: Removal)
    requires Sound(w) && Legal(w, Make(r, filling, how)) && !Refused(w.layers.value, r)
    ensures var o := Create(w.layers.value, w.disk, r, filling, how);
      AllSafe(o.trace) && (GoesOn(Make(r, filling, how)) ==> Sound(World(o.disk, Some(o.layers))))
  {
    var o := Create(w.layers.value, w.disk, r, filling, how);
    CreateIsSafe(w.layers.value, w.disk, r, filling, how);
    CreateKeepsNamesUnique(w.layers.value, w.disk, r, filling, how);
    if Reflects(o.layers, o.disk) {
      ReflectsIsSafe(o.layers, o.disk);
    }
  }

  lemma KillIsSound(w: World, id: string, how: Removal)
    requires Sound(w) && w.layers.Some? && HasId(w.layers.value, id)
    ensures var o := Delete(w.layers.value, w.disk, The(w.layers.value, id), how);
      AllSafe(o.trace) && Sound(World(o.disk, Some(o.layers)))
  {
    var ls, r := w.layers.value, The(w.layers.value, id);
    var o := Delete(ls, w.disk, r, how);
    DeleteIsSafe(ls, w.disk, r, how);
    DeleteKeepsNamesUnique(ls, w.disk, r, how);
    ReflectsIsSafe(o.layers, o.disk);
  }

  lemma StartIsSound(d: Disk, each: string -> Removal)
    requires Safe(d)
    ensures var o := Load(d, each); AllSafe(o.trace) && Sound(World(o.disk, Some(o.layers)))
  {
    var o := Load(d, each);
    LoadIsSafe(d, each);
    LoadRepairs(d, each);
    ReflectsIsSafe(o.layers, o.disk);
  }

  lemma CompletedIsSound(w: World, a: Act)
    requires Sound(w) && Legal(w, a)
    ensures AllSafe(Does(w, a).trace)
    ensures GoesOn(a) ==> Sound(World(Does(w, a).disk, Some(Does(w, a).layers)))
  {
    match a {
      case Start(each) => StartIsSound(w.disk, each);
      case Make(r, filling, how) =>
        if !Refused(w.layers.value, r) {
          MakeIsSound(w, r, filling, how);
        }
      case Kill(id, how) =>
        if HasId(w.layers.value, id) {
          KillIsSound(w, id, how);
        }
    }
  }

  lemma NextIsSound(w: World, a: Act, w': World)
    requires Sound(w) && Legal(w, a) && Next(w, a, w')
    ensures Sound(w')
  {
    CompletedIsSound(w, a);
  }

  ghost predicate StepsAt(worlds: seq<World>, acts: seq<Act>, k: nat)
    requires |worlds| == |acts| + 1 && k < |acts|
  {
    Legal(worlds[k], acts[k]) && Next(worlds[k], acts[k], worlds[k + 1])
  }

  ghost predicate IsRun(worlds: seq<World>, acts: seq<Act>) {
    && |worlds| == |acts| + 1
    && worlds[0] == World(Disk([], [], [], map[]), None)
    && forall k: nat :: k < |acts| ==> StepsAt(worlds, acts, k)
  }

  /** In every run, wherever processes die: records without the flag have finished contents, every driver layer has a
      record, and a running process has in memory what is on disk. */
  lemma {:induction false} RunIsSound(worlds: seq<World>, acts: seq<Act>, k: nat)
    requires IsRun(worlds, acts) && k < |worlds|
    ensures Sound(worlds[k])
  {
    if k > 0 {
      RunIsSound(worlds, acts, k - 1);
      assert StepsAt(worlds, acts, k - 1);
      NextIsSound(worlds[k - 1], acts[k - 1], worlds[k]);
    }
  }

  /** The deletion of `r` when memory may carry the flag although the write that should have recorded it failed:
      it is safe at every crash point exactly when memory and disk agree about the flag. */
  lemma DeleteNeedsRecordedFlag(ls: seq<Record>, d: Disk, r: Record, flaggedInMemory: bool, how: Removal)
    requires Reflects(ls, d) && r in ls && !r.incomplete
    ensures
      var memory := if flaggedInMemory then Flag(ls, r.id) else ls;
      AllSafe(Delete(memory, d, r.(incomplete := flaggedInMemory), how).trace) <==> !flaggedInMemory
  {
    if flaggedInMemory {
      var trace := Delete(Flag(ls, r.id), d, r.(incomplete := true), how).trace;
      var halfway := Driver(d, r.id, false);
      assert trace[0] == halfway;
      AllHas(ls, d, r);
      assert All(halfway) == All(d);
      assert !Backed(All(halfway), halfway.driver);
      assert halfway in trace && !Safe(halfway);
    } else {
      DeleteIsSafe(ls, d, r, how);
    }
  }

  /**
   * And that state is reached: a deletion that cannot record the flag changes memory only, so that trying again passes
   * through an unsafe state, whatever the driver does, although the first attempt did no harm.
   */
  lemma RetryAfterUnsavedFlag(ls: seq<Record>, d: Disk, r: Record, how: Removal)
    requires Reflects(ls, d) && r in ls && !r.incomplete
    ensures var failed := FlagUnsaved(ls, d, r);
      && failed.disk == d && Safe(d) && r.(incomplete := true) in failed.layers
      && !AllSafe(Delete(failed.layers, failed.disk, r.(incomplete := true), how).trace)
  {
    var i :| 0 <= i < |ls| && ls[i] == r;
    assert Flag(ls, r.id)[i] == r.(incomplete := true);
    ReflectsIsSafe(ls, d);
    DeleteNeedsRecordedFlag(ls, d, r, true, how);
  }
}
