/** Loading the record files under the write lock: repairs, and what they leave (storage/layers.go). */
module LayerLoad {
  import opened Common
  import opened LayerRecords
  import opened LayerTraces
  import opened NameClaims

  function NamesOf(rs: seq<Record>): NameLists {
    seq(|rs|, i requires 0 <= i < |rs| => rs[i].names)
  }

  /** Some record lists one of the names. */
  ghost predicate NameTaken(rs: seq<Record>, names: seq<string>) {
    exists n :: n in names && Lists(NamesOf(rs), n)
  }

  /** Every name goes to the last record that lists it. */
  function Resolve(rs: seq<Record>): seq<Record> {
    seq(|rs|, i requires 0 <= i < |rs| => rs[i].(names := Resolved(NamesOf(rs))[i]))
  }

  /** The ids of the flagged records, in order. */
  function Incomplete(rs: seq<Record>): seq<string> {
    if rs == [] then []
    else
      var last := rs[|rs| - 1];
      Incomplete(rs[..|rs| - 1]) + if last.incomplete then [last.id] else []
  }

  /** The driver removals of the layers of `todo`, in order. */
  function Clean(todo: seq<string>, d: Disk, how: string -> Removal): (seq<Disk>, Disk) {
    if todo == [] then ([], d)
    else
      var last := todo[|todo| - 1];
      var (before, d1) := Clean(todo[..|todo| - 1], d, how);
      var (removal, d2) := Remove(d1, last, how(last));
      (before + removal, d2)
  }

  /** The ids whose removal completes. */
  function Gone(todo: seq<string>, how: string -> Removal): set<string> {
    set id | id in todo && how(id) == Completes
  }

  /** The files of records that lost a name or were to be deleted. */
  function Modified(rs: seq<Record>): set<Loc> {
    set i | 0 <= i < |rs| && (rs[i].incomplete || Resolve(rs)[i] != rs[i]) :: rs[i].loc
  }

  function SaveIf(ls: seq<Record>, d: Disk, locs: set<Loc>, loc: Loc): Disk {
    if loc in locs then Save(ls, d, loc) else d
  }

  function Saved(ls: seq<Record>, d: Disk, locs: set<Loc>): Disk {
    SaveIf(ls, SaveIf(ls, SaveIf(ls, d, locs, Stable), locs, ImageStore), locs, Volatile)
  }

  /** One write per file of `locs`, in the order of the files. */
  function SaveTrace(ls: seq<Record>, d: Disk, locs: set<Loc>): seq<Disk> {
    var d1 := SaveIf(ls, d, locs, Stable);
    var d2 := SaveIf(ls, d1, locs, ImageStore);
    var d3 := SaveIf(ls, d2, locs, Volatile);
    (if Stable in locs then [d1] else [])
    + (if ImageStore in locs then [d2] else [])
    + (if Volatile in locs then [d3] else [])
  }

  predicate NeedsRepair(rs: seq<Record>) {
    Modified(rs) != {}
  }

  function Load(d: Disk, how: string -> Removal): Outcome {
    var rs := All(d);
    if !NeedsRepair(rs) then Outcome([], d, rs)
    else
      var (cleaning, d1) := Clean(Incomplete(rs), d, how);
      var ls := Without(Resolve(rs), Gone(Incomplete(rs), how));
      Outcome(cleaning + SaveTrace(ls, d1, Modified(rs)), Saved(ls, d1, Modified(rs)), ls)
  }

  // ---- Names

  ghost predicate UniqueNames(ls: seq<Record>) {
    && TidyNames(ls)
    && forall r, t, n :: r in ls && t in ls && n in r.names && n in t.names ==> r.id == t.id
  }

  lemma ResolvedNamesAreUnique(rs: seq<Record>)
    requires TidyNames(rs)
    ensures UniqueNames(Resolve(rs))
  {
    var res, ns := Resolve(rs), NamesOf(rs);
    forall i | 0 <= i < |rs|
      ensures Distinct(res[i].names)
    {
      assert rs[i] in rs;
      SurvivingStaysDistinct(ns[i], ns[i + 1..]);
    }
    forall i, j, n | 0 <= i < j < |rs| && n in res[i].names
      ensures n !in res[j].names
    {
      ResolvedIsUnique(ns, i, j, n);
    }
  }

  lemma UniqueNamesResolveToThemselves(rs: seq<Record>)
    requires DistinctIds(rs) && UniqueNames(rs)
    ensures Resolve(rs) == rs
  {
    forall i, j, x | 0 <= i < j < |rs| && x in NamesOf(rs)[i]
      ensures x !in NamesOf(rs)[j]
    {
      assert rs[i] in rs && rs[j] in rs;
    }
    UniqueIsResolved(NamesOf(rs));
  }

  // ---- Every crash point of a load is safe

  lemma {:induction false} IncompleteHas(rs: seq<Record>, id: string)
    ensures id in Incomplete(rs) <==> exists r :: r in rs && r.id == id && r.incomplete
  {
    if rs != [] {
      IncompleteHas(rs[..|rs| - 1], id);
      assert rs == rs[..|rs| - 1] + [rs[|rs| - 1]];
    }
  }

  ghost predicate Flagged(rs: seq<Record>, id: string) {
    exists r :: r in rs && r.id == id && r.incomplete
  }

  lemma {:induction false} CleaningReflects(rs: seq<Record>, todo: seq<string>, d: Disk, how: string -> Removal)
    requires Reflects(rs, d) && forall id :: id in todo ==> Flagged(rs, id)
    ensures forall e :: e in Clean(todo, d, how).0 ==> Reflects(rs, e)
    ensures Reflects(rs, Clean(todo, d, how).1)
  {
    if todo != [] {
      var rest, last := todo[..|todo| - 1], todo[|todo| - 1];
      assert last in todo && forall id :: id in rest ==> id in todo;
      CleaningReflects(rs, rest, d, how);
      var r :| r in rs && r.id == last && r.incomplete;
      var i :| 0 <= i < |rs| && rs[i] == r;
      RemovalReflects(rs, Clean(rest, d, how).1, last, how(last));
    }
  }

  lemma {:induction false} CleaningEmpties(todo: seq<string>, d: Disk, how: string -> Removal)
    ensures Clean(todo, d, how).1.driver.Keys !! Gone(todo, how)
    ensures Clean(todo, d, how).1.driver.Keys <= d.driver.Keys
  {
    if todo != [] {
      var rest, last := todo[..|todo| - 1], todo[|todo| - 1];
      CleaningEmpties(rest, d, how);
      assert todo == rest + [last];
      assert Gone(todo, how) == Gone(rest, how) + if how(last) == Completes then {last} else {};
    }
  }

  /** `rs` with the repairs applied to the files of `locs` only. */
  ghost function Mixed(rs: seq<Record>, gone: set<string>, locs: set<Loc>): seq<Record> {
    Without(seq(|rs|, i requires 0 <= i < |rs| => if rs[i].loc in locs then Resolve(rs)[i] else rs[i]), GoneOn(rs, gone, locs))
  }

  ghost function GoneOn(rs: seq<Record>, gone: set<string>, locs: set<Loc>): set<string> {
    set r | r in rs && r.loc in locs && r.id in gone :: r.id
  }

  lemma GoneFromFile(rs: seq<Record>, gone: set<string>, locs: set<Loc>, loc: Loc)
    requires DistinctIds(rs) && loc in locs
    ensures Without(OnLoc(Resolve(rs), loc), GoneOn(rs, gone, locs)) == Without(OnLoc(Resolve(rs), loc), gone)
  {
    var out := GoneOn(rs, gone, locs);
    forall r | r in OnLoc(Resolve(rs), loc)
      ensures r.id in out <==> r.id in gone
    {
      OnLocHas(Resolve(rs), loc, r);
      var i :| 0 <= i < |rs| && Resolve(rs)[i] == r;
      assert rs[i] in rs;
    }
    WithoutAgrees(OnLoc(Resolve(rs), loc), out, gone);
  }

  lemma NotGoneFromFile(rs: seq<Record>, gone: set<string>, locs: set<Loc>, loc: Loc)
    requires DistinctIds(rs) && loc !in locs
    ensures Without(OnLoc(rs, loc), GoneOn(rs, gone, locs)) == OnLoc(rs, loc)
  {
    forall r | r in OnLoc(rs, loc)
      ensures r.id !in GoneOn(rs, gone, locs)
    {
      OnLocHas(rs, loc, r);
    }
    WithoutAgrees(OnLoc(rs, loc), GoneOn(rs, gone, locs), {});
    WithoutNothing(OnLoc(rs, loc));
  }

  lemma MixedFiles(rs: seq<Record>, gone: set<string>, locs: set<Loc>, loc: Loc)
    requires DistinctIds(rs)
    ensures OnLoc(Mixed(rs, gone, locs), loc) == if loc in locs then OnLoc(Without(Resolve(rs), gone), loc) else OnLoc(rs, loc)
  {
    var mix := seq(|rs|, i requires 0 <= i < |rs| => if rs[i].loc in locs then Resolve(rs)[i] else rs[i]);
    OnLocOfWithout(mix, GoneOn(rs, gone, locs), loc);
    if loc in locs {
      OnLocAgrees(mix, Resolve(rs), loc);
      OnLocOfWithout(Resolve(rs), gone, loc);
      GoneFromFile(rs, gone, locs, loc);
    } else {
      OnLocAgrees(mix, rs, loc);
      NotGoneFromFile(rs, gone, locs, loc);
    }
  }

  /** `e` is `d` after the files of `locs` were written to hold the records of `ls`. */
  ghost predicate PartlySaved(ls: seq<Record>, locs: set<Loc>, d: Disk, e: Disk) {
    e.driver == d.driver && forall loc :: File(e, loc) == if loc in locs then OnLoc(ls, loc) else File(d, loc)
  }

  lemma SavesOneMore(ls: seq<Record>, locs: set<Loc>, done: set<Loc>, d: Disk, e: Disk, loc: Loc)
    requires PartlySaved(ls, done, d, e)
    ensures PartlySaved(ls, done + locs * {loc}, d, SaveIf(ls, e, locs, loc))
  {
    var f := SaveIf(ls, e, locs, loc);
    forall x
      ensures File(f, x) == if x in done + locs * {loc} then OnLoc(ls, x) else File(d, x)
    {
      assert File(e, x) == if x in done then OnLoc(ls, x) else File(d, x);
    }
  }

  lemma MixedComesFrom(rs: seq<Record>, gone: set<string>, locs: set<Loc>, r: Record) returns (i: nat)
    requires r in Mixed(rs, gone, locs)
    ensures i < |rs| && (r == rs[i] || r == Resolve(rs)[i])
  {
    var mix := seq(|rs|, i requires 0 <= i < |rs| => if rs[i].loc in locs then Resolve(rs)[i] else rs[i]);
    WithoutHas(mix, GoneOn(rs, gone, locs), r);
    i :| 0 <= i < |rs| && mix[i] == r;
  }

  lemma MixedIsBacked(rs: seq<Record>, gone: set<string>, locs: set<Loc>, driver: map<string, bool>)
    requires Backed(rs, driver) && TidyNames(rs) && driver.Keys !! gone
    ensures Backed(Mixed(rs, gone, locs), driver) && TidyNames(Mixed(rs, gone, locs))
  {
    forall r | r in Mixed(rs, gone, locs)
      ensures Distinct(r.names) && (!r.incomplete ==> r.id in driver && driver[r.id])
    {
      var i := MixedComesFrom(rs, gone, locs, r);
      assert rs[i] in rs;
      SurvivingStaysDistinct(NamesOf(rs)[i], NamesOf(rs)[i + 1..]);
    }
    var mix := seq(|rs|, i requires 0 <= i < |rs| => if rs[i].loc in locs then Resolve(rs)[i] else rs[i]);
    forall id | id in driver
      ensures HasId(Mixed(rs, gone, locs), id)
    {
      var i :| 0 <= i < |rs| && rs[i].id == id;
      WithoutHas(mix, GoneOn(rs, gone, locs), mix[i]);
    }
  }

  lemma MixedReflects(rs: seq<Record>, gone: set<string>, locs: set<Loc>, d: Disk, e: Disk)
    requires Reflects(rs, d) && d.driver.Keys !! gone && PartlySaved(Without(Resolve(rs), gone), locs, d, e)
    ensures Reflects(Mixed(rs, gone, locs), e)
  {
    var mix := seq(|rs|, i requires 0 <= i < |rs| => if rs[i].loc in locs then Resolve(rs)[i] else rs[i]);
    WithoutStaysDistinct(mix, GoneOn(rs, gone, locs));
    forall loc
      ensures File(e, loc) == OnLoc(Mixed(rs, gone, locs), loc)
    {
      MixedFiles(rs, gone, locs, loc);
      assert File(d, loc) == OnLoc(rs, loc);
    }
    MixedIsBacked(rs, gone, locs, d.driver);
  }

  lemma SaveTraceHas(ls: seq<Record>, d: Disk, locs: set<Loc>, d1: Disk, d2: Disk, d3: Disk, e: Disk)
    requires d1 == SaveIf(ls, d, locs, Stable) && d2 == SaveIf(ls, d1, locs, ImageStore) && d3 == SaveIf(ls, d2, locs, Volatile)
    requires e in SaveTrace(ls, d, locs)
    ensures e == d1 || e == d2 || e == d3
  {
  }

  lemma SavingIsSafe(rs: seq<Record>, gone: set<string>, locs: set<Loc>, d: Disk)
    requires Reflects(rs, d) && d.driver.Keys !! gone
    ensures AllSafe(SaveTrace(Without(Resolve(rs), gone), d, locs))
    ensures Reflects(Mixed(rs, gone, locs), Saved(Without(Resolve(rs), gone), d, locs))
  {
    var ls := Without(Resolve(rs), gone);
    var d1 := SaveIf(ls, d, locs, Stable);
    var d2 := SaveIf(ls, d1, locs, ImageStore);
    var d3 := SaveIf(ls, d2, locs, Volatile);
    var s1 := {} + locs * {Stable};
    var s2 := s1 + locs * {ImageStore};
    SavesOneMore(ls, locs, {}, d, d, Stable);
    SavesOneMore(ls, locs, s1, d, d1, ImageStore);
    SavesOneMore(ls, locs, s2, d, d2, Volatile);
    forall l
      ensures l in s2 + locs * {Volatile} <==> l in locs
    {
      assert l.Stable? || l.ImageStore? || l.Volatile?;
    }
    assert s2 + locs * {Volatile} == locs;
    SavedStateIsSafe(rs, gone, s1, d, d1);
    SavedStateIsSafe(rs, gone, s2, d, d2);
    SavedStateIsSafe(rs, gone, locs, d, d3);
    forall e | e in SaveTrace(ls, d, locs)
      ensures Safe(e)
    {
      SaveTraceHas(ls, d, locs, d1, d2, d3, e);
    }
  }

  lemma SavedStateIsSafe(rs: seq<Record>, gone: set<string>, locs: set<Loc>, d: Disk, e: Disk)
    requires Reflects(rs, d) && d.driver.Keys !! gone && PartlySaved(Without(Resolve(rs), gone), locs, d, e)
    ensures Safe(e) && Reflects(Mixed(rs, gone, locs), e)
  {
    MixedReflects(rs, gone, locs, d, e);
    ReflectsIsSafe(Mixed(rs, gone, locs), e);
  }

  /** Files in which nothing was repaired need not be written. */
  lemma UnmodifiedFiles(rs: seq<Record>, gone: set<string>, loc: Loc)
    requires DistinctIds(rs) && loc !in Modified(rs) && forall id :: id in gone ==> exists r :: r in rs && r.id == id && r.incomplete
    ensures OnLoc(Without(Resolve(rs), gone), loc) == OnLoc(rs, loc)
  {
    forall i | 0 <= i < |rs| && rs[i].loc == loc
      ensures Resolve(rs)[i] == rs[i] && !rs[i].incomplete
    {
    }
    OnLocAgrees(Resolve(rs), rs, loc);
    OnLocOfWithout(Resolve(rs), gone, loc);
    forall r | r in OnLoc(rs, loc)
      ensures r.id !in gone
    {
      OnLocHas(rs, loc, r);
      var i :| 0 <= i < |rs| && rs[i] == r;
      assert !rs[i].incomplete;
    }
    WithoutAgrees(OnLoc(rs, loc), gone, {});
    WithoutNothing(OnLoc(rs, loc));
  }

  lemma IncompleteAreRecords(rs: seq<Record>)
    ensures forall id :: id in Incomplete(rs) <==> exists r :: r in rs && r.id == id && r.incomplete
  {
    forall id
      ensures id in Incomplete(rs) <==> exists r :: r in rs && r.id == id && r.incomplete
    {
      IncompleteHas(rs, id);
    }
  }

  /** From a safe disk, a load is safe at every write and ends with files that hold what is in memory. */
  lemma LoadIsSafe(d: Disk, how: string -> Removal)
    requires Safe(d)
    ensures AllSafe(Load(d, how).trace)
    ensures Reflects(Load(d, how).layers, Load(d, how).disk)
  {
    var rs := All(d);
    if NeedsRepair(rs) {
      var todo := Incomplete(rs);
      var (cleaning, d1) := Clean(todo, d, how);
      var gone := Gone(todo, how);
      IncompleteAreRecords(rs);
      CleaningReflects(rs, todo, d, how);
      CleaningEmpties(todo, d, how);
      forall e | e in cleaning
        ensures Safe(e)
      {
        ReflectsIsSafe(rs, e);
      }
      SavingIsSafe(rs, gone, Modified(rs), d1);
      LoadedReflects(rs, gone, Saved(Without(Resolve(rs), gone), d1, Modified(rs)));
    }
  }

  lemma LoadedReflects(rs: seq<Record>, gone: set<string>, e: Disk)
    requires DistinctIds(rs) && forall id :: id in gone ==> exists r :: r in rs && r.id == id && r.incomplete
    requires Reflects(Mixed(rs, gone, Modified(rs)), e)
    ensures Reflects(Without(Resolve(rs), gone), e)
  {
    var ls := Without(Resolve(rs), gone);
    var mixed := Mixed(rs, gone, Modified(rs));
    WithoutStaysDistinct(Resolve(rs), gone);
    forall loc
      ensures File(e, loc) == OnLoc(ls, loc) == OnLoc(mixed, loc)
    {
      assert File(e, loc) == OnLoc(mixed, loc);
      MixedFiles(rs, gone, Modified(rs), loc);
      if loc !in Modified(rs) {
        UnmodifiedFiles(rs, gone, loc);
      }
    }
    SameFilesSameRecords(mixed, ls, e.driver);
  }

  lemma SameFilesSameRecords(a: seq<Record>, b: seq<Record>, driver: map<string, bool>)
    requires Backed(a, driver) && TidyNames(a) && forall loc :: OnLoc(a, loc) == OnLoc(b, loc)
    ensures Backed(b, driver) && TidyNames(b)
  {
    forall r
      ensures r in a <==> r in b
    {
      OnLocHas(a, r.loc, r);
      OnLocHas(b, r.loc, r);
    }
    forall id | HasId(a, id)
      ensures HasId(b, id)
    {
      var i :| 0 <= i < |a| && a[i].id == id;
      assert a[i] in b;
    }
  }

  lemma GoneMeansFlagged(rs: seq<Record>, how: string -> Removal, i: nat)
    requires DistinctIds(rs) && i < |rs|
    ensures rs[i].id in Gone(Incomplete(rs), how) <==> rs[i].incomplete && how(rs[i].id) == Completes
  {
    IncompleteHas(rs, rs[i].id);
    assert forall t :: t in rs && t.id == rs[i].id ==> t == rs[i];
  }

  lemma UnmodifiedIsUnchanged(rs: seq<Record>)
    requires Modified(rs) == {}
    ensures Resolve(rs) == rs && forall r :: r in rs ==> !r.incomplete
  {
    forall i | 0 <= i < |rs|
      ensures Resolve(rs)[i] == rs[i] && !rs[i].incomplete
    {
      assert rs[i].loc !in Modified(rs);
    }
  }

  /** Record `r` was read, perhaps with more names, and its removal did not complete. */
  ghost predicate Stays(rs: seq<Record>, how: string -> Removal, r: Record) {
    exists i :: 0 <= i < |rs| && r == Resolve(rs)[i] && !(r.incomplete && how(r.id) == Completes)
  }

  lemma CleanedStays(rs: seq<Record>, how: string -> Removal, r: Record)
    requires DistinctIds(rs)
    ensures r in Without(Resolve(rs), Gone(Incomplete(rs), how)) <==> Stays(rs, how, r)
  {
    WithoutHas(Resolve(rs), Gone(Incomplete(rs), how), r);
    forall i | 0 <= i < |rs| && Resolve(rs)[i] == r
      ensures r.id in Gone(Incomplete(rs), how) <==> r.incomplete && how(r.id) == Completes
    {
      GoneMeansFlagged(rs, how, i);
    }
  }

  /** What a load keeps: every record whose removal did not complete, with the names no later record claims. */
  lemma LoadKeeps(d: Disk, how: string -> Removal, r: Record)
    requires Safe(d)
    ensures r in Load(d, how).layers <==> Stays(All(d), how, r)
  {
    var rs := All(d);
    if NeedsRepair(rs) {
      CleanedStays(rs, how, r);
    } else {
      UnmodifiedIsUnchanged(rs);
    }
  }

  lemma LoadedNamesAreUnique(d: Disk, how: string -> Removal)
    requires Safe(d)
    ensures UniqueNames(Load(d, how).layers)
  {
    ResolvedNamesAreUnique(All(d));
    forall r | r in Load(d, how).layers
      ensures r in Resolve(All(d))
    {
      LoadKeeps(d, how, r);
    }
  }

  ghost predicate ClaimedLater(rs: seq<Record>, i: nat, n: string) {
    exists j :: i < j < |rs| && n in rs[j].names
  }

  /** What becomes of the record at position `i`: everything stays but the names that a later record claims. */
  ghost predicate LoadedFrom(rs: seq<Record>, i: nat, r: Record) {
    && i < |rs| && r == rs[i].(names := r.names)
    && forall n :: n in r.names <==> n in rs[i].names && !ClaimedLater(rs, i, n)
  }

  lemma ResolvedFrom(rs: seq<Record>, i: nat)
    requires i < |rs|
    ensures LoadedFrom(rs, i, Resolve(rs)[i])
  {
    var ns := NamesOf(rs);
    forall n
      ensures Lists(ns[i + 1..], n) <==> ClaimedLater(rs, i, n)
    {
      if Lists(ns[i + 1..], n) {
        var k :| 0 <= k < |ns[i + 1..]| && n in ns[i + 1..][k];
        assert n in rs[i + 1 + k].names;
      }
      if j :| i < j < |rs| && n in rs[j].names {
        assert n in ns[i + 1..][j - i - 1];
      }
    }
  }

  /** Every loaded layer is a record on disk that was not removed, and every such record is loaded. */
  lemma LoadedIsRead(d: Disk, how: string -> Removal, r: Record) returns (i: nat)
    requires Safe(d) && r in Load(d, how).layers
    ensures LoadedFrom(All(d), i, r) && !(r.incomplete && how(r.id) == Completes)
  {
    var rs := All(d);
    LoadKeeps(d, how, r);
    i :| 0 <= i < |rs| && r == Resolve(rs)[i] && !(r.incomplete && how(r.id) == Completes);
    ResolvedFrom(rs, i);
  }

  lemma ReadIsLoaded(d: Disk, how: string -> Removal, i: nat) returns (r: Record)
    requires Safe(d) && i < |All(d)| && !(All(d)[i].incomplete && how(All(d)[i].id) == Completes)
    ensures r in Load(d, how).layers && LoadedFrom(All(d), i, r)
  {
    r := Resolve(All(d))[i];
    ResolvedFrom(All(d), i);
    LoadKeeps(d, how, r);
  }

  lemma FlagWasThere(d: Disk, how: string -> Removal, r: Record) returns (was: Record)
    requires Safe(d) && r in Load(d, how).layers && r.incomplete
    ensures was in All(d) && was.incomplete && how(was.id) != Completes
  {
    var rs := All(d);
    LoadKeeps(d, how, r);
    var i :| 0 <= i < |rs| && r == Resolve(rs)[i] && !(r.incomplete && how(r.id) == Completes);
    was := rs[i];
  }

  lemma FlagStays(d: Disk, how: string -> Removal, was: Record) returns (r: Record)
    requires Safe(d) && was in All(d) && was.incomplete && how(was.id) != Completes
    ensures r in Load(d, how).layers && r.incomplete
  {
    var rs := All(d);
    var i :| 0 <= i < |rs| && rs[i] == was;
    r := Resolve(rs)[i];
    LoadKeeps(d, how, r);
  }

  /** A load leaves a flag exactly if a removal failed. */
  lemma FlagsLeft(d: Disk, how: string -> Removal)
    requires Safe(d)
    ensures (exists r :: r in Load(d, how).layers && r.incomplete) <==> exists r :: r in All(d) && r.incomplete && how(r.id) != Completes
  {
    if r :| r in Load(d, how).layers && r.incomplete {
      var was := FlagWasThere(d, how, r);
    }
    if was :| was in All(d) && was.incomplete && how(was.id) != Completes {
      var r := FlagStays(d, how, was);
    }
  }

  /** A second load finds something to repair exactly if the first left a flag. */
  lemma SecondLoadRepairsFlags(d: Disk, how: string -> Removal)
    requires Safe(d)
    ensures NeedsRepair(All(Load(d, how).disk)) <==> exists r :: r in Load(d, how).layers && r.incomplete
  {
    var o := Load(d, how);
    LoadIsSafe(d, how);
    LoadedNamesAreUnique(d, how);
    forall r
      ensures r in All(o.disk) <==> r in o.layers
    {
      AllHas(o.layers, o.disk, r);
    }
    AllIsDistinct(o.layers, o.disk);
    assert UniqueNames(All(o.disk));
    UniqueNamesResolveToThemselves(All(o.disk));
    RepairMeansFlag(All(o.disk));
  }

  /** After a load, names are unique; the flag is left exactly where a removal failed; and a second load repairs
      nothing exactly when no removal failed. */
  lemma LoadRepairs(d: Disk, how: string -> Removal)
    requires Safe(d)
    ensures UniqueNames(Load(d, how).layers)
    ensures forall r :: r in Load(d, how).layers && r.incomplete ==> how(r.id) != Completes
    ensures NeedsRepair(All(Load(d, how).disk)) <==> exists r :: r in All(d) && r.incomplete && how(r.id) != Completes
  {
    LoadedNamesAreUnique(d, how);
    forall r | r in Load(d, how).layers && r.incomplete
      ensures how(r.id) != Completes
    {
      LoadKeeps(d, how, r);
    }
    FlagsLeft(d, how);
    SecondLoadRepairsFlags(d, how);
  }

  lemma RepairMeansFlag(rs: seq<Record>)
    requires Resolve(rs) == rs
    ensures NeedsRepair(rs) <==> exists r :: r in rs && r.incomplete
  {
    if r :| r in rs && r.incomplete {
      var i :| 0 <= i < |rs| && rs[i] == r;
      assert rs[i].loc in Modified(rs);
    }
    if loc :| loc in Modified(rs) {
      var i :| 0 <= i < |rs| && rs[i].loc == loc && (rs[i].incomplete || Resolve(rs)[i] != rs[i]);
      assert rs[i] in rs;
    }
  }
}
