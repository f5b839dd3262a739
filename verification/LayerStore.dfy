/** The layer store of one process, over the files and the driver it shares with others (storage/layers.go). */
module LayerStore {
  import opened Common
  import opened LayerRecords
  import opened LayerTraces
  import LT = LayerTraces
  import LE = LayerEffects
  import LL = LayerLoad
  import NC = NameClaims

  datatype Status = Ok | DuplicateID | DuplicateName | LayerUnknown | Failed | TryLockedForWriting

  /** `ids` lists the records of `byid`, each once. */
  ghost predicate Lists(ids: seq<string>, byid: map<string, Record>) {
    && Distinct(ids)
    && (forall id :: id in byid <==> id in ids)
    && (forall id :: id in byid ==> byid[id].id == id)
  }

  ghost function Records(ids: seq<string>, byid: map<string, Record>): (ls: seq<Record>)
    requires Lists(ids, byid)
    ensures DistinctIds(ls)
  {
    seq(|ids|, i requires 0 <= i < |ids| => byid[ids[i]])
  }

  ghost predicate Named(byid: map<string, Record>, id: string, n: string) {
    id in byid && n in byid[id].names
  }

  /** The name index agrees with the records, so no name belongs to two layers. */
  ghost predicate Names(byname: map<string, string>, byid: map<string, Record>) {
    forall id, n :: Named(byid, id, n) <==> NC.Leads(byname, n, id)
  }

  lemma RegisteredNames(byname: map<string, string>, byid: map<string, Record>, r: Record)
    requires Names(byname, byid) && r.id !in byid && forall n :: n in r.names ==> n !in byname
    ensures Names(byname + NC.NamesFor(r.names, r.id), byid[r.id := r])
  {
    var index, records := byname + NC.NamesFor(r.names, r.id), byid[r.id := r];
    forall id, n
      ensures Named(records, id, n) <==> NC.Leads(index, n, id)
    {
      assert Named(byid, id, n) <==> NC.Leads(byname, n, id);
    }
  }

  lemma ForgottenNames(byname: map<string, string>, byid: map<string, Record>, id: string)
    requires Names(byname, byid) && id in byid
    ensures Names(byname - Elements(byid[id].names), byid - {id})
  {
    var left, rest := byname - Elements(byid[id].names), byid - {id};
    forall x, n
      ensures Named(rest, x, n) <==> NC.Leads(left, n, x)
    {
      assert Named(byid, x, n) <==> NC.Leads(byname, n, x);
      assert Named(byid, id, n) <==> NC.Leads(byname, n, id);
    }
  }

  lemma SameNames(byname: map<string, string>, byid: map<string, Record>, r: Record)
    requires Names(byname, byid) && r.id in byid && r.names == byid[r.id].names
    ensures Names(byname, byid[r.id := r])
  {
    forall id, n
      ensures Named(byid[r.id := r], id, n) <==> NC.Leads(byname, n, id)
    {
      assert Named(byid, id, n) <==> NC.Leads(byname, n, id);
    }
  }

  lemma {:induction false} IncompleteIsDistinct(ls: seq<Record>)
    requires DistinctIds(ls)
    ensures Distinct(LL.Incomplete(ls))
  {
    if ls != [] {
      var rest := ls[..|ls| - 1];
      IncompleteIsDistinct(rest);
      forall id | id in LL.Incomplete(rest)
        ensures id != ls[|ls| - 1].id
      {
        LL.IncompleteHas(rest, id);
      }
      var inc := LL.Incomplete(rest);
      assert forall i :: 0 <= i < |inc| ==> inc[i] in inc;
    }
  }

  /** A flagged layer stays listed until its turn comes. */
  lemma StillListed(ls: seq<Record>, todo: seq<string>, k: nat, how: string -> Removal) returns (r: Record)
    requires DistinctIds(ls) && todo == LL.Incomplete(ls) && k < |todo|
    ensures r in Without(ls, LL.Gone(todo[..k], how)) && r.id == todo[k] && r.incomplete
  {
    IncompleteIsDistinct(ls);
    LL.IncompleteHas(ls, todo[k]);
    r :| r in ls && r.id == todo[k] && r.incomplete;
    assert todo[k] !in todo[..k];
    WithoutHas(ls, LL.Gone(todo[..k], how), r);
  }

  /** A layer that carries the flag is unlinked without another write. */
  lemma UnlinksFlagged(ls: seq<Record>, d: Disk, r: Record, how: Removal)
    requires DistinctIds(ls) && r in ls && r.incomplete
    ensures var (removal, gone) := Remove(d, r.id, how);
      Unlink(ls, d, r, how) == Outcome(removal, gone, if how == Completes then Without(ls, {r.id}) else ls)
  {
    FlagChangesNothing(ls, r);
  }

  lemma GoneNext(ls: seq<Record>, todo: seq<string>, k: nat, how: string -> Removal)
    requires k < |todo|
    ensures var before := Without(ls, LL.Gone(todo[..k], how));
      Without(ls, LL.Gone(todo[..k + 1], how)) == if how(todo[k]) == Completes then Without(before, {todo[k]}) else before
  {
    var gone := LL.Gone(todo[..k], how);
    assert todo[..k + 1] == todo[..k] + [todo[k]];
    if how(todo[k]) == Completes {
      assert LL.Gone(todo[..k + 1], how) == gone + {todo[k]};
      WithoutTwice(ls, gone, {todo[k]});
    } else {
      assert LL.Gone(todo[..k + 1], how) == gone;
    }
  }

  lemma CleansNext(todo: seq<string>, k: nat, d: Disk, how: string -> Removal)
    requires k < |todo|
    ensures var (before, d1) := LL.Clean(todo[..k], d, how);
      var (removal, d2) := Remove(d1, todo[k], how(todo[k]));
      LL.Clean(todo[..k + 1], d, how) == (before + removal, d2)
  {
    assert todo[..k + 1][..k] == todo[..k];
  }

  /** The first `k` layers of `todo` have been cleaned up, starting from the records `ls` and the disk `d`. */
  ghost predicate Cleaned(ls: seq<Record>, d: Disk, past: seq<Disk>, todo: seq<string>, k: nat, how: string -> Removal,
                          view: seq<Record>, disk: Disk, history: seq<Disk>)
    requires k <= |todo|
  {
    && view == Without(ls, LL.Gone(todo[..k], how))
    && disk == LL.Clean(todo[..k], d, how).1 && history == past + LL.Clean(todo[..k], d, how).0
  }

  lemma CleanedNext(ls: seq<Record>, d: Disk, past: seq<Disk>, todo: seq<string>, k: nat, how: string -> Removal,
                    view: seq<Record>, disk: Disk, history: seq<Disk>)
    requires k < |todo| && Cleaned(ls, d, past, todo, k, how, view, disk, history)
    ensures var (removal, gone) := Remove(disk, todo[k], how(todo[k]));
      Cleaned(ls, d, past, todo, k + 1, how, if how(todo[k]) == Completes then Without(view, {todo[k]}) else view, gone, history + removal)
  {
    GoneNext(ls, todo, k, how);
    CleansNext(todo, k, d, how);
    Regroup(past, LL.Clean(todo[..k], d, how).0, Remove(disk, todo[k], how(todo[k])).0);
  }

  /** The first `n` durable states of `trace` have been passed since `d`. */
  ghost predicate Passed(past: seq<Disk>, d: Disk, trace: seq<Disk>, n: nat, disk: Disk, history: seq<Disk>) {
    n <= |trace| && history == past + trace[..n] && disk == if n == 0 then d else trace[n - 1]
  }

  /** All of `a` and then the first `n` of `b`. */
  lemma PassedBoth(past: seq<Disk>, d: Disk, a: seq<Disk>, e: Disk, b: seq<Disk>, n: nat, disk: Disk, history: seq<Disk>)
    requires e == (if a == [] then d else a[|a| - 1]) && Passed(past + a, e, b, n, disk, history)
    ensures Passed(past, d, a + b, |a| + n, disk, history)
  {
    assert (a + b)[..|a| + n] == a + b[..n];
    Regroup(past, a, b[..n]);
  }

  /** Every one of these files can be written. */
  ghost predicate AllSave(locs: set<Loc>, saves: Loc -> bool) {
    forall loc :: loc in locs ==> saves(loc)
  }

  /** The clean-up of `todo` and as many writes of the files `locs` as worked, `written` durable states in all. */
  ghost predicate Repaired(past: seq<Disk>, d: Disk, todo: seq<string>, how: string -> Removal, ls: seq<Record>, locs: set<Loc>, all: bool,
                           written: nat, disk: Disk, history: seq<Disk>) {
    var (cleaning, d1) := LL.Clean(todo, d, how);
    var trace := cleaning + LL.SaveTrace(ls, d1, locs);
    Passed(past, d, trace, written, disk, history) && (all ==> written == |trace| && disk == LL.Saved(ls, d1, locs))
  }

  /** As many writes of the files `locs` as worked, `n` of them. */
  ghost predicate SavedFiles(past: seq<Disk>, d: Disk, ls: seq<Record>, locs: set<Loc>, all: bool, n: nat, disk: Disk, history: seq<Disk>) {
    && Passed(past, d, LL.SaveTrace(ls, d, locs), n, disk, history)
    && (all ==> n == |LL.SaveTrace(ls, d, locs)| && disk == LL.Saved(ls, d, locs))
  }

  lemma CleanedAndSaved(past: seq<Disk>, d: Disk, todo: seq<string>, how: string -> Removal, ls: seq<Record>, locs: set<Loc>, all: bool,
                        cleaned: seq<Disk>, d1: Disk, n: nat, disk: Disk, history: seq<Disk>) returns (written: nat)
    requires cleaned == past + LL.Clean(todo, d, how).0 && d1 == LL.Clean(todo, d, how).1
    requires SavedFiles(cleaned, d1, ls, locs, all, n, disk, history)
    ensures Repaired(past, d, todo, how, ls, locs, all, written, disk, history)
  {
    CleaningEndsWhereItEnds(todo, d, how);
    PassedBoth(past, d, LL.Clean(todo, d, how).0, d1, LL.SaveTrace(ls, d1, locs), n, disk, history);
    written := |LL.Clean(todo, d, how).0| + n;
  }

  lemma ListsOneMore(ids: seq<string>, byid: map<string, Record>, ls: seq<Record>, k: nat)
    requires DistinctIds(ls) && k < |ls| && Lists(ids, byid) && Records(ids, byid) == ls[..k]
    ensures var ids', byid' := ids + [ls[k].id], byid[ls[k].id := ls[k]];
      Lists(ids', byid') && Records(ids', byid') == ls[..k + 1]
  {
    forall i | 0 <= i < |ids|
      ensures ids[i] == ls[i].id && ids[i] != ls[k].id && byid[ids[i]] == ls[i]
    {
      assert Records(ids, byid)[i] == ls[i];
    }
    assert ls[k].id !in ids;
  }

  /** The last durable state of a clean-up is the one it ends with. */
  lemma {:induction false} CleaningEndsWhereItEnds(todo: seq<string>, d: Disk, how: string -> Removal)
    ensures var (trace, e) := LL.Clean(todo, d, how); e == if trace == [] then d else trace[|trace| - 1]
  {
    if todo != [] {
      CleaningEndsWhereItEnds(todo[..|todo| - 1], d, how);
    }
  }

  lemma RecordsHold(ids: seq<string>, byid: map<string, Record>, r: Record)
    requires Lists(ids, byid) && r in Records(ids, byid)
    ensures r.id in byid && byid[r.id] == r
  {
    var i :| 0 <= i < |ids| && Records(ids, byid)[i] == r;
  }

  ghost predicate AllComplete(todo: seq<string>, how: string -> Removal) {
    todo == [] || (how(todo[|todo| - 1]) == Completes && AllComplete(todo[..|todo| - 1], how))
  }

  lemma AllCompleteNext(todo: seq<string>, k: nat, how: string -> Removal)
    requires k < |todo|
    ensures AllComplete(todo[..k + 1], how) <==> how(todo[k]) == Completes && AllComplete(todo[..k], how)
  {
    assert todo[..k + 1][..k] == todo[..k];
  }

  lemma {:induction false} AllCompleteMeans(todo: seq<string>, how: string -> Removal)
    ensures AllComplete(todo, how) <==> forall id :: id in todo ==> how(id) == Completes
  {
    if todo != [] {
      AllCompleteMeans(todo[..|todo| - 1], how);
      assert todo == todo[..|todo| - 1] + [todo[|todo| - 1]];
    }
  }

  /** A load fails exactly when some flagged layer could not be deleted. */
  lemma CleanUpCompletes(rs: seq<Record>, how: string -> Removal)
    ensures AllComplete(LL.Incomplete(rs), how) <==> forall r :: r in rs && r.incomplete ==> how(r.id) == Completes
  {
    AllCompleteMeans(LL.Incomplete(rs), how);
    forall r | r in rs && r.incomplete
      ensures r.id in LL.Incomplete(rs)
    {
      LL.IncompleteHas(rs, r.id);
    }
    forall id | id in LL.Incomplete(rs)
      ensures exists r :: r in rs && r.incomplete && r.id == id
    {
      LL.IncompleteHas(rs, id);
    }
  }

  /** An index of names by position becomes one by ID. */
  lemma PlacedNames(ids: seq<string>, byid: map<string, Record>, ls: seq<Record>, names: map<string, nat>)
    requires Lists(ids, byid) && Records(ids, byid) == ls && NC.Placed(LL.NamesOf(ls), names)
    ensures Names(map n | n in names :: ls[names[n]].id, byid)
  {
    forall id, n
      ensures Named(byid, id, n) <==> n in names && ls[names[n]].id == id
    {
      if Named(byid, id, n) {
        var i :| 0 <= i < |ids| && ids[i] == id;
        assert ls[i] == byid[id] && n in LL.NamesOf(ls)[i];
      }
      if n in names && ls[names[n]].id == id {
        assert n in LL.NamesOf(ls)[names[n]] && ls[names[n]] == byid[ids[names[n]]];
      }
    }
  }

  lemma ResolvedKeepsIds(rs: seq<Record>)
    ensures LL.Incomplete(LL.Resolve(rs)) == LL.Incomplete(rs) && (DistinctIds(rs) ==> DistinctIds(LL.Resolve(rs)))
  {
    SameIncomplete(rs, LL.Resolve(rs));
  }

  /** The records with their names resolved, and the files of those that lost a name. */
  method ResolveRecords(rs: seq<Record>) returns (ls: seq<Record>, names: map<string, nat>, locs: set<Loc>)
    requires TidyNames(rs)
    ensures ls == LL.Resolve(rs) && NC.Placed(LL.NamesOf(ls), names)
    ensures locs == LocsOf(rs, NC.Changed(LL.NamesOf(rs), NC.Resolved(LL.NamesOf(rs))))
  {
    var ns, index, changed := NC.ResolveWhileReading(LL.NamesOf(rs));
    ls := seq(|rs|, i requires 0 <= i < |rs| && |ns| == |rs| => rs[i].(names := ns[i]));
    assert LL.NamesOf(ls) == ns;
    names, locs := index, LocsOf(rs, changed);
  }

  function LocsOf(rs: seq<Record>, positions: set<nat>): set<Loc>
    requires forall i :: i in positions ==> i < |rs|
  {
    set i | i in positions :: rs[i].loc
  }

  /** The files of the flagged records. */
  ghost function FlaggedFiles(rs: seq<Record>): set<Loc> {
    set i | 0 <= i < |rs| && rs[i].incomplete :: rs[i].loc
  }

  lemma ModifiedOneWay(rs: seq<Record>, loc: Loc)
    requires loc in LL.Modified(rs)
    ensures loc in LocsOf(rs, NC.Changed(LL.NamesOf(rs), NC.Resolved(LL.NamesOf(rs)))) || loc in FlaggedFiles(LL.Resolve(rs))
  {
    var ls, changed := LL.Resolve(rs), NC.Changed(LL.NamesOf(rs), NC.Resolved(LL.NamesOf(rs)));
    var i :| 0 <= i < |rs| && (rs[i].incomplete || ls[i] != rs[i]) && rs[i].loc == loc;
    assert ls[i].loc == loc && (ls[i] != rs[i] ==> i in changed);
  }

  lemma ModifiedOtherWay(rs: seq<Record>, loc: Loc)
    requires loc in LocsOf(rs, NC.Changed(LL.NamesOf(rs), NC.Resolved(LL.NamesOf(rs)))) || loc in FlaggedFiles(LL.Resolve(rs))
    ensures loc in LL.Modified(rs)
  {
    var ls, changed := LL.Resolve(rs), NC.Changed(LL.NamesOf(rs), NC.Resolved(LL.NamesOf(rs)));
    if loc in FlaggedFiles(ls) {
      var i :| 0 <= i < |ls| && ls[i].incomplete && ls[i].loc == loc;
      assert rs[i].loc == loc;
    } else {
      var i :| i in changed && rs[i].loc == loc;
      assert ls[i] != rs[i];
    }
  }

  /** The files to write are those of records that lost a name and those of flagged records. */
  lemma ModifiedFiles(rs: seq<Record>)
    ensures LL.Modified(rs) == LocsOf(rs, NC.Changed(LL.NamesOf(rs), NC.Resolved(LL.NamesOf(rs)))) + FlaggedFiles(LL.Resolve(rs))
  {
    forall loc | loc in LL.Modified(rs) {
      ModifiedOneWay(rs, loc);
    }
    forall loc | loc in LocsOf(rs, NC.Changed(LL.NamesOf(rs), NC.Resolved(LL.NamesOf(rs)))) + FlaggedFiles(LL.Resolve(rs)) {
      ModifiedOtherWay(rs, loc);
    }
  }

  lemma {:induction false} SameIncomplete(a: seq<Record>, b: seq<Record>)
    requires |a| == |b| && forall i :: 0 <= i < |a| ==> a[i].id == b[i].id && a[i].incomplete == b[i].incomplete
    ensures LL.Incomplete(a) == LL.Incomplete(b)
  {
    if a != [] {
      SameIncomplete(a[..|a| - 1], b[..|b| - 1]);
    }
  }

  /** The records whose ID did not occur before. */
  ghost function Firsts(rs: seq<Record>): seq<Record> {
    if rs == [] then []
    else
      var rest, last := rs[..|rs| - 1], rs[|rs| - 1];
      Firsts(rest) + if HasId(rest, last.id) then [] else [last]
  }

  /** Position `i` holds the first record with its ID. */
  ghost predicate FirstAt(rs: seq<Record>, i: nat) {
    i < |rs| && !HasId(rs[..i], rs[i].id)
  }

  lemma FirstAtEarlier(rs: seq<Record>, i: nat)
    requires i < |rs| - 1
    ensures rs[..|rs| - 1][i] == rs[i] && (FirstAt(rs, i) <==> FirstAt(rs[..|rs| - 1], i))
  {
    assert rs[..|rs| - 1][..i] == rs[..i];
  }

  lemma {:induction false} FirstsAreFirst(rs: seq<Record>, r: Record)
    ensures r in Firsts(rs) <==> exists i: nat :: FirstAt(rs, i) && rs[i] == r
  {
    if rs != [] {
      var n := |rs| - 1;
      var rest := rs[..n];
      FirstsAreFirst(rest, r);
      forall i: nat | i < n {
        FirstAtEarlier(rs, i);
      }
      assert FirstAt(rs, n) <==> !HasId(rest, rs[n].id);
    }
  }

  lemma HasOneMoreId(rs: seq<Record>, k: nat)
    requires k < |rs|
    ensures forall x :: HasId(rs[..k + 1], x) <==> HasId(rs[..k], x) || x == rs[k].id
  {
    var more, less := rs[..k + 1], rs[..k];
    forall x
      ensures HasId(more, x) <==> HasId(less, x) || x == rs[k].id
    {
      if HasId(less, x) {
        var i :| 0 <= i < k && less[i].id == x;
        assert more[i].id == x;
      }
      if HasId(more, x) {
        var i :| 0 <= i < |more| && more[i].id == x;
        assert i < k ==> less[i].id == x;
      }
      assert more[k].id == rs[k].id;
    }
  }

  lemma {:induction false} FirstsComeFrom(rs: seq<Record>, r: Record)
    requires r in Firsts(rs)
    ensures HasId(rs, r.id)
  {
    if rs != [] {
      HasOneMoreId(rs, |rs| - 1);
      assert rs[..|rs|] == rs;
      if r in Firsts(rs[..|rs| - 1]) {
        FirstsComeFrom(rs[..|rs| - 1], r);
      }
    }
  }

  lemma {:induction false} FirstsAreDistinct(rs: seq<Record>)
    ensures DistinctIds(Firsts(rs))
  {
    if rs != [] {
      var rest := rs[..|rs| - 1];
      FirstsAreDistinct(rest);
      forall i | 0 <= i < |Firsts(rest)|
        ensures HasId(rest, Firsts(rest)[i].id)
      {
        FirstsComeFrom(rest, Firsts(rest)[i]);
      }
    }
  }

  lemma {:induction false} FirstsOfDistinct(rs: seq<Record>)
    requires DistinctIds(rs)
    ensures Firsts(rs) == rs
  {
    if rs != [] {
      var rest, last := rs[..|rs| - 1], rs[|rs| - 1];
      assert rs == rest + [last] && !HasId(rest, last.id);
      FirstsOfDistinct(rest);
    }
  }

  /** `kept` are the first `k` of `ids` without `id`. */
  ghost predicate KeptFrom(ids: seq<string>, byid: map<string, Record>, id: string, k: nat, kept: seq<string>) {
    && Lists(ids, byid) && k <= |ids| && Distinct(kept) && (forall x :: x in kept <==> x in ids[..k] && x != id)
    && |kept| == |Without(Records(ids, byid)[..k], {id})|
    && forall i :: 0 <= i < |kept| ==> kept[i] in byid && byid[kept[i]] == Without(Records(ids, byid)[..k], {id})[i]
  }

  lemma WithoutNext(ls: seq<Record>, k: nat, id: string)
    requires k < |ls|
    ensures Without(ls[..k + 1], {id}) == Without(ls[..k], {id}) + if ls[k].id == id then [] else [ls[k]]
  {
    assert ls[..k + 1][..k] == ls[..k];
  }

  lemma KeepsOneMore(ids: seq<string>, byid: map<string, Record>, id: string, k: nat, kept: seq<string>)
    requires KeptFrom(ids, byid, id, k, kept) && k < |ids|
    ensures KeptFrom(ids, byid, id, k + 1, if ids[k] == id then kept else kept + [ids[k]])
  {
    WithoutNext(Records(ids, byid), k, id);
    assert ids[..k + 1] == ids[..k] + [ids[k]] && ids[k] !in ids[..k];
  }

  lemma KeptIsListed(ids: seq<string>, byid: map<string, Record>, id: string, kept: seq<string>)
    requires KeptFrom(ids, byid, id, |ids|, kept)
    ensures Lists(kept, byid - {id}) && Records(kept, byid - {id}) == Without(Records(ids, byid), {id})
  {
    assert ids[..|ids|] == ids && Records(ids, byid)[..|ids|] == Records(ids, byid);
  }

  lemma RecordIsListed(ids: seq<string>, byid: map<string, Record>, id: string)
    requires Lists(ids, byid) && id in byid
    ensures byid[id] in Records(ids, byid)
  {
    var i :| 0 <= i < |ids| && ids[i] == id;
    assert Records(ids, byid)[i] == byid[id];
  }

  lemma StrangerId(ids: seq<string>, byid: map<string, Record>, id: string)
    requires Lists(ids, byid) && id !in byid
    ensures !HasId(Records(ids, byid), id)
  {
    assert forall i :: 0 <= i < |ids| ==> Records(ids, byid)[i].id == ids[i];
  }

  lemma RecordsHas(ids: seq<string>, byid: map<string, Record>, r: Record)
    requires Lists(ids, byid)
    ensures r in Records(ids, byid) <==> r.id in byid && byid[r.id] == r
  {
    if r.id in byid && byid[r.id] == r {
      RecordIsListed(ids, byid, r.id);
    }
  }

  /** The index by ID holds what the list holds. */
  lemma SameIndex(ids: seq<string>, byid: map<string, Record>, index: map<string, Record>)
    requires Lists(ids, byid) && forall x :: x in index ==> index[x].id == x
    requires forall r :: r in Records(ids, byid) <==> r.id in index && index[r.id] == r
    ensures byid == index
  {
    forall x
      ensures x in byid <==> x in index
      ensures x in byid ==> byid[x] == index[x]
    {
      if x in byid {
        RecordsHas(ids, byid, byid[x]);
      }
      if x in index {
        RecordsHas(ids, byid, index[x]);
      }
    }
  }

  lemma OneMore(ids: seq<string>, byid: map<string, Record>, ids': seq<string>, byid': map<string, Record>, r: Record)
    requires Lists(ids, byid) && Lists(ids', byid') && Records(ids', byid') == Records(ids, byid) + [r] && r.id !in byid
    ensures byid' == byid[r.id := r]
  {
    forall t
      ensures t in Records(ids', byid') <==> t.id in byid[r.id := r] && byid[r.id := r][t.id] == t
    {
      RecordsHas(ids, byid, t);
    }
    SameIndex(ids', byid', byid[r.id := r]);
  }

  lemma OneLess(ids: seq<string>, byid: map<string, Record>, ids': seq<string>, byid': map<string, Record>, id: string)
    requires Lists(ids, byid) && Lists(ids', byid') && Records(ids', byid') == Without(Records(ids, byid), {id})
    ensures byid' == byid - {id}
  {
    forall t
      ensures t in Records(ids', byid') <==> t.id in byid - {id} && (byid - {id})[t.id] == t
    {
      RecordsHas(ids, byid, t);
      WithoutHas(Records(ids, byid), {id}, t);
    }
    SameIndex(ids', byid', byid - {id});
  }

  class LayerStore {
    /** IDs stand for the pointers of the original: every list and index refers to the one record in `byid`. */
    var layers: seq<string>
    var byid: map<string, Record>
    var byname: map<string, string>
    var disk: Disk
    /** The durable states passed through so far. */
    ghost var history: seq<Disk>

    ghost predicate Listed()
      reads this`layers, this`byid
    {
      Lists(layers, byid)
    }

    ghost predicate Valid()
      reads this`layers, this`byid, this`byname
    {
      Listed() && Names(byname, byid)
    }

    ghost function View(): (ls: seq<Record>)
      requires Listed()
      reads this`layers, this`byid
    {
      Records(layers, byid)
    }

    /** Writes one file of records, unless that fails. */
    method WriteFile(loc: Loc, saves: bool) returns (ok: bool)
      requires Listed()
      modifies this`disk, this`history
      ensures ok == saves
      ensures ok ==> disk == Save(View(), old(disk), loc) && history == old(history) + [disk]
      ensures !ok ==> disk == old(disk) && history == old(history)
    {
      if !saves {
        return false;
      }
      var subset := [];
      for k := 0 to |layers|
        invariant subset == OnLoc(View()[..k], loc)
      {
        assert View()[..k + 1][..k] == View()[..k];
        if byid[layers[k]].loc == loc {
          subset := subset + [byid[layers[k]]];
        }
      }
      assert View()[..|layers|] == View();
      disk := WithFile(disk, loc, subset);
      history := history + [disk];
      ok := true;
    }

    /** Writes the file `loc` if it is among `locs`. */
    method SaveOne(loc: Loc, locs: set<Loc>, saves: Loc -> bool) returns (ok: bool)
      requires Listed()
      modifies this`disk, this`history
      ensures ok <==> (loc in locs ==> saves(loc))
      ensures ok ==> disk == LL.SaveIf(View(), old(disk), locs, loc) && history == old(history) + if loc in locs then [disk] else []
      ensures !ok ==> disk == old(disk) && history == old(history)
    {
      ok := true;
      if loc in locs {
        ok := WriteFile(loc, saves(loc));
      }
    }

    /** Writes the files of `locs` in turn, until one cannot be written. */
    method SaveLayers(locs: set<Loc>, saves: Loc -> bool) returns (ok: bool, ghost written: nat)
      requires Listed()
      modifies this`disk, this`history
      ensures SavedFiles(old(history), old(disk), View(), locs, ok, written, disk, history)
      ensures ok <==> AllSave(locs, saves)
    {
      ghost var d, past, ls := disk, history, View();
      ghost var d1 := LL.SaveIf(ls, d, locs, Stable);
      ghost var d2 := LL.SaveIf(ls, d1, locs, ImageStore);
      ghost var d3 := LL.SaveIf(ls, d2, locs, Volatile);
      ghost var s1, s2, s3 := if Stable in locs then [d1] else [], if ImageStore in locs then [d2] else [], if Volatile in locs then [d3] else [];
      ghost var trace := LL.SaveTrace(ls, d, locs);
      assert trace == s1 + s2 + s3;
      written := 0;
      ok := SaveOne(Stable, locs, saves);
      if !ok {
        assert past + trace[..0] == past;
        return;
      }
      written := |s1|;
      assert trace[..written] == s1;
      ok := SaveOne(ImageStore, locs, saves);
      if !ok {
        return;
      }
      Regroup(past, s1, s2);
      written := |s1 + s2|;
      assert trace[..written] == s1 + s2;
      ok := SaveOne(Volatile, locs, saves);
      if !ok {
        return;
      }
      Regroup(past, s1 + s2, s3);
      written := |trace|;
      assert trace[..written] == trace;
      forall loc | loc in locs
        ensures saves(loc)
      {
        assert loc == Stable || loc == ImageStore || loc == Volatile;
      }
    }

    /** The driver takes the layer apart and forgets it, as far as `how` says. */
    method DriverRemove(id: string, how: Removal)
      modifies this`disk, this`history
      ensures disk == Remove(old(disk), id, how).1
      ensures history == old(history) + Remove(old(disk), id, how).0
    {
      ghost var d := disk;
      if id in disk.driver {
        disk := Driver(disk, id, false);
      }
      history := history + [disk];
      if how != DriverFails {
        disk := disk.(driver := disk.driver - {id});
        assert disk == d.(driver := d.driver - {id});
        history := history + [disk];
      }
    }

    /** Sets the flag of layer `id`, on disk too unless it is there already; if it cannot be saved it stays in memory. */
    method SetIncomplete(id: string, saves: bool) returns (ok: bool)
      requires Valid() && id in byid
      modifies this`byid, this`disk, this`history
      ensures Valid() && View() == Flag(old(View()), id) && byid.Keys == old(byid.Keys)
      ensures ok <==> old(byid)[id].incomplete || saves
      ensures var r := old(byid)[id];
        && disk == (if r.incomplete || !ok then old(disk) else Save(View(), old(disk), r.loc))
        && history == old(history) + if r.incomplete || !ok then [] else [disk]
    {
      var r := byid[id];
      SameNames(byname, byid, r.(incomplete := true));
      byid := byid[id := r.(incomplete := true)];
      assert View() == Flag(old(View()), id);
      ok := true;
      if !r.incomplete {
        ok := WriteFile(r.loc, saves);
      }
    }

    /** Takes layer `id` out of the list and the indexes. */
    method Forget(id: string)
      requires Valid() && id in byid
      modifies this`layers, this`byid, this`byname
      ensures Valid() && View() == Without(old(View()), {id})
    {
      ForgottenNames(byname, byid, id);
      ForgetNames(byid[id].names);
      Unlist(id);
    }

    /** What deleting layer `id` comes to, given which of its saves work. */
    ghost function Deleted(id: string, how: Removal, flagSaves: bool, lastSaves: bool): Outcome
      requires Listed() && id in byid
      reads this`layers, this`byid, this`disk
    {
      var r := byid[id];
      if !r.incomplete && !flagSaves then FlagUnsaved(View(), disk, r)
      else if how == Completes && !lastSaves then Unlink(View(), disk, r, how)
      else Delete(View(), disk, r, how)
    }

    method InternalDelete(id: string, how: Removal, saves: bool) returns (st: Status)
      requires Valid()
      modifies this
      ensures Valid()
      ensures st == LayerUnknown <==> id !in old(byid)
      ensures st == LayerUnknown ==> unchanged(this)
      ensures id in old(byid) ==>
        var r := old(byid)[id];
        var flagged := r.incomplete || saves;
        var o := if flagged then Unlink(old(View()), old(disk), r, how) else FlagUnsaved(old(View()), old(disk), r);
        && st == (if flagged && how == Completes then Ok else Failed)
        && View() == o.layers && disk == o.disk && history == old(history) + o.trace
    {
      if id !in byid {
        return LayerUnknown;
      }
      var ok := SetIncomplete(id, saves);
      if !ok {
        return Failed;
      }
      ghost var first, d := if old(byid)[id].incomplete then [] else [disk], disk;
      DriverRemove(id, how);
      Regroup(old(history), first, Remove(d, id, how).0);
      if how != Completes {
        return Failed;
      }
      Forget(id);
      st := Ok;
    }

    /** Takes names out of the name index. */
    method ForgetNames(names: seq<string>)
      modifies this`byname
      ensures byname == old(byname) - Elements(names)
    {
      for k := 0 to |names|
        invariant byname == old(byname) - Elements(names[..k])
      {
        assert Elements(names[..k + 1]) == Elements(names[..k]) + {names[k]};
        byname := byname - {names[k]};
      }
      assert names[..|names|] == names;
    }

    /** Takes layer `id` out of the list and the ID index. */
    method Unlist(id: string)
      requires Listed() && id in byid
      modifies this`layers, this`byid
      ensures Listed() && View() == Without(old(View()), {id})
      ensures byid == old(byid) - {id}
    {
      var kept := [];
      for k := 0 to |layers|
        invariant layers == old(layers) && byid == old(byid) && KeptFrom(layers, byid, id, k, kept)
      {
        KeepsOneMore(layers, byid, id, k, kept);
        if layers[k] != id {
          kept := kept + [layers[k]];
        }
      }
      KeptIsListed(layers, byid, id, kept);
      byid := byid - {id};
      layers := kept;
    }

    /** Deletes a layer and records that it is gone. */
    method DeferredDelete(id: string, how: Removal, flagSaves: bool, lastSaves: bool) returns (st: Status)
      requires Valid()
      modifies this
      ensures Valid()
      ensures st == LayerUnknown <==> id !in old(byid)
      ensures st == LayerUnknown ==> unchanged(this)
      ensures id in old(byid) ==>
        var o := old(Deleted(id, how, flagSaves, lastSaves));
        && (st == Ok <==> (old(byid)[id].incomplete || flagSaves) && how == Completes && lastSaves)
        && View() == o.layers && disk == o.disk && history == old(history) + o.trace
      ensures id in old(byid) ==>
        var removed := (old(byid)[id].incomplete || flagSaves) && how == Completes;
        LE.DeletedAs(old(View()), old(disk), old(byid)[id], removed, st == Ok, View(), disk)
      ensures st == Ok ==> byid == old(byid) - {id}
    {
      st := DeleteThrough(id, how, flagSaves, lastSaves);
      if st != LayerUnknown {
        RecordIsListed(old(layers), old(byid), id);
        LE.DeleteDoesIt(old(View()), old(disk), old(byid)[id], how);
      }
      if st == Ok {
        LE.DeletedLeaves(old(View()), old(disk), old(byid)[id]);
        OneLess(old(layers), old(byid), layers, byid, id);
      }
    }

    /** The deletion, write by write. */
    method DeleteThrough(id: string, how: Removal, flagSaves: bool, lastSaves: bool) returns (st: Status)
      requires Valid()
      modifies this
      ensures Valid()
      ensures st == LayerUnknown <==> id !in old(byid)
      ensures st == LayerUnknown ==> unchanged(this)
      ensures id in old(byid) ==>
        var o := old(Deleted(id, how, flagSaves, lastSaves));
        && (st == Ok <==> (old(byid)[id].incomplete || flagSaves) && how == Completes && lastSaves)
        && View() == o.layers && disk == o.disk && history == old(history) + o.trace
    {
      if id !in byid {
        return LayerUnknown;
      }
      var loc := byid[id].loc;
      st := InternalDelete(id, how, flagSaves);
      if st == Ok {
        var ok := WriteFile(loc, lastSaves);
        st := if ok then Ok else Failed;
      }
    }

    /** Adds `r`, which lists no name in use, to the list and the indexes. */
    method Register(r: Record)
      requires Valid() && r.id !in byid && forall n :: n in r.names ==> n !in byname
      modifies this`layers, this`byid, this`byname
      ensures Valid() && View() == old(View()) + [r] && byid == old(byid)[r.id := r] && layers == old(layers) + [r.id]
    {
      RegisteredNames(byname, byid, r);
      byid := byid[r.id := r];
      layers := layers + [r.id];
      assert View() == old(View()) + [r];
      IndexNames(r.names, r.id);
    }

    method IndexNames(names: seq<string>, id: string)
      modifies this`byname
      ensures byname == old(byname) + NC.NamesFor(names, id)
    {
      for k := 0 to |names|
        invariant byname == old(byname) + NC.NamesFor(names[..k], id)
      {
        NC.NamesForOneMore(old(byname), names, k, id);
        byname := byname[names[k] := id];
      }
      assert names[..|names|] == names;
    }

    lemma NamesAreListed(n: string)
      requires Valid()
      ensures n in byname <==> NC.Lists(LL.NamesOf(View()), n)
    {
      if n in byname {
        assert NC.Leads(byname, n, byname[n]) && Named(byid, byname[n], n);
        var i :| 0 <= i < |layers| && layers[i] == byname[n];
        assert n in LL.NamesOf(View())[i];
      }
      if NC.Lists(LL.NamesOf(View()), n) {
        var i :| 0 <= i < |layers| && n in LL.NamesOf(View())[i];
        assert Named(byid, layers[i], n);
      }
    }

    method SetDriver(id: string, finished: bool)
      modifies this`disk, this`history
      ensures disk == Driver(old(disk), id, finished) && history == old(history) + [disk]
    {
      disk := Driver(disk, id, finished);
      history := history + [disk];
    }

    /** The contents of layer `r` are in place: clears its flag and records that, unless that fails. */
    method Finish(r: Record, saves: bool, ghost ls: seq<Record>) returns (ok: bool)
      requires Valid() && !r.incomplete && r.id in byid && byid[r.id] == r.(incomplete := true)
      requires |layers| > 0 && layers[|layers| - 1] == r.id && View() == ls + [r.(incomplete := true)]
      modifies this`byid, this`disk, this`history
      ensures Valid() && View() == ls + [r] && r.id in byid && byid[r.id] == r && ok == saves
      ensures var filled := Driver(old(disk), r.id, true);
        if ok then disk == Save(ls + [r], filled, r.loc) && history == old(history) + [filled, disk]
        else disk == filled && history == old(history) + [filled]
    {
      SetDriver(r.id, true);
      assert forall i :: 0 <= i < |ls| ==> ls[i] == View()[i];
      SameNames(byname, byid, r);
      byid := byid[r.id := r];
      assert View() == ls + [r];
      ok := WriteFile(r.loc, saves);
    }

    /** Is the ID or one of the names taken? */
    method CheckIDOrNameConflict(id: string, names: seq<string>) returns (st: Status)
      requires Valid()
      ensures st == DuplicateID <==> id in byid
      ensures st == DuplicateName <==> id !in byid && LL.NameTaken(View(), names)
      ensures st == Ok || st == DuplicateID || st == DuplicateName
      ensures st == Ok ==> forall n :: n in names ==> n !in byname
    {
      if id in byid {
        return DuplicateID;
      }
      for k := 0 to |names|
        invariant forall n :: n in names[..k] ==> n !in byname && !NC.Lists(LL.NamesOf(View()), n)
      {
        NamesAreListed(names[k]);
        if names[k] in byname {
          return DuplicateName;
        }
      }
      assert names[..|names|] == names;
      st := Ok;
    }

    /** Puts the contents of the freshly recorded layer `r` in place, or deletes it again. */
    method Fill(r: Record, filling: Filling, how: Removal, ghost ls: seq<Record>) returns (st: Status)
      requires Valid() && !r.incomplete && r.id in byid && byid[r.id] == r.(incomplete := true)
      requires |layers| > 0 && layers[|layers| - 1] == r.id && View() == ls + [r.(incomplete := true)]
      modifies this
      ensures Valid() && st == if filling == Finishes then Ok else Failed
      ensures var o := LT.Fill(ls, old(disk), r, filling, how);
        View() == o.layers && disk == o.disk && history == old(history) + o.trace
    {
      if filling == DraftUnsaved || filling == CreateFails {
        var _ := DeleteThrough(r.id, how, true, true);
        return Failed;
      }
      SetDriver(r.id, false);
      if filling == ContentsFail {
        Regroup(old(history), [disk], LT.Delete(View(), disk, byid[r.id], how).trace);
        var _ := DeleteThrough(r.id, how, true, true);
        return Failed;
      }
      ghost var started := disk;
      var ok := Finish(r, filling == Finishes, ls);
      ghost var filled := Driver(started, r.id, true);
      if !ok {
        Regroup(old(history), [started], [filled]);
        assert [started] + [filled] == [started, filled];
        Regroup(old(history), [started, filled], LT.Delete(View(), disk, r, how).trace);
        var _ := DeleteThrough(r.id, how, true, true);
        return Failed;
      }
      Regroup(old(history), [started], [filled, disk]);
      assert [started] + [filled, disk] == [started, filled, disk];
      st := Ok;
    }

    /** The creation, write by write; `filling` says how far it gets, `how` how a clean-up goes. */
    method CreateThrough(r: Record, filling: Filling, how: Removal) returns (st: Status)
      requires Valid() && !r.incomplete
      modifies this
      ensures Valid()
      ensures st == DuplicateID <==> r.id in old(byid)
      ensures st == DuplicateName <==> r.id !in old(byid) && LL.NameTaken(old(View()), r.names)
      ensures st == DuplicateID || st == DuplicateName ==> unchanged(this)
      ensures st != DuplicateID && st != DuplicateName ==>
        var o := LT.Create(old(View()), old(disk), r, filling, how);
        && View() == o.layers && disk == o.disk && history == old(history) + o.trace
        && st == if filling == Finishes then Ok else Failed
    {
      st := CheckIDOrNameConflict(r.id, r.names);
      if st != Ok {
        return;
      }
      Register(r.(incomplete := true));
      var ok := WriteFile(r.loc, filling != DraftUnsaved);
      if ok {
        Regroup(old(history), [disk], LT.Fill(old(View()), disk, r, filling, how).trace);
      }
      st := Fill(r, filling, how, old(View()));
    }

    /** Creates the layer `r`; this goes as `filling` says, and a clean-up after a failure as `how`. */
    method Create(r: Record, filling: Filling, how: Removal) returns (st: Status)
      requires Valid() && !r.incomplete
      modifies this
      ensures Valid()
      ensures st == DuplicateID <==> r.id in old(byid)
      ensures st == DuplicateName <==> r.id !in old(byid) && LL.NameTaken(old(View()), r.names)
      ensures st == DuplicateID || st == DuplicateName ==> unchanged(this)
      ensures st != DuplicateID && st != DuplicateName ==>
        var o := LT.Create(old(View()), old(disk), r, filling, how);
        && View() == o.layers && disk == o.disk && history == old(history) + o.trace
        && st == if filling == Finishes then Ok else Failed
      ensures st == Ok || st == Failed ==> LE.CreatedAs(old(View()), old(disk), r, how, st == Ok, View(), disk)
      ensures st == Ok ==> byid == old(byid)[r.id := r]
    {
      st := CreateThrough(r, filling, how);
      if st == Ok || st == Failed {
        StrangerId(old(layers), old(byid), r.id);
        LE.CreateDoesIt(old(View()), old(disk), r, filling, how);
      }
      if st == Ok {
        OneMore(old(layers), old(byid), layers, byid, r);
      }
    }

    /** Reads the files one after the other; a record whose ID was seen before is skipped. */
    method ReadFiles() returns (rs: seq<Record>)
      ensures rs == Firsts(All(disk)) && DistinctIds(rs)
      ensures forall r :: r in rs <==> exists i: nat :: FirstAt(All(disk), i) && All(disk)[i] == r
      ensures DistinctIds(All(disk)) ==> rs == All(disk)
    {
      var data := disk.stable + disk.image + disk.volatile;
      var ids := {};
      rs := [];
      for k := 0 to |data|
        invariant rs == Firsts(data[..k])
        invariant forall x :: x in ids <==> HasId(data[..k], x)
      {
        assert data[..k + 1][..k] == data[..k];
        HasOneMoreId(data, k);
        if data[k].id !in ids {
          rs := rs + [data[k]];
          ids := ids + {data[k].id};
        }
      }
      assert data[..|data|] == data;
      FirstsAreDistinct(data);
      forall r
        ensures r in rs <==> exists i: nat :: FirstAt(data, i) && data[i] == r
      {
        FirstsAreFirst(data, r);
      }
      if DistinctIds(data) {
        FirstsOfDistinct(data);
      }
    }

    method InstallRecords(ls: seq<Record>)
      requires DistinctIds(ls)
      modifies this`layers, this`byid
      ensures Listed() && View() == ls
    {
      layers, byid := [], map[];
      for k := 0 to |ls|
        invariant Lists(layers, byid) && Records(layers, byid) == ls[..k]
      {
        ListsOneMore(layers, byid, ls, k);
        layers := layers + [ls[k].id];
        byid := byid[ls[k].id := ls[k]];
      }
      assert ls[..|ls|] == ls;
    }

    /** Makes `ls` the records of this process, with `names` as the name index by position. */
    method Install(ls: seq<Record>, names: map<string, nat>)
      requires DistinctIds(ls) && NC.Placed(LL.NamesOf(ls), names)
      modifies this`layers, this`byid, this`byname
      ensures Valid() && View() == ls
    {
      InstallRecords(ls);
      PlacedNames(layers, byid, ls, names);
      byname := map n | n in names :: ls[names[n]].id;
    }

    /** The flagged layers, in order, and the files their records are in. */
    method FlaggedLayers(ls: seq<Record>) returns (todo: seq<string>, locs: set<Loc>)
      ensures todo == LL.Incomplete(ls)
      ensures locs == FlaggedFiles(ls)
    {
      todo, locs := [], {};
      for k := 0 to |ls|
        invariant todo == LL.Incomplete(ls[..k])
        invariant locs == set i | 0 <= i < k && ls[i].incomplete :: ls[i].loc
      {
        assert ls[..k + 1][..k] == ls[..k];
        if ls[k].incomplete {
          todo := todo + [ls[k].id];
          locs := locs + {ls[k].loc};
        }
      }
      assert ls[..|ls|] == ls;
    }

    /** Deletes a layer that carries the flag. */
    method DeleteFlagged(id: string, how: Removal, ghost r: Record) returns (st: Status)
      requires Valid() && r in View() && r.id == id && r.incomplete
      modifies this
      ensures Valid() && st == if how == Completes then Ok else Failed
      ensures View() == if how == Completes then Without(old(View()), {id}) else old(View())
      ensures disk == Remove(old(disk), id, how).1 && history == old(history) + Remove(old(disk), id, how).0
    {
      RecordsHold(layers, byid, r);
      UnlinksFlagged(View(), disk, r, how);
      st := InternalDelete(id, how, true);
    }

    method DeleteNext(ghost ls: seq<Record>, ghost d: Disk, ghost past: seq<Disk>, todo: seq<string>, k: nat, how: string -> Removal)
      returns (st: Status)
      requires Valid() && DistinctIds(ls) && todo == LL.Incomplete(ls) && k < |todo|
      requires Cleaned(ls, d, past, todo, k, how, View(), disk, history)
      modifies this
      ensures Valid() && st == if how(todo[k]) == Completes then Ok else Failed
      ensures Cleaned(ls, d, past, todo, k + 1, how, View(), disk, history)
    {
      ghost var r := StillListed(ls, todo, k, how);
      CleanedNext(ls, d, past, todo, k, how, View(), disk, history);
      st := DeleteFlagged(todo[k], how(todo[k]), r);
    }

    /** Deletes the layers of `todo`, going on when one of them cannot be deleted. */
    method DeleteIncomplete(todo: seq<string>, how: string -> Removal) returns (allDone: bool)
      requires Valid() && todo == LL.Incomplete(View())
      modifies this
      ensures Valid() && View() == Without(old(View()), LL.Gone(todo, how))
      ensures disk == LL.Clean(todo, old(disk), how).1 && history == old(history) + LL.Clean(todo, old(disk), how).0
      ensures allDone <==> AllComplete(todo, how)
    {
      ghost var ls, d, past := View(), disk, history;
      allDone := true;
      WithoutNothing(ls);
      assert LL.Gone([], how) == {};
      for k := 0 to |todo|
        invariant Valid() && Cleaned(ls, d, past, todo, k, how, View(), disk, history)
        invariant allDone <==> AllComplete(todo[..k], how)
      {
        AllCompleteNext(todo, k, how);
        var st := DeleteNext(ls, d, past, todo, k, how);
        if st != Ok {
          allDone := false;
        }
      }
      assert todo[..|todo|] == todo;
    }

    /** Reads the records, repairing what needs repair when the store is locked for writing; saving the repairs may fail. */
    method Load(lockedForWriting: bool, how: string -> Removal, saves: Loc -> bool) returns (st: Status, ghost written: nat)
      requires DistinctIds(All(disk)) && TidyNames(All(disk))
      modifies this
      ensures st == TryLockedForWriting <==> LL.NeedsRepair(All(old(disk))) && !lockedForWriting
      ensures st == TryLockedForWriting ==> unchanged(this)
      ensures st != TryLockedForWriting ==>
        var o := LL.Load(old(disk), how);
        var saved := AllSave(LL.Modified(All(old(disk))), saves);
        && Valid() && View() == o.layers && Passed(old(history), old(disk), o.trace, written, disk, history)
        && (saved ==> written == |o.trace| && disk == o.disk)
        && (st == Ok <==> saved && forall r :: r in All(old(disk)) && r.incomplete ==> how(r.id) == Completes)
        && (st == Ok || st == Failed)
    {
      written := 0;
      ghost var rs := All(disk);
      var ls, names, todo, modified := ReadRecords();
      CleanUpCompletes(rs, how);
      if modified != {} && !lockedForWriting {
        return TryLockedForWriting, 0;
      }
      Install(ls, names);
      if modified == {} {
        LL.UnmodifiedIsUnchanged(rs);
        return Ok, 0;
      }
      st, written := Repair(todo, modified, how, saves);
    }

    /** The records on disk with their names resolved, the flagged ones among them, and the files that need to be written. */
    method ReadRecords() returns (ls: seq<Record>, names: map<string, nat>, todo: seq<string>, modified: set<Loc>)
      requires DistinctIds(All(disk)) && TidyNames(All(disk))
      ensures ls == LL.Resolve(All(disk)) && NC.Placed(LL.NamesOf(ls), names) && DistinctIds(ls)
      ensures todo == LL.Incomplete(All(disk)) == LL.Incomplete(ls) && modified == LL.Modified(All(disk))
    {
      var rs := ReadFiles();
      var changedOn, flaggedOn;
      ls, names, changedOn := ResolveRecords(rs);
      todo, flaggedOn := FlaggedLayers(ls);
      ModifiedFiles(rs);
      ResolvedKeepsIds(rs);
      modified := changedOn + flaggedOn;
    }

    /** Deletes what is flagged and writes the files that have changed. */
    method Repair(todo: seq<string>, locs: set<Loc>, how: string -> Removal, saves: Loc -> bool) returns (st: Status, ghost written: nat)
      requires Valid() && todo == LL.Incomplete(View())
      modifies this
      ensures Valid() && View() == Without(old(View()), LL.Gone(todo, how))
      ensures Repaired(old(history), old(disk), todo, how, View(), locs, AllSave(locs, saves), written, disk, history)
      ensures st == if AllSave(locs, saves) && AllComplete(todo, how) then Ok else Failed
    {
      ghost var d, past := disk, history;
      var allDone := DeleteIncomplete(todo, how);
      ghost var d1, cleaned := disk, history;
      var ok, n := SaveLayers(locs, saves);
      written := CleanedAndSaved(past, d, todo, how, View(), locs, ok, cleaned, d1, n, disk, history);
      st := if allDone && ok then Ok else Failed;
    }
  }
}
