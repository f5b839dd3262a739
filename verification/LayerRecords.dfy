/** What the layer store leaves on disk, write by write (storage/layers.go). */
module LayerRecords {
  import opened Common

  /** The three files layer records are kept in, in the order they are read. */
  datatype Loc = Stable | ImageStore | Volatile

  datatype Record = Record(id: string, names: seq<string>, parent: string, loc: Loc, incomplete: bool)

  /** Everything that survives a crash: the record files, and for every driver layer whether its contents are finished. */
  datatype Disk = Disk(stable: seq<Record>, image: seq<Record>, volatile: seq<Record>, driver: map<string, bool>)

  function File(d: Disk, loc: Loc): seq<Record> {
    match loc
    case Stable => d.stable
    case ImageStore => d.image
    case Volatile => d.volatile
  }

  function WithFile(d: Disk, loc: Loc, rs: seq<Record>): Disk {
    match loc
    case Stable => d.(stable := rs)
    case ImageStore => d.(image := rs)
    case Volatile => d.(volatile := rs)
  }

  /** All records, in the order they are read. */
  function All(d: Disk): seq<Record> {
    d.stable + d.image + d.volatile
  }

  // ---- Lists of records

  /** The records that belong in file `loc`. */
  function OnLoc(ls: seq<Record>, loc: Loc): seq<Record> {
    if ls == [] then []
    else
      var last := ls[|ls| - 1];
      OnLoc(ls[..|ls| - 1], loc) + if last.loc == loc then [last] else []
  }

  function Without(ls: seq<Record>, ids: set<string>): seq<Record> {
    if ls == [] then []
    else
      var last := ls[|ls| - 1];
      Without(ls[..|ls| - 1], ids) + if last.id in ids then [] else [last]
  }

  function Flag(ls: seq<Record>, id: string): seq<Record> {
    seq(|ls|, i requires 0 <= i < |ls| => if ls[i].id == id then ls[i].(incomplete := true) else ls[i])
  }

  ghost predicate DistinctIds(ls: seq<Record>) {
    forall i, j :: 0 <= i < j < |ls| ==> ls[i].id != ls[j].id
  }

  ghost predicate HasId(ls: seq<Record>, id: string) {
    exists i :: 0 <= i < |ls| && ls[i].id == id
  }

  lemma {:induction false} OnLocHas(ls: seq<Record>, loc: Loc, r: Record)
    ensures r in OnLoc(ls, loc) <==> r in ls && r.loc == loc
  {
    if ls != [] {
      OnLocHas(ls[..|ls| - 1], loc, r);
      assert ls == ls[..|ls| - 1] + [ls[|ls| - 1]];
    }
  }

  lemma {:induction false} WithoutHas(ls: seq<Record>, ids: set<string>, r: Record)
    ensures r in Without(ls, ids) <==> r in ls && r.id !in ids
  {
    if ls != [] {
      WithoutHas(ls[..|ls| - 1], ids, r);
      assert ls == ls[..|ls| - 1] + [ls[|ls| - 1]];
    }
  }

  lemma {:induction false} OnLocStaysDistinct(ls: seq<Record>, loc: Loc)
    requires DistinctIds(ls)
    ensures DistinctIds(OnLoc(ls, loc))
  {
    if ls != [] {
      var rest, last := ls[..|ls| - 1], ls[|ls| - 1];
      OnLocStaysDistinct(rest, loc);
      forall r | r in OnLoc(rest, loc)
        ensures r.id != last.id
      {
        OnLocHas(rest, loc, r);
      }
    }
  }

  lemma {:induction false} WithoutStaysDistinct(ls: seq<Record>, ids: set<string>)
    requires DistinctIds(ls)
    ensures DistinctIds(Without(ls, ids))
  {
    if ls != [] {
      var rest, last := ls[..|ls| - 1], ls[|ls| - 1];
      WithoutStaysDistinct(rest, ids);
      forall r | r in Without(rest, ids)
        ensures r.id != last.id
      {
        WithoutHas(rest, ids, r);
      }
    }
  }

  lemma {:induction false} OnLocConcat(a: seq<Record>, b: seq<Record>, loc: Loc)
    ensures OnLoc(a + b, loc) == OnLoc(a, loc) + OnLoc(b, loc)
    decreases |b|
  {
    if b == [] {
      assert a + b == a;
    } else {
      OnLocConcat(a, b[..|b| - 1], loc);
      assert (a + b)[..|a + b| - 1] == a + b[..|b| - 1];
    }
  }

  /** Taking records out and sorting them into files can be done in either order. */
  lemma {:induction false} OnLocOfWithout(ls: seq<Record>, ids: set<string>, loc: Loc)
    ensures OnLoc(Without(ls, ids), loc) == Without(OnLoc(ls, loc), ids)
  {
    if ls != [] {
      var rest, last := ls[..|ls| - 1], ls[|ls| - 1];
      OnLocOfWithout(rest, ids, loc);
      var kept := if last.id in ids then [] else [last];
      OnLocConcat(Without(rest, ids), kept, loc);
      var sorted := if last.loc == loc then [last] else [];
      WithoutConcat(OnLoc(rest, loc), sorted, ids);
    }
  }

  lemma {:induction false} WithoutConcat(a: seq<Record>, b: seq<Record>, ids: set<string>)
    ensures Without(a + b, ids) == Without(a, ids) + Without(b, ids)
    decreases |b|
  {
    if b == [] {
      assert a + b == a;
    } else {
      WithoutConcat(a, b[..|b| - 1], ids);
      assert (a + b)[..|a + b| - 1] == a + b[..|b| - 1];
    }
  }

  /** Only the ids that occur matter. */
  lemma {:induction false} WithoutAgrees(ls: seq<Record>, a: set<string>, b: set<string>)
    requires forall r :: r in ls ==> (r.id in a <==> r.id in b)
    ensures Without(ls, a) == Without(ls, b)
  {
    if ls != [] {
      WithoutAgrees(ls[..|ls| - 1], a, b);
    }
  }

  lemma {:induction false} WithoutNothing(ls: seq<Record>)
    ensures Without(ls, {}) == ls
  {
    if ls != [] {
      WithoutNothing(ls[..|ls| - 1]);
    }
  }

  lemma {:induction false} WithoutTwice(ls: seq<Record>, a: set<string>, b: set<string>)
    ensures Without(Without(ls, a), b) == Without(ls, a + b)
  {
    if ls != [] {
      var rest, last := ls[..|ls| - 1], ls[|ls| - 1];
      WithoutTwice(rest, a, b);
      WithoutConcat(Without(rest, a), if last.id in a then [] else [last], b);
    }
  }

  /** Changing records in place, without moving them between files, changes only the files they are in. */
  lemma {:induction false} OnLocAgrees(a: seq<Record>, b: seq<Record>, loc: Loc)
    requires |a| == |b| && forall i :: 0 <= i < |a| ==> a[i].loc == b[i].loc && (a[i].loc == loc ==> a[i] == b[i])
    ensures OnLoc(a, loc) == OnLoc(b, loc)
  {
    if a != [] {
      OnLocAgrees(a[..|a| - 1], b[..|b| - 1], loc);
    }
  }

  // ---- What must hold after every single write

  /** Records without the flag have finished contents, and every driver layer has a record. */
  ghost predicate Backed(ls: seq<Record>, driver: map<string, bool>) {
    && (forall r :: r in ls && !r.incomplete ==> r.id in driver && driver[r.id])
    && (forall id :: id in driver ==> HasId(ls, id))
  }

  /** The files hold exactly the records of `ls`. */
  ghost predicate Filed(ls: seq<Record>, d: Disk) {
    forall loc :: File(d, loc) == OnLoc(ls, loc)
  }

  /** No record lists a name twice. */
  ghost predicate TidyNames(ls: seq<Record>) {
    forall r :: r in ls ==> Distinct(r.names)
  }

  ghost predicate Reflects(ls: seq<Record>, d: Disk) {
    DistinctIds(ls) && TidyNames(ls) && Filed(ls, d) && Backed(ls, d.driver)
  }

  ghost predicate Safe(d: Disk) {
    Reflects(All(d), d)
  }

  lemma AllHas(ls: seq<Record>, d: Disk, r: Record)
    requires Filed(ls, d)
    ensures r in All(d) <==> r in ls
  {
    assert File(d, Stable) == OnLoc(ls, Stable);
    assert File(d, ImageStore) == OnLoc(ls, ImageStore);
    assert File(d, Volatile) == OnLoc(ls, Volatile);
    OnLocHas(ls, Stable, r);
    OnLocHas(ls, ImageStore, r);
    OnLocHas(ls, Volatile, r);
  }

  lemma FilesShareNoIds(ls: seq<Record>, a: Loc, b: Loc, r: Record, t: Record)
    requires DistinctIds(ls) && a != b && r in OnLoc(ls, a) && t in OnLoc(ls, b)
    ensures r.id != t.id
  {
    OnLocHas(ls, a, r);
    OnLocHas(ls, b, t);
  }

  lemma {:induction false} OnLocOfOther(ls: seq<Record>, a: Loc, b: Loc)
    ensures OnLoc(OnLoc(ls, a), b) == if a == b then OnLoc(ls, a) else []
  {
    if ls != [] {
      var rest, last := ls[..|ls| - 1], ls[|ls| - 1];
      OnLocOfOther(rest, a, b);
      OnLocConcat(OnLoc(rest, a), if last.loc == a then [last] else [], b);
    }
  }

  lemma AllIsFiled(ls: seq<Record>, d: Disk)
    requires Filed(ls, d)
    ensures Filed(All(d), d)
  {
    forall loc
      ensures File(d, loc) == OnLoc(All(d), loc)
    {
      assert File(d, Stable) == OnLoc(ls, Stable);
      assert File(d, ImageStore) == OnLoc(ls, ImageStore);
      assert File(d, Volatile) == OnLoc(ls, Volatile);
      OnLocConcat(d.stable + d.image, d.volatile, loc);
      OnLocConcat(d.stable, d.image, loc);
      OnLocOfOther(ls, Stable, loc);
      OnLocOfOther(ls, ImageStore, loc);
      OnLocOfOther(ls, Volatile, loc);
    }
  }

  lemma AllIsDistinct(ls: seq<Record>, d: Disk)
    requires Filed(ls, d) && DistinctIds(ls)
    ensures DistinctIds(All(d))
  {
    assert File(d, Stable) == OnLoc(ls, Stable);
    assert File(d, ImageStore) == OnLoc(ls, ImageStore);
    assert File(d, Volatile) == OnLoc(ls, Volatile);
    OnLocStaysDistinct(ls, Stable);
    OnLocStaysDistinct(ls, ImageStore);
    OnLocStaysDistinct(ls, Volatile);
    forall r, t | r in d.stable && t in d.image
      ensures r.id != t.id
    {
      FilesShareNoIds(ls, Stable, ImageStore, r, t);
    }
    forall r, t | r in d.stable + d.image && t in d.volatile
      ensures r.id != t.id
    {
      FilesShareNoIds(ls, if r in d.stable then Stable else ImageStore, Volatile, r, t);
    }
  }

  /** It does not matter in which order memory lists the records. */
  lemma ReflectsIsSafe(ls: seq<Record>, d: Disk)
    requires Reflects(ls, d)
    ensures Safe(d)
  {
    AllIsFiled(ls, d);
    AllIsDistinct(ls, d);
    forall r
      ensures r in All(d) <==> r in ls
    {
      AllHas(ls, d, r);
    }
    forall id | HasId(ls, id)
      ensures HasId(All(d), id)
    {
      var i :| 0 <= i < |ls| && ls[i].id == id;
      assert ls[i] in All(d);
    }
  }
}
