/** Mount reference counts of layers (storage/layers.go). */
module Mounts {
  import opened Common

  datatype MountState = At(point: string, count: int)

  const UNMOUNTED := At("", 0)

  /** An entry of mountpoints.json. */
  datatype Entry = Entry(id: string, point: string, count: int)

  datatype Status = Ok | LayerUnknown | LayerNotMounted | DriverFailed

  predicate IsSaved(m: MountState) {
    m.point != "" && m.count > 0
  }

  // ---- The file

  /** What saving writes: the mounted layers in the order of the layer list. */
  function SavedForm(layers: seq<string>, mounts: map<string, MountState>): seq<Entry>
    requires forall id :: id in layers ==> id in mounts
  {
    if layers == [] then []
    else
      var last := layers[|layers| - 1];
      assert forall id :: id in layers[..|layers| - 1] ==> id in layers;
      SavedForm(layers[..|layers| - 1], mounts) +
      if IsSaved(mounts[last]) then [Entry(last, mounts[last].point, mounts[last].count)] else []
  }

  /** What loading makes of a file. */
  function LoadedMounts(ids: set<string>, file: seq<Entry>): (r: map<string, MountState>)
    ensures r.Keys == ids
  {
    if file == [] then map id | id in ids :: UNMOUNTED
    else
      var rest, e := LoadedMounts(ids, file[..|file| - 1]), file[|file| - 1];
      if e.point != "" && e.id in ids then rest[e.id := At(e.point, e.count)] else rest
  }

  function LoadedIndex(ids: set<string>, file: seq<Entry>): map<string, string> {
    if file == [] then map[]
    else
      var rest, e := LoadedIndex(ids, file[..|file| - 1]), file[|file| - 1];
      if e.point != "" && e.id in ids then rest[e.point := e.id] else rest
  }

  /** Each layer and each mount point is listed once, mounted. */
  ghost predicate Tidy(file: seq<Entry>) {
    && (forall i :: 0 <= i < |file| ==> file[i].point != "" && file[i].count > 0)
    && (forall i, j :: 0 <= i < j < |file| ==> file[i].id != file[j].id && file[i].point != file[j].point)
  }

  /** A count is positive exactly if the layer has a mount point, and then the index leads from there to the layer. */
  ghost predicate Agree(mounts: map<string, MountState>, bymount: map<string, string>) {
    && (forall id :: id in mounts ==> mounts[id].count >= 0 && (mounts[id].count > 0 <==> mounts[id].point != ""))
    && (forall id, p :: MountedAt(mounts, id, p) <==> p in bymount && bymount[p] == id)
  }

  ghost predicate MountedAt(mounts: map<string, MountState>, id: string, p: string) {
    id in mounts && p != "" && mounts[id].point == p
  }

  ghost predicate HasEntry(file: seq<Entry>, id: string, m: MountState) {
    Entry(id, m.point, m.count) in file
  }

  lemma {:induction false} LoadedIsListed(ids: set<string>, file: seq<Entry>, id: string)
    requires Tidy(file) && id in ids
    ensures var m := LoadedMounts(ids, file)[id];
      if m == UNMOUNTED then forall e :: e in file ==> e.id != id else HasEntry(file, id, m)
  {
    if file != [] {
      var n := |file| - 1;
      var last := file[n];
      LoadedIsListed(ids, file[..n], id);
      assert file == file[..n] + [last];
      assert last.point != "" && last in file;
      if last.id == id {
        assert LoadedMounts(ids, file)[id] == At(last.point, last.count);
      } else {
        assert LoadedMounts(ids, file)[id] == LoadedMounts(ids, file[..n])[id];
      }
    }
  }

  lemma {:induction false} ListedIsLoaded(ids: set<string>, file: seq<Entry>, id: string, m: MountState)
    requires Tidy(file) && id in ids && HasEntry(file, id, m)
    ensures LoadedMounts(ids, file)[id] == m
  {
    var n := |file| - 1;
    assert file == file[..n] + [file[n]];
    if file[n] != Entry(id, m.point, m.count) {
      assert HasEntry(file[..n], id, m);
      ListedIsLoaded(ids, file[..n], id, m);
    }
  }

  ghost predicate ListsAt(file: seq<Entry>, id: string, p: string) {
    exists e :: e in file && e.id == id && e.point == p
  }

  lemma ListsOneMore(file: seq<Entry>, id: string, p: string)
    requires file != []
    ensures ListsAt(file, id, p) <==>
      ListsAt(file[..|file| - 1], id, p) || (file[|file| - 1].id == id && file[|file| - 1].point == p)
  {
    assert file == file[..|file| - 1] + [file[|file| - 1]];
  }

  lemma {:induction false} IndexIsListed(ids: set<string>, file: seq<Entry>, p: string, id: string)
    requires Tidy(file)
    ensures p in LoadedIndex(ids, file) && LoadedIndex(ids, file)[p] == id <==> id in ids && ListsAt(file, id, p)
  {
    if file != [] {
      var n := |file| - 1;
      IndexIsListed(ids, file[..n], p, id);
      ListsOneMore(file, id, p);
      if file[n].point == p {
        assert !ListsAt(file[..n], id, p);
      }
    }
  }

  lemma MountedIsListed(ids: set<string>, file: seq<Entry>, p: string, id: string)
    requires Tidy(file)
    ensures MountedAt(LoadedMounts(ids, file), id, p) <==> id in ids && ListsAt(file, id, p)
  {
    if id in ids {
      LoadedIsListed(ids, file, id);
      var m := LoadedMounts(ids, file)[id];
      if m != UNMOUNTED && m.point == p {
        assert Entry(id, m.point, m.count) in file;
      }
      if e :| e in file && e.id == id && e.point == p {
        ListedIsLoaded(ids, file, id, At(e.point, e.count));
      }
    }
  }

  lemma TidyLoads(ids: set<string>, file: seq<Entry>)
    requires Tidy(file)
    ensures Agree(LoadedMounts(ids, file), LoadedIndex(ids, file))
  {
    var mounts, bymount := LoadedMounts(ids, file), LoadedIndex(ids, file);
    forall id | id in mounts
      ensures mounts[id].count >= 0 && (mounts[id].count > 0 <==> mounts[id].point != "")
    {
      LoadedIsListed(ids, file, id);
    }
    forall id, p
      ensures MountedAt(mounts, id, p) <==> p in bymount && bymount[p] == id
    {
      MountedIsListed(ids, file, p, id);
      IndexIsListed(ids, file, p, id);
    }
  }

  // ---- Saving and loading again

  /** No two mounted layers share a mount point. */
  ghost predicate Apart(mounts: map<string, MountState>) {
    forall a, b :: a in mounts && b in mounts && a != b && IsSaved(mounts[a]) && IsSaved(mounts[b]) ==> mounts[a].point != mounts[b].point
  }

  lemma {:induction false} SavedEntries(layers: seq<string>, mounts: map<string, MountState>, e: Entry)
    requires forall id :: id in layers ==> id in mounts
    ensures e in SavedForm(layers, mounts) <==> e.id in layers && mounts[e.id] == At(e.point, e.count) && IsSaved(mounts[e.id])
  {
    if layers != [] {
      var n := |layers| - 1;
      assert layers == layers[..n] + [layers[n]];
      SavedEntries(layers[..n], mounts, e);
    }
  }

  lemma {:induction false} SavedIsTidy(layers: seq<string>, mounts: map<string, MountState>)
    requires Distinct(layers) && (forall id :: id in layers ==> id in mounts) && Apart(mounts)
    ensures Tidy(SavedForm(layers, mounts))
  {
    if layers != [] {
      var n := |layers| - 1;
      assert layers == layers[..n] + [layers[n]];
      SavedIsTidy(layers[..n], mounts);
      var rest := SavedForm(layers[..n], mounts);
      forall e | e in rest
        ensures e.id in layers[..n] && e.id != layers[n] && mounts[e.id] == At(e.point, e.count) && IsSaved(mounts[e.id])
      {
        SavedEntries(layers[..n], mounts, e);
      }
      assert forall i :: 0 <= i < |rest| ==> rest[i] in rest;
    }
  }

  /** A layer is as it was, or unmounted if saving leaves it out. */
  function Normal(m: MountState): MountState {
    if IsSaved(m) then m else UNMOUNTED
  }

  function Normalized(mounts: map<string, MountState>): map<string, MountState> {
    map id | id in mounts :: Normal(mounts[id])
  }

  lemma SavedReloads(layers: seq<string>, mounts: map<string, MountState>)
    requires Distinct(layers) && mounts.Keys == Elements(layers) && Apart(mounts)
    ensures LoadedMounts(mounts.Keys, SavedForm(layers, mounts)) == Normalized(mounts)
  {
    var file := SavedForm(layers, mounts);
    SavedIsTidy(layers, mounts);
    forall id | id in mounts
      ensures LoadedMounts(mounts.Keys, file)[id] == Normal(mounts[id])
    {
      var m := LoadedMounts(mounts.Keys, file)[id];
      SavedEntries(layers, mounts, Entry(id, mounts[id].point, mounts[id].count));
      if IsSaved(mounts[id]) {
        ListedIsLoaded(mounts.Keys, file, id, mounts[id]);
      } else {
        LoadedIsListed(mounts.Keys, file, id);
        if m != UNMOUNTED {
          SavedEntries(layers, mounts, Entry(id, m.point, m.count));
        }
      }
    }
  }

  lemma AgreeIsApart(mounts: map<string, MountState>, bymount: map<string, string>)
    requires Agree(mounts, bymount)
    ensures Apart(mounts)
  {
    forall a, b | a in mounts && b in mounts && a != b && IsSaved(mounts[a]) && IsSaved(mounts[b])
      ensures mounts[a].point != mounts[b].point
    {
      assert MountedAt(mounts, a, mounts[a].point) && MountedAt(mounts, b, mounts[b].point);
    }
  }

  lemma AgreeIsNormal(mounts: map<string, MountState>, bymount: map<string, string>, id: string)
    requires Agree(mounts, bymount) && id in mounts
    ensures Normal(mounts[id]) == mounts[id]
  {
  }

  lemma UpdatedIsApart(mounts: map<string, MountState>, bymount: map<string, string>, id: string, m: MountState)
    requires Agree(mounts, bymount) && id in mounts
    requires IsSaved(m) ==> forall other :: other != id ==> !MountedAt(mounts, other, m.point)
    ensures Apart(mounts[id := m])
  {
    AgreeIsApart(mounts, bymount);
    forall x | x in mounts && x != id && IsSaved(mounts[x]) && IsSaved(m)
      ensures mounts[x].point != m.point
    {
      assert !MountedAt(mounts, x, m.point);
    }
  }

  lemma UpdatedIsNormal(mounts: map<string, MountState>, bymount: map<string, string>, id: string, m: MountState)
    requires Agree(mounts, bymount) && id in mounts
    ensures Normalized(mounts[id := m]) == mounts[id := Normal(m)]
  {
    forall x | x in mounts
      ensures Normal(mounts[x]) == mounts[x]
    {
      AgreeIsNormal(mounts, bymount, x);
    }
  }

  /** The layer with an ID, or else the one mounted at that path. */
  function Found(mounts: map<string, MountState>, bymount: map<string, string>, id: string): Option<string> {
    if id in mounts then Some(id) else if id in bymount then Some(bymount[id]) else None
  }

  /** How unmounting a layer in state `m` ends. */
  predicate Unmounted(m: MountState, force: bool, conditional: bool, released: bool, st: Status, stillMounted: bool) {
    if conditional && m.count == 0 then st == LayerNotMounted
    else if m.count > 1 && !force then st == Ok && stillMounted
    else if released then st == Ok && !stillMounted
    else st == DriverFailed
  }

  function AfterUnmount(m: MountState, force: bool, st: Status): MountState {
    if st == DriverFailed then At(m.point, if force then 1 else m.count)
    else if m.count > 1 && !force then At(m.point, m.count - 1)
    else UNMOUNTED
  }

  /** What a successful unmount means: the last one, and any that is forced, leaves nothing; another one leaves one less. */
  ghost predicate OneLess(before: map<string, MountState>, after: map<string, MountState>, layer: string, force: bool, stillMounted: bool) {
    && layer in before && after.Keys == before.Keys && (forall x :: x in before && x != layer ==> after[x] == before[x])
    && (stillMounted <==> !force && before[layer].count > 1)
    && (if stillMounted then after[layer].count == before[layer].count - 1 && after[layer].point == before[layer].point
        else after[layer].count == 0 && after[layer].point == "")
  }

  function AfterMount(m: MountState, inKernel: bool, point: string): MountState {
    At(if m.count > 0 && inKernel then m.point else point, m.count + 1)
  }

  /** An unmount undoes a mount; a mount point that was lost and found again is the only thing that may differ. */
  lemma UnmountUndoesMount(m: MountState, inKernel: bool, point: string)
    requires Normal(m) == m && m.count >= 0
    ensures var back := AfterUnmount(AfterMount(m, inKernel, point), false, Ok);
      back.count == m.count && (m.count == 0 || inKernel ==> back == m) && (m.count > 0 && !inKernel ==> back.point == point)
  {
  }

  /** `id` has been unmounted `n` times since the counts were `before`. */
  ghost predicate Undone(before: map<string, MountState>, after: map<string, MountState>, id: string, n: nat) {
    && id in before && n <= before[id].count
    && after == before[id := if n < before[id].count then At(before[id].point, before[id].count - n) else UNMOUNTED]
  }

  lemma NoneUndone(mounts: map<string, MountState>, bymount: map<string, string>, id: string)
    requires Agree(mounts, bymount) && id in mounts
    ensures Undone(mounts, mounts, id, 0)
  {
  }

  lemma UndoneOneMore(before: map<string, MountState>, after: map<string, MountState>, id: string, n: nat)
    requires Undone(before, after, id, n)
    ensures id in after && after[id].count == before[id].count - n
    ensures n < before[id].count ==>
      Undone(before, after[id := if after[id].count > 1 then At(after[id].point, after[id].count - 1) else UNMOUNTED], id, n + 1)
  {
  }

  class MountStore {
    const layers: seq<string>
    var mounts: map<string, MountState>
    var bymount: map<string, string>
    var file: seq<Entry>

    /** Memory is what the file says, the file is in order, and counts, mount points and index agree. */
    ghost predicate Valid()
      reads this
    {
      && Distinct(layers) && mounts.Keys == Elements(layers) && Tidy(file)
      && mounts == LoadedMounts(mounts.Keys, file) && bymount == LoadedIndex(mounts.Keys, file)
      && Agree(mounts, bymount)
    }

    method LoadMounts()
      requires mounts.Keys == Elements(layers)
      modifies this`mounts, this`bymount
      ensures mounts == LoadedMounts(Elements(layers), file) && bymount == LoadedIndex(Elements(layers), file)
    {
      var all := mounts.Keys;
      for k := 0 to |layers|
        invariant mounts.Keys == all
        invariant forall i :: 0 <= i < k ==> layers[i] in mounts && mounts[layers[i]] == UNMOUNTED
      {
        mounts := mounts[layers[k] := UNMOUNTED];
      }
      bymount := map[];
      assert mounts == LoadedMounts(all, file[..0]);
      for k := 0 to |file|
        invariant mounts == LoadedMounts(all, file[..k]) && bymount == LoadedIndex(all, file[..k])
      {
        assert file[..k + 1][..k] == file[..k];
        var e := file[k];
        if e.point != "" && e.id in mounts {
          bymount := bymount[e.point := e.id];
          mounts := mounts[e.id := At(e.point, e.count)];
        }
      }
      assert file[..|file|] == file;
    }

    /** Saves the counts and loads them again, which forgets layers that are no longer mounted. */
    method SaveMounts()
      requires Distinct(layers) && mounts.Keys == Elements(layers) && Apart(mounts)
      modifies this
      ensures Valid() && mounts == Normalized(old(mounts))
    {
      var saved: seq<Entry> := [];
      for k := 0 to |layers|
        invariant saved == SavedForm(layers[..k], mounts)
      {
        assert layers[..k + 1][..k] == layers[..k];
        var m := mounts[layers[k]];
        if m.point != "" && m.count > 0 {
          saved := saved + [Entry(layers[k], m.point, m.count)];
        }
      }
      assert layers[..|layers|] == layers;
      file := saved;
      SavedReloads(layers, mounts);
      SavedIsTidy(layers, mounts);
      TidyLoads(mounts.Keys, file);
      LoadMounts();
    }

    /** What the file says, whoever wrote it. */
    ghost function View(): map<string, MountState>
      reads this
    {
      LoadedMounts(Elements(layers), file)
    }

    /** Memory is up to date, or `changed` says that another process has replaced the file. */
    ghost predicate Ready(changed: bool)
      reads this
    {
      Distinct(layers) && mounts.Keys == Elements(layers) && Tidy(file) && (!changed ==> Valid())
    }

    method ReloadMountsIfChanged(changed: bool)
      requires Ready(changed)
      modifies this`mounts, this`bymount
      ensures Valid() && mounts == View() == old(View())
    {
      if changed {
        LoadMounts();
        TidyLoads(mounts.Keys, file);
      }
    }

    /** Replaces the count of one layer and saves. */
    method Update(id: string, m: MountState)
      requires Distinct(layers) && mounts.Keys == Elements(layers) && Agree(mounts, bymount) && id in mounts
      requires IsSaved(m) ==> forall other :: other != id ==> !MountedAt(mounts, other, m.point)
      modifies this
      ensures Valid() && mounts == old(mounts)[id := Normal(m)]
    {
      UpdatedIsApart(mounts, bymount, id, m);
      UpdatedIsNormal(mounts, bymount, id, m);
      mounts := mounts[id := m];
      SaveMounts();
    }

    /** `inKernel` is whether the mount point is still mounted; `point` is what the driver answers, "" if it fails. */
    method Mount(id: string, changed: bool, inKernel: bool, point: string) returns (st: Status)
      requires Ready(changed) && forall other :: other != id ==> !MountedAt(View(), other, point)
      modifies this
      ensures Valid()
      ensures st == LayerUnknown <==> id !in layers
      ensures st != Ok ==> mounts == old(View()) && file == old(file)
      ensures id in layers ==> var m := old(View())[id];
        && (st == Ok <==> (m.count > 0 && inKernel) || point != "")
        && (st == Ok ==> mounts == old(View())[id := AfterMount(m, inKernel, point)])
        && (st == Ok ==> mounts[id].count == m.count + 1 && mounts[id].point == if m.count > 0 && inKernel then m.point else point)
    {
      ReloadMountsIfChanged(changed);
      if id !in mounts {
        return LayerUnknown;
      }
      var m := mounts[id];
      if m.count > 0 && inKernel {
        assert forall other :: other != id ==> !MountedAt(mounts, other, m.point) by {
          assert MountedAt(mounts, id, m.point);
        }
        Update(id, At(m.point, m.count + 1));
        return Ok;
      }
      if point == "" {
        return DriverFailed;
      }
      Update(id, At(point, m.count + 1));
      st := Ok;
    }

    /** Undoes one mount, or all of them; `released` is what the driver says when the last one goes. */
    method Unmount(id: string, changed: bool, force: bool, conditional: bool, released: bool) returns (st: Status, stillMounted: bool)
      requires Ready(changed)
      modifies this
      ensures st == LayerUnknown <==> Found(old(View()), LoadedIndex(Elements(layers), old(file)), id) == None
      ensures st != LayerUnknown ==> var layer := Found(old(View()), LoadedIndex(Elements(layers), old(file)), id).value;
        layer in old(View()) && Unmounted(old(View())[layer], force, conditional, released, st, stillMounted)
      ensures st == Ok || st == DriverFailed ==> var layer := Found(old(View()), LoadedIndex(Elements(layers), old(file)), id).value;
        mounts == old(View())[layer := AfterUnmount(old(View())[layer], force, st)]
      ensures st == Ok ==> var layer := Found(old(View()), LoadedIndex(Elements(layers), old(file)), id).value;
        OneLess(old(View()), mounts, layer, force, stillMounted)
      ensures st == DriverFailed ==> var layer := Found(old(View()), LoadedIndex(Elements(layers), old(file)), id).value;
        Valid() <==> !force || old(View())[layer].count == 1
      ensures st != DriverFailed ==> Valid()
      ensures st != Ok ==> file == old(file)
      ensures st == LayerUnknown || st == LayerNotMounted ==> mounts == old(View())
    {
      stillMounted := false;
      ReloadMountsIfChanged(changed);
      var layer := id;
      if id !in mounts {
        if id !in bymount {
          return LayerUnknown, false;
        }
        layer := bymount[id];
        assert MountedAt(mounts, layer, id);
      }
      st, stillMounted := UnmountLayer(layer, force, conditional, released);
    }

    method UnmountLayer(layer: string, force: bool, conditional: bool, released: bool) returns (st: Status, stillMounted: bool)
      requires Valid() && layer in mounts
      modifies this
      ensures Unmounted(old(mounts)[layer], force, conditional, released, st, stillMounted)
      ensures st == Ok || st == DriverFailed ==> mounts == old(mounts)[layer := AfterUnmount(old(mounts)[layer], force, st)]
      ensures st == Ok ==> OneLess(old(mounts), mounts, layer, force, stillMounted)
      ensures if st == DriverFailed then Valid() <==> !force || old(mounts)[layer].count == 1 else Valid()
      ensures st != Ok ==> file == old(file)
      ensures st == LayerNotMounted ==> mounts == old(mounts)
    {
      var m := mounts[layer];
      assert forall other :: other != layer && m.point != "" ==> !MountedAt(mounts, other, m.point) by {
        assert m.point != "" ==> MountedAt(mounts, layer, m.point);
      }
      if conditional && m.count == 0 {
        return LayerNotMounted, false;
      }
      var count := if force then 1 else m.count;
      if count > 1 {
        Update(layer, At(m.point, count - 1));
        return Ok, true;
      }
      if !released {
        mounts := mounts[layer := At(m.point, count)];
        assert count == m.count ==> mounts == old(mounts);
        assert count != m.count ==> mounts[layer] != View()[layer];
        return DriverFailed, true;
      }
      Update(layer, At("", count - 1));
      return Ok, false;
    }

    /** One round of the loop that deleting a layer starts with. */
    method UnmountOnce(id: string, released: bool) returns (st: Status)
      requires Valid() && id in layers
      modifies this
      ensures Valid() && (st == Ok || st == LayerNotMounted || st == DriverFailed)
      ensures var m := old(mounts)[id];
        && (st == LayerNotMounted <==> m.count == 0)
        && (st == DriverFailed <==> m.count == 1 && !released)
        && mounts == if st == Ok then old(mounts)[id := if m.count > 1 then At(m.point, m.count - 1) else UNMOUNTED] else old(mounts)
    {
      var still;
      st, still := Unmount(id, false, false, true, released);
      assert st == DriverFailed ==> mounts == old(mounts);
    }

    /** The loop that deleting a layer starts with: it ends after exactly as many rounds as the layer is mounted. */
    method UnmountAll(id: string, released: bool) returns (st: Status, rounds: nat)
      requires Valid() && id in layers
      modifies this
      ensures Valid() && (st == Ok || st == DriverFailed)
      ensures st == Ok ==> rounds == old(mounts)[id].count && mounts == old(mounts)[id := UNMOUNTED]
      ensures st == DriverFailed <==> old(mounts)[id].count > 0 && !released
    {
      rounds := 0;
      ghost var before := mounts;
      NoneUndone(mounts, bymount, id);
      while true
        invariant Valid() && Undone(before, mounts, id, rounds)
        invariant rounds > 0 && rounds == before[id].count ==> released
        decreases before[id].count - rounds
      {
        UndoneOneMore(before, mounts, id, rounds);
        st := UnmountOnce(id, released);
        if st == LayerNotMounted {
          return Ok, rounds;
        }
        if st != Ok {
          return;
        }
        rounds := rounds + 1;
      }
    }
  }
}
