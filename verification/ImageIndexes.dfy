/** The indexes of the image store by ID, name and digest, as values, and what keeps them in agreement (storage/images.go). */
module ImageIndexes {
  import opened Common
  import opened NameClaims
  import opened Images

  /** `ids` lists the images of `byid`, each once. */
  ghost predicate ListsAll(ids: seq<string>, byid: map<string, Image>) {
    && Distinct(ids)
    && (forall id :: id in byid <==> id in ids)
    && (forall id :: id in byid ==> byid[id].id == id)
  }

  ghost predicate Named(byid: map<string, Image>, id: string, n: string) {
    id in byid && n in byid[id].names
  }

  /** The index leads from each name to the one image that has it, and has no other names. */
  ghost predicate NamesAgree(byname: map<string, string>, byid: map<string, Image>) {
    forall id, n :: Named(byid, id, n) <==> Leads(byname, n, id)
  }

  ghost predicate Found(bydigest: map<string, seq<string>>, d: string, id: string) {
    d in bydigest && id in bydigest[d]
  }

  /** Lists in the digest index are never empty and name an image once. */
  ghost predicate TidyLists(bydigest: map<string, seq<string>>) {
    forall d :: d in bydigest ==> bydigest[d] != [] && Distinct(bydigest[d])
  }

  ghost predicate DigestsAgree(bydigest: map<string, seq<string>>, byid: map<string, Image>) {
    && TidyLists(bydigest)
    && forall d, id :: Found(bydigest, d, id) <==> id in byid && d in byid[id].digests
  }

  /** The digest index agrees with the images, except that it may have lost sight of image `except`. */
  ghost predicate DigestsNearlyAgree(bydigest: map<string, seq<string>>, byid: map<string, Image>, except: string) {
    && TidyLists(bydigest)
    && (forall d, id :: Found(bydigest, d, id) ==> id in byid && d in byid[id].digests)
    && (forall d, id :: id in byid && d in byid[id].digests && id != except ==> Found(bydigest, d, id))
  }

  lemma AgreeMeansNearly(bydigest: map<string, seq<string>>, byid: map<string, Image>, except: string)
    requires DigestsAgree(bydigest, byid)
    ensures DigestsNearlyAgree(bydigest, byid, except)
  {
  }

  /** The maps hold the same images, except that the record of `id` may differ. */
  ghost predicate OnlyChanged(a: map<string, Image>, b: map<string, Image>, id: string) {
    id in a && id in b && b == a[id := b[id]]
  }

  lemma AddedThenChanged(a: map<string, Image>, b: map<string, Image>, c: map<string, Image>, image: Image)
    requires b == a[image.id := image] && OnlyChanged(b, c, image.id)
    ensures c == a[image.id := c[image.id]]
  {
  }

  lemma OnlyChangedTwice(a: map<string, Image>, b: map<string, Image>, c: map<string, Image>, id: string)
    requires OnlyChanged(a, b, id) && OnlyChanged(b, c, id)
    ensures OnlyChanged(a, c, id)
  {
  }

  function WithoutId(ids: seq<string>, id: string): (r: seq<string>)
    ensures forall x :: x in r <==> x in ids && x != id
  {
    if ids == [] then []
    else
      var last := ids[|ids| - 1];
      assert ids == ids[..|ids| - 1] + [last];
      WithoutId(ids[..|ids| - 1], id) + if last == id then [] else [last]
  }

  lemma {:induction false} WithoutIdStaysDistinct(ids: seq<string>, id: string)
    requires Distinct(ids)
    ensures Distinct(WithoutId(ids, id))
  {
    if ids != [] {
      var rest := ids[..|ids| - 1];
      WithoutIdStaysDistinct(rest, id);
      assert ids[|ids| - 1] !in rest;
      assert forall i :: 0 <= i < |WithoutId(rest, id)| ==> WithoutId(rest, id)[i] in WithoutId(rest, id);
    }
  }

  /** One occurrence of `id` is gone; the others keep their places. */
  ghost predicate OneGone(ids: seq<string>, ids': seq<string>, id: string) {
    exists i :: 0 <= i < |ids| && ids[i] == id && ids' == ids[..i] + ids[i + 1..]
  }

  lemma {:induction false} WithoutIdTakesOne(ids: seq<string>, i: nat)
    requires Distinct(ids) && i < |ids|
    ensures WithoutId(ids, ids[i]) == ids[..i] + ids[i + 1..]
  {
    var rest, last := ids[..|ids| - 1], ids[|ids| - 1];
    if i == |ids| - 1 {
      WithoutAbsent(rest, last);
    } else {
      WithoutIdTakesOne(rest, i);
      assert rest[..i] + rest[i + 1..] + [last] == ids[..i] + ids[i + 1..];
    }
  }

  lemma WithoutIsOneGone(ids: seq<string>, id: string)
    requires Distinct(ids) && id in ids
    ensures OneGone(ids, WithoutId(ids, id), id)
  {
    var i :| 0 <= i < |ids| && ids[i] == id;
    WithoutIdTakesOne(ids, i);
  }

  lemma {:induction false} WithoutAbsent(ids: seq<string>, id: string)
    requires id !in ids
    ensures WithoutId(ids, id) == ids
  {
    if ids != [] {
      var rest, last := ids[..|ids| - 1], ids[|ids| - 1];
      assert ids == rest + [last];
      WithoutAbsent(rest, id);
    }
  }

  lemma WithoutAppended(ids: seq<string>, id: string)
    ensures WithoutId(ids + [id], id) == WithoutId(ids, id)
  {
    assert (ids + [id])[..|ids|] == ids;
  }

  function ListOf(bydigest: map<string, seq<string>>, d: string): seq<string> {
    if d in bydigest then bydigest[d] else []
  }

  /** The two indexes list the same images in the same order, leaving image `id` aside. */
  ghost predicate SameOthers(a: map<string, seq<string>>, b: map<string, seq<string>>, id: string) {
    forall d :: WithoutId(ListOf(a, d), id) == WithoutId(ListOf(b, d), id)
  }

  lemma NotFound(bydigest: map<string, seq<string>>, byid: map<string, Image>, id: string)
    requires DigestsAgree(bydigest, byid) && id !in byid
    ensures forall d :: !Found(bydigest, d, id)
  {
  }

  lemma RestoredIndex(a: map<string, seq<string>>, b: map<string, seq<string>>, id: string)
    requires SameOthers(a, b, id) && TidyLists(a) && TidyLists(b)
    requires forall d :: !Found(a, d, id) && !Found(b, d, id)
    ensures a == b
  {
    forall d
      ensures ListOf(a, d) == ListOf(b, d)
    {
      assert !Found(a, d, id) && !Found(b, d, id);
      WithoutAbsent(ListOf(a, d), id);
      WithoutAbsent(ListOf(b, d), id);
    }
    forall d
      ensures d in a <==> d in b
    {
      assert ListOf(a, d) == ListOf(b, d);
    }
    forall d | d in a
      ensures a[d] == b[d]
    {
      assert ListOf(a, d) == ListOf(b, d);
    }
  }

  /** `b` is `a` without image `id` in the lists of `digests`. */
  ghost predicate Pruned(a: map<string, seq<string>>, b: map<string, seq<string>>, id: string, digests: seq<string>) {
    forall d, x :: Found(b, d, x) <==> Found(a, d, x) && !(x == id && d in digests)
  }

  function PruneOne(bydigest: map<string, seq<string>>, id: string, d: string): map<string, seq<string>> {
    if d !in bydigest then bydigest
    else
      var pruned := WithoutId(bydigest[d], id);
      if |pruned| == 0 then bydigest - {d} else bydigest[d := pruned]
  }

  lemma PruneOneTakes(bydigest: map<string, seq<string>>, id: string, d: string)
    requires TidyLists(bydigest)
    ensures TidyLists(PruneOne(bydigest, id, d))
    ensures Pruned(bydigest, PruneOne(bydigest, id, d), id, [d])
    ensures SameOthers(PruneOne(bydigest, id, d), bydigest, id)
  {
    if d in bydigest {
      WithoutIdStaysDistinct(bydigest[d], id);
      WithoutAbsent(WithoutId(bydigest[d], id), id);
    }
  }

  lemma PrunedOneMore(a: map<string, seq<string>>, b: map<string, seq<string>>, c: map<string, seq<string>>, id: string,
                      digests: seq<string>, d: string)
    requires Pruned(a, b, id, digests) && Pruned(b, c, id, [d])
    ensures Pruned(a, c, id, digests + [d])
  {
    forall e, x
      ensures Found(c, e, x) <==> Found(a, e, x) && !(x == id && e in digests + [d])
    {
      assert Found(c, e, x) <==> Found(b, e, x) && !(x == id && e in [d]);
      assert Found(b, e, x) <==> Found(a, e, x) && !(x == id && e in digests);
    }
  }

  /** Once image `id` is pruned from the lists of its digests, the index agrees with the other images. */
  /** The index knows every image but `id`. */
  ghost predicate Unseen(bydigest: map<string, seq<string>>, byid: map<string, Image>, id: string) {
    DigestsAgree(bydigest, byid - {id}) && forall d :: !Found(bydigest, d, id)
  }

  lemma PrunedAgrees(a: map<string, seq<string>>, b: map<string, seq<string>>, byid: map<string, Image>, id: string)
    requires DigestsNearlyAgree(a, byid, id) && id in byid && Pruned(a, b, id, byid[id].digests) && TidyLists(b)
    ensures Unseen(b, byid, id)
  {
    forall d, x
      ensures Found(b, d, x) <==> x in byid - {id} && d in byid[x].digests
    {
      assert Found(b, d, x) <==> Found(a, d, x) && !(x == id && d in byid[id].digests);
    }
    assert forall d :: Found(b, d, id) ==> id in byid - {id};
  }

  /** Removing a record and its names undoes registering them. */
  lemma TakenBack(byid: map<string, Image>, byname: map<string, string>, image: Image, id: string)
    requires id !in byid && forall n :: n in image.names ==> n !in byname
    ensures byid[id := image] - {id} == byid
    ensures (byname + NamesFor(image.names, id)) - Elements(image.names) == byname
  {
  }

  lemma ForgottenAgree(byname: map<string, string>, byid: map<string, Image>, id: string)
    requires NamesAgree(byname, byid) && id in byid
    ensures NamesAgree(byname - Elements(byid[id].names), byid - {id})
  {
    var left, rest := byname - Elements(byid[id].names), byid - {id};
    forall x, n
      ensures Named(rest, x, n) <==> Leads(left, n, x)
    {
      assert Named(byid, x, n) <==> Leads(byname, n, x);
      assert Named(byid, id, n) <==> Leads(byname, n, id);
    }
  }

  /** Replacing a record by one with the same ID and names leaves the list and the name index in order. */
  lemma ReplacedAgrees(ids: seq<string>, byname: map<string, string>, byid: map<string, Image>, image: Image)
    requires ListsAll(ids, byid) && NamesAgree(byname, byid) && image.id in byid && image.names == byid[image.id].names
    ensures ListsAll(ids, byid[image.id := image]) && NamesAgree(byname, byid[image.id := image])
    ensures byid[image.id := image] - {image.id} == byid - {image.id}
  {
    SameNamesAgree(byname, byid, byid[image.id := image]);
  }

  lemma RegisteredAgree(byname: map<string, string>, byid: map<string, Image>, image: Image)
    requires NamesAgree(byname, byid) && image.id !in byid && forall n :: n in image.names ==> n !in byname
    ensures NamesAgree(byname + NamesFor(image.names, image.id), byid[image.id := image])
  {
    var index, images := byname + NamesFor(image.names, image.id), byid[image.id := image];
    forall x, n
      ensures Named(images, x, n) <==> Leads(index, n, x)
    {
      assert Named(byid, x, n) <==> Leads(byname, n, x);
    }
  }

  lemma SameNamesAgree(byname: map<string, string>, a: map<string, Image>, b: map<string, Image>)
    requires NamesAgree(byname, a) && a.Keys == b.Keys && forall id :: id in a ==> a[id].names == b[id].names
    ensures NamesAgree(byname, b)
  {
    forall x, n
      ensures Named(b, x, n) <==> Leads(byname, n, x)
    {
      assert Named(a, x, n) <==> Leads(byname, n, x);
    }
  }

  /** An index that has lost sight of image `id` agrees with the images only if there was nothing to see. */
  lemma LostSight(bydigest: map<string, seq<string>>, byid: map<string, Image>, id: string)
    requires id in byid && Unseen(bydigest, byid, id)
    ensures DigestsNearlyAgree(bydigest, byid, id)
    ensures DigestsAgree(bydigest, byid) <==> byid[id].digests == []
  {
    if byid[id].digests != [] {
      assert !Found(bydigest, byid[id].digests[0], id);
    }
    forall d, x
      ensures Found(bydigest, d, x) <==> x in byid - {id} && d in byid[x].digests
    {
    }
  }

  /** `b` is `a` with image `id` in the lists of `digests` as well. */
  ghost predicate Grown(a: map<string, seq<string>>, b: map<string, seq<string>>, id: string, digests: seq<string>) {
    forall d, x :: Found(b, d, x) <==> Found(a, d, x) || (x == id && d in digests)
  }

  lemma AppendingGrows(bydigest: map<string, seq<string>>, id: string, d: string)
    requires TidyLists(bydigest) && !Found(bydigest, d, id)
    ensures var grown := bydigest[d := ListOf(bydigest, d) + [id]];
      TidyLists(grown) && Grown(bydigest, grown, id, [d]) && SameOthers(grown, bydigest, id)
  {
    var grown := bydigest[d := ListOf(bydigest, d) + [id]];
    WithoutAppended(ListOf(bydigest, d), id);
    forall e, x
      ensures Found(grown, e, x) <==> Found(bydigest, e, x) || (x == id && e in [d])
    {
    }
    forall e
      ensures WithoutId(ListOf(grown, e), id) == WithoutId(ListOf(bydigest, e), id)
    {
      assert e != d ==> ListOf(grown, e) == ListOf(bydigest, e);
    }
  }

  lemma GrownOneMore(a: map<string, seq<string>>, b: map<string, seq<string>>, c: map<string, seq<string>>, id: string,
                     digests: seq<string>, d: string)
    requires Grown(a, b, id, digests) && Grown(b, c, id, [d])
    ensures Grown(a, c, id, digests + [d])
  {
    forall e, x
      ensures Found(c, e, x) <==> Found(a, e, x) || (x == id && e in digests + [d])
    {
      assert Found(c, e, x) <==> Found(b, e, x) || (x == id && e in [d]);
      assert Found(b, e, x) <==> Found(a, e, x) || (x == id && e in digests);
    }
  }

  lemma SameOthersTransitive(a: map<string, seq<string>>, b: map<string, seq<string>>, c: map<string, seq<string>>, id: string)
    requires SameOthers(a, b, id) && SameOthers(b, c, id)
    ensures SameOthers(a, c, id)
  {
    forall d
      ensures WithoutId(ListOf(a, d), id) == WithoutId(ListOf(c, d), id)
    {
      assert WithoutId(ListOf(a, d), id) == WithoutId(ListOf(b, d), id);
    }
  }

  lemma FoundAgain(a: map<string, seq<string>>, b: map<string, seq<string>>, byid: map<string, Image>, id: string)
    requires id in byid && Unseen(a, byid, id) && TidyLists(b) && Grown(a, b, id, byid[id].digests)
    ensures DigestsAgree(b, byid)
  {
    forall d, x
      ensures Found(b, d, x) <==> x in byid && d in byid[x].digests
    {
      assert Found(a, d, x) <==> x in byid - {id} && d in byid[x].digests;
    }
  }

  lemma RegisteredDigests(a: map<string, seq<string>>, b: map<string, seq<string>>, byid: map<string, Image>, image: Image)
    requires DigestsAgree(a, byid) && image.id !in byid && TidyLists(b) && Grown(a, b, image.id, image.digests)
    ensures DigestsAgree(b, byid[image.id := image])
  {
    forall d, x
      ensures Found(b, d, x) <==> x in byid[image.id := image] && d in byid[image.id := image][x].digests
    {
      assert Found(a, d, x) <==> x in byid && d in byid[x].digests;
    }
  }

  // ---- Loading

  ghost predicate DistinctIds(list: seq<Image>) {
    forall i, j :: 0 <= i < j < |list| ==> list[i].id != list[j].id
  }

  function NamesIn(list: seq<Image>): (r: NameLists)
    ensures |r| == |list|
  {
    seq(|list|, i requires 0 <= i < |list| => list[i].names)
  }

  /** `ids` and `byid` hold exactly the images of `list`, in their order. */
  ghost predicate Holds(ids: seq<string>, byid: map<string, Image>, list: seq<Image>) {
    && |ids| == |list| && ListsAll(ids, byid)
    && forall i :: 0 <= i < |list| ==> ids[i] == list[i].id && ids[i] in byid && byid[ids[i]] == list[i]
  }

  lemma HoldsOneMore(ids: seq<string>, byid: map<string, Image>, list: seq<Image>, image: Image)
    requires Holds(ids, byid, list) && DistinctIds(list + [image])
    ensures image.id !in byid && Holds(ids + [image.id], byid[image.id := image], list + [image])
  {
    var more := list + [image];
    forall i | 0 <= i < |ids|
      ensures ids[i] != image.id
    {
      assert more[i].id != more[|list|].id;
    }
    assert image.id !in byid;
    forall i | 0 <= i < |more|
      ensures (ids + [image.id])[i] == more[i].id && more[i].id in byid[image.id := image] && byid[image.id := image][more[i].id] == more[i]
    {
    }
  }

  /** An index of positions becomes an index of images. */
  lemma PlacedAgrees(ids: seq<string>, byid: map<string, Image>, list: seq<Image>, places: map<string, nat>, byname: map<string, string>)
    requires Holds(ids, byid, list) && Placed(NamesIn(list), places)
    requires byname.Keys == places.Keys && forall n :: n in byname ==> byname[n] == ids[places[n]]
    ensures NamesAgree(byname, byid)
  {
    forall x, n
      ensures Named(byid, x, n) <==> Leads(byname, n, x)
    {
      if Named(byid, x, n) {
        var i :| 0 <= i < |ids| && ids[i] == x;
        assert n in NamesIn(list)[i];
      }
      if Leads(byname, n, x) {
        assert n in NamesIn(list)[places[n]];
      }
    }
  }

  // ---- Moving names

  /** The images while `id` takes `names` from the others, before its own list of names is replaced. */
  ghost function Claimed(byid: map<string, Image>, id: string, names: seq<string>): map<string, Image> {
    map x | x in byid ::
      if x == id then byid[x].(history := HistoryAfter(byid[x].history, names))
      else byid[x].(names := Surviving(byid[x].names, [names]))
  }

  /** The images after the names of `id` became `names`: any other image that had one of them lost it. */
  ghost function Renamed(byid: map<string, Image>, id: string, names: seq<string>): map<string, Image> {
    map x | x in byid ::
      if x == id then byid[x].(names := names, history := HistoryAfter(byid[x].history, names))
      else byid[x].(names := Surviving(byid[x].names, [names]))
  }

  /** Image `id` has exactly `names`, newest first in its history; the others have lost those names and nothing else. */
  ghost predicate NamesMoved(byid: map<string, Image>, byid': map<string, Image>, id: string, names: seq<string>) {
    && byid'.Keys == byid.Keys && id in byid && byid'[id] == byid[id].(names := names, history := byid'[id].history)
    && (forall n :: n in byid'[id].history <==> n in byid[id].history || n in names)
    && (if names == [] then byid'[id].history == byid[id].history else byid'[id].history != [] && byid'[id].history[0] == names[|names| - 1])
    && forall x :: x in byid && x != id ==>
         && byid'[x] == byid[x].(names := byid'[x].names)
         && forall n :: n in byid'[x].names <==> n in byid[x].names && n !in names
  }

  lemma RenamedMoves(byid: map<string, Image>, id: string, names: seq<string>)
    requires id in byid
    ensures NamesMoved(byid, Renamed(byid, id, names), id, names)
  {
    HistoryHasAll(byid[id].history, names);
    forall n
      ensures Lists([names], n) <==> n in names
    {
      ListsJust(names, n);
    }
  }

  /** The name index while `id`, whose names were `own`, takes `names`. */
  ghost function Reassigned(byname: map<string, string>, own: seq<string>, id: string, names: seq<string>): map<string, string> {
    (byname - Elements(own)) + NamesFor(names, id)
  }

  lemma NothingClaimed(byid: map<string, Image>, id: string)
    ensures Claimed(byid, id, []) == byid
  {
    forall x | x in byid
      ensures Claimed(byid, id, [])[x] == byid[x]
    {
      assert forall n :: !Lists([[]], n);
      SurvivingAll(byid[x].names, [[]]);
    }
  }

  lemma ListsJust(names: seq<string>, n: string)
    ensures Lists([names], n) <==> n in names
  {
    assert [names][0] == names;
  }

  /** The index names the one other image that has a name, if there is one. */
  lemma HolderOfName(byname: map<string, string>, byid: map<string, Image>, id: string, names: seq<string>, name: string, x: string)
    requires NamesAgree(byname, byid) && id in byid && x in byid && x != id && name !in names
    ensures name in Claimed(byid, id, names)[x].names <==> Leads(Reassigned(byname, byid[id].names, id, names), name, x)
  {
    ListsJust(names, name);
    assert Named(byid, x, name) <==> Leads(byname, name, x);
    assert Named(byid, id, name) <==> Leads(byname, name, id);
  }

  /** What taking `name` for `id` does to the images, given where the index finds the name. */
  function NameTaken(images: map<string, Image>, index: map<string, string>, id: string, name: string): map<string, Image>
    requires id in images && (name in index ==> index[name] in images)
  {
    var rest :=
      if name in index
      then images[index[name] := images[index[name]].(names := RemoveName(images[index[name]].names, name))]
      else images;
    rest[id := rest[id].(history := Dedupe([name] + rest[id].history))]
  }

  lemma TakenFrom(images: map<string, Image>, index: map<string, string>, id: string, name: string, x: string)
    requires id in images && (name in index ==> index[name] in images) && x in images && x != id
    ensures NameTaken(images, index, id, name)[x] ==
            if Leads(index, name, x) then images[x].(names := RemoveName(images[x].names, name)) else images[x]
  {
  }

  lemma OthersLose(names: seq<string>, taken: seq<string>, name: string)
    ensures Surviving(names, [taken + [name]]) == RemoveName(Surviving(names, [taken]), name)
  {
    forall n
      ensures Lists([taken + [name]], n) <==> Lists([taken], n) || n == name
    {
      ListsJust(taken, n);
      ListsJust(taken + [name], n);
    }
    ClaimOneMore(names, [taken], [taken + [name]], name);
  }

  lemma IndexNamesAnother(byname: map<string, string>, byid: map<string, Image>, id: string, names: seq<string>, name: string, x: string)
    requires NamesAgree(byname, byid) && id in byid && name !in names
    requires Leads(Reassigned(byname, byid[id].names, id, names), name, x)
    ensures x in byid && x != id
  {
    assert Named(byid, x, name) <==> Leads(byname, name, x);
  }

  lemma ClaimedFromOne(byname: map<string, string>, byid: map<string, Image>, id: string, names: seq<string>, name: string, x: string)
    requires NamesAgree(byname, byid) && id in byid && name !in names && x in byid && x != id
    ensures var before, after := Claimed(byid, id, names)[x], Claimed(byid, id, names + [name])[x];
      after == if Leads(Reassigned(byname, byid[id].names, id, names), name, x)
               then before.(names := RemoveName(before.names, name))
               else before
  {
    OthersLose(byid[x].names, names, name);
    HolderOfName(byname, byid, id, names, name, x);
    var before := Claimed(byid, id, names)[x].names;
    if name !in before {
      RemoveAbsent(before, name);
    }
  }

  lemma ClaimedByOne(byid: map<string, Image>, id: string, names: seq<string>, name: string)
    requires id in byid
    ensures var before := Claimed(byid, id, names)[id];
      Claimed(byid, id, names + [name])[id] == before.(history := Dedupe([name] + before.history))
  {
    assert (names + [name])[..|names|] == names;
  }

  lemma NextIsNew(names: seq<string>, k: nat)
    requires Distinct(names) && k < |names|
    ensures names[..k + 1] == names[..k] + [names[k]] && names[k] !in names[..k]
  {
  }

  lemma ClaimedOneMore(byname: map<string, string>, byid: map<string, Image>, id: string, names: seq<string>, name: string)
    requires NamesAgree(byname, byid) && id in byid && name !in names
    ensures var index := Reassigned(byname, byid[id].names, id, names);
      && (name in index ==> index[name] in byid)
      && Claimed(byid, id, names + [name]) == NameTaken(Claimed(byid, id, names), index, id, name)
  {
    var index := Reassigned(byname, byid[id].names, id, names);
    if name in index {
      IndexNamesAnother(byname, byid, id, names, name, index[name]);
    }
    var images := Claimed(byid, id, names);
    forall x | x in byid
      ensures Claimed(byid, id, names + [name])[x] == NameTaken(images, index, id, name)[x]
    {
      if x == id {
        ClaimedByOne(byid, id, names, name);
      } else {
        ClaimedFromOne(byname, byid, id, names, name, x);
        TakenFrom(images, index, id, name, x);
      }
    }
  }

  lemma ReassignedOneMore(byname: map<string, string>, own: seq<string>, id: string, names: seq<string>, name: string)
    ensures Reassigned(byname, own, id, names + [name]) == Reassigned(byname, own, id, names)[name := id]
  {
  }

  lemma ClaimedThenRenamed(byid: map<string, Image>, id: string, names: seq<string>)
    requires id in byid
    ensures var images := Claimed(byid, id, names); images[id := images[id].(names := names)] == Renamed(byid, id, names)
  {
  }

  lemma RenamedAgrees(byname: map<string, string>, byid: map<string, Image>, id: string, names: seq<string>)
    requires NamesAgree(byname, byid) && id in byid
    ensures NamesAgree(Reassigned(byname, byid[id].names, id, names), Renamed(byid, id, names))
  {
    var index, images := Reassigned(byname, byid[id].names, id, names), Renamed(byid, id, names);
    forall x, n
      ensures Named(images, x, n) <==> Leads(index, n, x)
    {
      ListsJust(names, n);
      assert Named(byid, x, n) <==> Leads(byname, n, x);
      assert Named(byid, id, n) <==> Leads(byname, n, id);
    }
  }

  /** Renaming does not touch the list of images and the digest index. */
  lemma RenamedElsewhere(ids: seq<string>, bydigest: map<string, seq<string>>, byid: map<string, Image>, id: string, names: seq<string>)
    requires ListsAll(ids, byid) && DigestsAgree(bydigest, byid)
    ensures ListsAll(ids, Renamed(byid, id, names)) && DigestsAgree(bydigest, Renamed(byid, id, names))
  {
    var images := Renamed(byid, id, names);
    forall d, x
      ensures Found(bydigest, d, x) <==> x in images && d in images[x].digests
    {
      assert Found(bydigest, d, x) <==> x in byid && d in byid[x].digests;
    }
  }
}
