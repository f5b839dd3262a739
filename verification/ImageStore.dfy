/** The image store of one process: the list of images and its indexes by ID, name and digest (storage/images.go). */
module ImageStore {
  import opened Common
  import opened NameClaims
  import opened Images
  import opened ImageIndexes

  datatype Status =
    | Ok | DuplicateID | DuplicateName | ImageUnknown | InvalidDigest | InvalidBigDataName | SaveFailed | LoadFailed | TryLockedForWriting

  class ImageStore {
    const valid: string -> bool
    /** IDs stand for the pointers of the original: the list and the indexes refer to the one record in `byid`. */
    var images: seq<string>
    var byid: map<string, Image>
    var byname: map<string, string>
    var bydigest: map<string, seq<string>>
    /** images.json. */
    var file: seq<Image>

    ghost predicate Listed()
      reads this`images, this`byid
    {
      ListsAll(images, byid)
    }

    ghost predicate Valid()
      reads this`images, this`byid, this`byname, this`bydigest
    {
      Listed() && NamesAgree(byname, byid) && DigestsAgree(bydigest, byid) && !valid("")
    }

    /** images.json holds the images of this process. */
    ghost predicate Saved()
      reads this`images, this`byid, this`file
      requires Listed()
    {
      |file| == |images| && forall i :: 0 <= i < |file| ==> file[i] == OnDisk(byid[images[i]])
    }

    method Save()
      requires Listed()
      modifies this`file
      ensures Saved()
    {
      var data := [];
      for k := 0 to |images|
        invariant |data| == k && forall i :: 0 <= i < k ==> data[i] == OnDisk(byid[images[i]])
      {
        data := data + [OnDisk(byid[images[k]])];
      }
      file := data;
    }

    /** Takes image `id` out of the digest lists of `digests`; a list that becomes empty goes away. */
    method PruneDigests(id: string, digests: seq<string>)
      requires TidyLists(bydigest)
      modifies this`bydigest
      ensures TidyLists(bydigest) && SameOthers(bydigest, old(bydigest), id) && Pruned(old(bydigest), bydigest, id, digests)
    {
      for k := 0 to |digests|
        invariant TidyLists(bydigest) && SameOthers(bydigest, old(bydigest), id)
        invariant Pruned(old(bydigest), bydigest, id, digests[..k])
      {
        var d := digests[k];
        PruneOneTakes(bydigest, id, d);
        PrunedOneMore(old(bydigest), bydigest, PruneOne(bydigest, id, d), id, digests[..k], d);
        assert digests[..k + 1] == digests[..k] + [d];
        bydigest := PruneOne(bydigest, id, d);
      }
      assert digests[..|digests|] == digests;
    }

    /** Adds image `id` to the digest lists of `digests`, unless it is there already. */
    method IndexDigests(id: string, digests: seq<string>)
      requires TidyLists(bydigest)
      modifies this`bydigest
      ensures TidyLists(bydigest) && Grown(old(bydigest), bydigest, id, digests) && SameOthers(bydigest, old(bydigest), id)
    {
      for k := 0 to |digests|
        invariant TidyLists(bydigest) && SameOthers(bydigest, old(bydigest), id) && Grown(old(bydigest), bydigest, id, digests[..k])
      {
        var list := ListOf(bydigest, digests[k]);
        var grown := if id in list then bydigest else bydigest[digests[k] := list + [id]];
        if id !in list {
          AppendingGrows(bydigest, id, digests[k]);
        }
        GrownOneMore(old(bydigest), bydigest, grown, id, digests[..k], digests[k]);
        SameOthersTransitive(grown, bydigest, old(bydigest), id);
        assert digests[..k + 1] == digests[..k] + [digests[k]];
        bydigest := grown;
      }
      assert digests[..|digests|] == digests;
    }

    /** Adds image `id` to the digest lists of `digests`, which do not have it yet. */
    method AppendDigests(id: string, digests: seq<string>)
      requires TidyLists(bydigest) && Distinct(digests) && forall d :: !Found(bydigest, d, id)
      modifies this`bydigest
      ensures TidyLists(bydigest) && Grown(old(bydigest), bydigest, id, digests) && SameOthers(bydigest, old(bydigest), id)
    {
      for k := 0 to |digests|
        invariant TidyLists(bydigest) && SameOthers(bydigest, old(bydigest), id) && Grown(old(bydigest), bydigest, id, digests[..k])
      {
        assert !Found(bydigest, digests[k], id);
        AppendingGrows(bydigest, id, digests[k]);
        var grown := bydigest[digests[k] := ListOf(bydigest, digests[k]) + [id]];
        GrownOneMore(old(bydigest), bydigest, grown, id, digests[..k], digests[k]);
        SameOthersTransitive(grown, bydigest, old(bydigest), id);
        assert digests[..k + 1] == digests[..k] + [digests[k]];
        bydigest := grown;
      }
      assert digests[..|digests|] == digests;
    }

    method ForgetNames(names: seq<string>)
      modifies this`byname
      ensures byname == old(byname) - Elements(names)
    {
      for k := 0 to |names|
        invariant byname == old(byname) - Elements(names[..k])
      {
        assert Elements(names[..k + 1]) == Elements(names[..k]) + {names[k]};
        byname := byname - {names[k]};
      }
      assert names[..|names|] == names;
    }

    method IndexNames(names: seq<string>, id: string)
      modifies this`byname
      ensures byname == old(byname) + NamesFor(names, id)
    {
      for k := 0 to |names|
        invariant byname == old(byname) + NamesFor(names[..k], id)
      {
        NamesForOneMore(old(byname), names, k, id);
        byname := byname[names[k] := id];
      }
      assert names[..|names|] == names;
    }

    /** Takes image `id` out of the list and the indexes. */
    method Withhold(id: string)
      requires Listed() && NamesAgree(byname, byid) && DigestsNearlyAgree(bydigest, byid, id) && !valid("") && id in byid
      modifies this`images, this`byid, this`byname, this`bydigest
      ensures Valid() && byid == old(byid) - {id} && images == WithoutId(old(images), id)
      ensures byname == old(byname) - Elements(old(byid)[id].names) && SameOthers(bydigest, old(bydigest), id)
    {
      var image := byid[id];
      byid := byid - {id};
      ForgottenAgree(byname, old(byid), id);
      ForgetNames(image.names);
      PruneDigests(id, image.digests);
      PrunedAgrees(old(bydigest), bydigest, old(byid), id);
      WithoutIdStaysDistinct(images, id);
      images := WithoutId(images, id);
    }

    /** Removes image `id`; it does not matter whether the digest index still knows it. */
    method Delete(id: string, saves: bool) returns (st: Status)
      requires Listed() && NamesAgree(byname, byid) && DigestsNearlyAgree(bydigest, byid, id) && !valid("")
      modifies this
      ensures st == if id !in old(byid) then ImageUnknown else if saves then Ok else SaveFailed
      ensures st == ImageUnknown ==> unchanged(this)
      ensures id in old(byid) ==>
        && Valid() && byid == old(byid) - {id} && images == WithoutId(old(images), id)
        && byname == old(byname) - Elements(old(byid)[id].names)
        && SameOthers(bydigest, old(bydigest), id)
      ensures id in old(byid) ==> OneGone(old(images), images, id)
      ensures st == Ok ==> Saved()
      ensures st == SaveFailed ==> file == old(file)
      ensures Settled(old(byid)) ==> Settled(byid)
    {
      if id !in byid {
        return ImageUnknown;
      }
      StaysSettledWithout(byid, id);
      Withhold(id);
      WithoutIsOneGone(old(images), id);
      st := SaveIf(saves);
    }

    method SaveIf(saves: bool) returns (st: Status)
      requires Listed()
      modifies this`file
      ensures st == if saves then Ok else SaveFailed
      ensures if saves then Saved() else file == old(file)
    {
      if !saves {
        return SaveFailed;
      }
      Save();
      st := Ok;
    }

    /** Puts a new image into the list and the indexes. */
    method Register(image: Image)
      requires Valid() && image.id !in byid && (forall n :: n in image.names ==> n !in byname) && Distinct(image.digests)
      modifies this`images, this`byid, this`byname, this`bydigest
      ensures Valid() && byid == old(byid)[image.id := image] && images == old(images) + [image.id]
      ensures byname == old(byname) + NamesFor(image.names, image.id)
      ensures SameOthers(bydigest, old(bydigest), image.id)
    {
      images := images + [image.id];
      byid := byid[image.id := image];
      RegisteredAgree(byname, old(byid), image);
      IndexNames(image.names, image.id);
      AppendDigests(image.id, image.digests);
      RegisteredDigests(old(bydigest), bydigest, old(byid), image);
    }

    /** Replaces the record of image `id` and brings the digest index in line; stops halfway if a digest is invalid. */
    method Reindex(id: string, image: Image) returns (ok: bool)
      requires Valid() && id in byid && image.id == id && image.names == byid[id].names && image.digests == byid[id].digests
      modifies this`byid, this`bydigest
      ensures Listed() && NamesAgree(byname, byid)
      ensures OnlyChanged(old(byid), byid, id) && SameOthers(bydigest, old(bydigest), id)
      ensures ok <==> AllValid(image.digest, image.bigDigests, valid)
      ensures if ok then Recomputed(image, byid[id]) else byid[id] == image
      ensures ok ==> Valid()
      ensures !ok ==> DigestsNearlyAgree(bydigest, byid, id) && (DigestsAgree(bydigest, byid) <==> image.digests == [])
    {
      Withdraw(id, image);
      ghost var pruned := bydigest;
      var recomputed;
      ok, recomputed := RecomputeDigests(image, valid);
      if !ok {
        LostSight(bydigest, byid, id);
        return;
      }
      Enter(id, recomputed);
      SameOthersTransitive(bydigest, pruned, old(bydigest), id);
    }

    /** Replaces the record of image `id`, which the digest index then no longer knows. */
    method Withdraw(id: string, image: Image)
      requires Valid() && id in byid && image.id == id && image.names == byid[id].names && image.digests == byid[id].digests
      modifies this`byid, this`bydigest
      ensures Listed() && NamesAgree(byname, byid) && byid == old(byid)[id := image]
      ensures Unseen(bydigest, byid, id) && SameOthers(bydigest, old(bydigest), id)
    {
      PruneDigests(id, image.digests);
      PrunedAgrees(old(bydigest), bydigest, byid, id);
      ReplacedAgrees(images, byname, byid, image);
      byid := byid[id := image];
    }

    /** Replaces the record of image `id` and puts it back into the digest index. */
    method Enter(id: string, image: Image)
      requires Listed() && NamesAgree(byname, byid) && id in byid && Unseen(bydigest, byid, id) && !valid("")
      requires image.id == id && image.names == byid[id].names && Distinct(image.digests)
      modifies this`byid, this`bydigest
      ensures Valid() && byid == old(byid)[id := image] && SameOthers(bydigest, old(bydigest), id)
    {
      ReplacedAgrees(images, byname, byid, image);
      byid := byid[id := image];
      IndexDigests(id, image.digests);
      FoundAgain(old(bydigest), bydigest, byid, id);
    }

    method SetBigData(id: string, key: string, size: int, digest: string, saves: bool) returns (st: Status)
      requires Valid() && id in byid
      modifies this`byid, this`bydigest, this`file
      ensures st == InvalidBigDataName <==> key == ""
      ensures st == InvalidBigDataName ==> unchanged(this)
      ensures Listed() && NamesAgree(byname, byid)
      ensures OnlyChanged(old(byid), byid, id) && SameOthers(bydigest, old(bydigest), id)
      ensures key != "" ==> var i := WithBigData(old(byid)[id], key, size, digest);
        && (st == InvalidDigest <==> !AllValid(i.digest, i.bigDigests, valid))
        && (if st == InvalidDigest then byid[id] == i else Recomputed(i, byid[id]))
      ensures st == Ok || st == SaveFailed ==> Valid()
      ensures st == InvalidDigest ==> DigestsNearlyAgree(bydigest, byid, id) && (Valid() <==> old(byid)[id].digests == [])
      ensures st == Ok || st == SaveFailed || st == InvalidDigest || st == InvalidBigDataName
      ensures st == SaveFailed <==> key != "" && st != InvalidDigest && !saves && WithBigData(old(byid)[id], key, size, digest) != old(byid)[id]
      ensures st == Ok && WithBigData(old(byid)[id], key, size, digest) != old(byid)[id] ==> Saved()
      ensures st != InvalidDigest && Settled(old(byid)) ==> Settled(byid)
    {
      if key == "" {
        return InvalidBigDataName;
      }
      var image := byid[id];
      var save := !Recorded(image, key, size, digest);
      RecordedMeansSame(image, key, size, digest);
      var ok := Reindex(id, WithBigData(image, key, size, digest));
      if !ok {
        return InvalidDigest;
      }
      RecomputedIsSettled(WithBigData(image, key, size, digest), byid[id]);
      StaysSettled(old(byid), byid, id);
      if save {
        if !saves {
          return SaveFailed;
        }
        Save();
      }
      st := Ok;
    }

    /** Creates an image; an error after it was registered removes it again. */
    method Create(id: string, names: seq<string>, history: seq<string>, digest: string, items: seq<Item>, saves: bool)
      returns (st: Status)
      requires Valid()
      modifies this
      ensures Valid()
      ensures st == DuplicateID <==> id in old(byid)
      ensures st == DuplicateName <==> id !in old(byid) && exists n :: n in names && n in old(byname)
      ensures st == Ok ==> saves && (digest == "" || valid(digest)) && Acceptable(items, valid)
      ensures saves && (digest == "" || valid(digest)) && Acceptable(items, valid) && (forall item :: item in items ==> item.saves) ==>
        st == Ok || st == DuplicateID || st == DuplicateName
      ensures st == Ok ==>
        && id in byid && byid == old(byid)[id := byid[id]] && images == old(images) + [id]
        && byname == old(byname) + NamesFor(names, id)
        && Stored(Image(id, Dedupe(names), history, digest, [], [], map[], map[]), items, byid[id])
      ensures st == Ok ==>
        && (forall n :: n in byid[id].names <==> n in names) && Ordered(names, byid[id].names) && byid[id].history == history
        && HasItems(byid[id], items) && (digest != "" ==> byid[id].digest == digest)
      ensures st != Ok ==>
        images == old(images) && byid == old(byid) && byname == old(byname) && bydigest == old(bydigest)
      ensures Settled(old(byid)) ==> Settled(byid)
    {
      if id in byid {
        return DuplicateID;
      }
      var deduped := DedupeStrings(names);
      if exists n | n in deduped :: n in byname {
        return DuplicateName;
      }
      assert NamesFor(deduped, id) == NamesFor(names, id);
      var ok, image := RecomputeDigests(Image(id, deduped, history, digest, [], [], map[], map[]), valid);
      if !ok {
        return InvalidDigest;
      }
      ghost var blank := Image(id, deduped, history, digest, [], [], map[], map[]);
      RecomputedIsSettled(blank, image);
      RecomputedStaysValid(blank, image, valid);
      st := Add(image, items, saves);
      if st == Ok {
        StoredOnRecomputed(blank, image, items, byid[id]);
        StoredHasItems(blank, items, byid[id]);
      }
    }

    /** Registers and saves a new image and stores its big data, or leaves everything but the file as it was. */
    method Add(image: Image, items: seq<Item>, saves: bool) returns (st: Status)
      requires Valid() && image.id !in byid && (forall n :: n in image.names ==> n !in byname) && Recomputed(image, image)
      requires AllValid(image.digest, image.bigDigests, valid)
      modifies this
      ensures Valid() && st != DuplicateID && st != DuplicateName
      ensures st == Ok ==> saves && Acceptable(items, valid)
      ensures saves && Acceptable(items, valid) && (forall item :: item in items ==> item.saves) ==> st == Ok
      ensures st == Ok ==>
        && image.id in byid && byid == old(byid)[image.id := byid[image.id]] && images == old(images) + [image.id]
        && byname == old(byname) + NamesFor(image.names, image.id) && Stored(image, items, byid[image.id])
      ensures st != Ok ==>
        images == old(images) && byid == old(byid) && byname == old(byname) && bydigest == old(bydigest)
    {
      st := Enlist(image, items, saves);
      if st != Ok {
        Unregister(image.id, saves, old(images), old(byid), old(byname), old(bydigest), image.names);
      }
    }

    /** Registers and saves a new image and stores its big data. */
    method Enlist(image: Image, items: seq<Item>, saves: bool) returns (st: Status)
      requires Valid() && image.id !in byid && (forall n :: n in image.names ==> n !in byname) && Recomputed(image, image)
      requires AllValid(image.digest, image.bigDigests, valid)
      modifies this
      ensures st != DuplicateID && st != DuplicateName
      ensures Listed() && NamesAgree(byname, byid) && DigestsNearlyAgree(bydigest, byid, image.id) && (st == Ok ==> Valid())
      ensures image.id in byid && byid == old(byid)[image.id := byid[image.id]] && byid[image.id].names == image.names
      ensures images == old(images) + [image.id] && byname == old(byname) + NamesFor(image.names, image.id)
      ensures SameOthers(bydigest, old(bydigest), image.id)
      ensures st == Ok ==> saves && Acceptable(items, valid) && Stored(image, items, byid[image.id])
      ensures saves && Acceptable(items, valid) && (forall item :: item in items ==> item.saves) ==> st == Ok
    {
      Register(image);
      AgreeMeansNearly(bydigest, byid, image.id);
      if !saves {
        return SaveFailed;
      }
      Save();
      ghost var index, registered := bydigest, byid;
      st := SetItems(image.id, items);
      SameOthersTransitive(bydigest, index, old(bydigest), image.id);
      AddedThenChanged(old(byid), registered, byid, image);
    }

    /** Removes the image that was registered last, which leaves the list and the indexes as they were before. */
    method Unregister(id: string, saves: bool, ghost images0: seq<string>, ghost byid0: map<string, Image>,
                      ghost byname0: map<string, string>, ghost bydigest0: map<string, seq<string>>, ghost own: seq<string>)
      requires ListsAll(images0, byid0) && NamesAgree(byname0, byid0) && DigestsAgree(bydigest0, byid0) && !valid("")
      requires id !in byid0 && forall n :: n in own ==> n !in byname0
      requires Listed() && NamesAgree(byname, byid) && DigestsNearlyAgree(bydigest, byid, id)
      requires id in byid && byid == byid0[id := byid[id]] && byid[id].names == own
      requires images == images0 + [id] && byname == byname0 + NamesFor(own, id) && SameOthers(bydigest, bydigest0, id)
      modifies this
      ensures images == images0 && byid == byid0 && byname == byname0 && bydigest == bydigest0
    {
      ghost var registered := byid[id];
      var _ := Delete(id, saves);
      WithoutAppended(images0, id);
      WithoutAbsent(images0, id);
      TakenBack(byid0, byname0, registered, id);
      NotFound(bydigest, byid, id);
      NotFound(bydigest0, byid0, id);
      RestoredIndex(bydigest, bydigest0, id);
    }

    /** Stores the big data items of a new image until one of them fails. */
    method SetItems(id: string, items: seq<Item>) returns (st: Status)
      requires Valid() && id in byid && Recomputed(byid[id], byid[id]) && AllValid(byid[id].digest, byid[id].bigDigests, valid)
      modifies this`byid, this`bydigest, this`file
      ensures Listed() && NamesAgree(byname, byid) && DigestsNearlyAgree(bydigest, byid, id) && (st == Ok ==> Valid())
      ensures OnlyChanged(old(byid), byid, id) && byid[id].names == old(byid)[id].names
      ensures SameOthers(bydigest, old(bydigest), id)
      ensures st == Ok ==> Stored(old(byid)[id], items, byid[id]) && Acceptable(items, valid)
      ensures Acceptable(items, valid) && (forall item :: item in items ==> item.saves) ==> st == Ok
      ensures st != DuplicateID && st != DuplicateName
    {
      for k := 0 to |items|
        invariant Valid() && OnlyChanged(old(byid), byid, id)
        invariant SameOthers(bydigest, old(bydigest), id) && Stored(old(byid)[id], items[..k], byid[id])
        invariant AllValid(byid[id].digest, byid[id].bigDigests, valid) && Acceptable(items[..k], valid)
      {
        assert items[k] in items && items[..k + 1] == items[..k] + [items[k]];
        ItemStaysValid(byid[id], items[k], valid);
        ghost var before, index := byid, bydigest;
        st := SetBigData(id, items[k].key, items[k].size, items[k].digest, items[k].saves);
        OnlyChangedTwice(old(byid), before, byid, id);
        SameOthersTransitive(bydigest, index, old(bydigest), id);
        if st != Ok {
          return;
        }
        StoredOneMore(old(byid)[id], items, k, before[id], byid[id]);
        RecomputedStaysValid(WithBigData(before[id], items[k].key, items[k].size, items[k].digest), byid[id], valid);
      }
      assert items[..|items|] == items;
      st := Ok;
    }

    /** Changes the names of image `id`; a name that another image had moves over. */
    method UpdateNames(id: string, params: seq<string>, op: NameOp, saves: bool) returns (st: Status)
      requires Valid()
      modifies this
      ensures Valid() && images == old(images) && bydigest == old(bydigest)
      ensures st == if id !in old(byid) then ImageUnknown else if saves then Ok else SaveFailed
      ensures st == ImageUnknown ==> unchanged(this)
      ensures id in old(byid) ==> var names := NamesAfter(old(byid)[id].names, params, op);
        byid == Renamed(old(byid), id, names) && byname == Reassigned(old(byname), old(byid)[id].names, id, names)
      ensures id in old(byid) ==>
        id in byid && NamesAsAsked(old(byid)[id].names, params, op, byid[id].names) && NamesMoved(old(byid), byid, id, byid[id].names)
      ensures st == Ok ==> Saved()
      ensures st == SaveFailed ==> file == old(file)
      ensures Settled(old(byid)) ==> Settled(byid)
    {
      if id !in byid {
        return ImageUnknown;
      }
      RenamedSettled(byid, id, NamesAfter(byid[id].names, params, op));
      var names := ApplyNameOperation(byid[id].names, params, op);
      RenamedMoves(byid, id, names);
      Rename(id, names);
      if !saves {
        return SaveFailed;
      }
      Save();
      st := Ok;
    }

    method Rename(id: string, names: seq<string>)
      requires Valid() && id in byid && Distinct(names)
      modifies this`byid, this`byname
      ensures Valid() && byid == Renamed(old(byid), id, names)
      ensures byname == Reassigned(old(byname), old(byid)[id].names, id, names)
    {
      RenamedAgrees(byname, byid, id, names);
      RenamedElsewhere(images, bydigest, byid, id, names);
      ClaimedThenRenamed(byid, id, names);
      ClaimNames(id, names);
      byid := byid[id := byid[id].(names := names)];
    }

    /** Takes `names` from the images that have them; image `id` gives up the index entries of its old names first. */
    method ClaimNames(id: string, names: seq<string>)
      requires NamesAgree(byname, byid) && id in byid && Distinct(names)
      modifies this`byid, this`byname
      ensures byid == Claimed(old(byid), id, names)
      ensures byname == Reassigned(old(byname), old(byid)[id].names, id, names)
    {
      ghost var byid0, byname0, own := byid, byname, byid[id].names;
      ForgetNames(byid[id].names);
      NothingClaimed(byid, id);
      for k := 0 to |names|
        invariant byid == Claimed(byid0, id, names[..k]) && byname == Reassigned(byname0, own, id, names[..k])
      {
        ghost var claimed := names[..k];
        NextIsNew(names, k);
        ClaimedOneMore(byname0, byid0, id, claimed, names[k]);
        ReassignedOneMore(byname0, own, id, claimed, names[k]);
        ClaimName(id, names[k]);
      }
      assert names[..|names|] == names;
    }

    /** Moves one name to image `id` and puts it in front of the history. */
    method ClaimName(id: string, name: string)
      requires id in byid && (name in byname ==> byname[name] in byid)
      modifies this`byid, this`byname
      ensures byname == old(byname)[name := id]
      ensures byid == NameTaken(old(byid), old(byname), id, name)
    {
      if name in byname {
        var other := byname[name];
        byid := byid[other := byid[other].(names := RemoveName(byid[other].names, name))];
      }
      byname := byname[name := id];
      var history := DedupeStrings([name] + byid[id].history);
      byid := byid[id := byid[id].(history := history)];
    }

    /** Rebuilds the list of images and the indexes by ID and digest. */
    method Install(list: seq<Image>)
      requires DistinctIds(list) && forall i :: 0 <= i < |list| ==> Distinct(list[i].digests)
      modifies this`images, this`byid, this`bydigest
      ensures Holds(images, byid, list) && DigestsAgree(bydigest, byid)
    {
      images, byid, bydigest := [], map[], map[];
      for k := 0 to |list|
        invariant Holds(images, byid, list[..k]) && DigestsAgree(bydigest, byid)
      {
        ghost var byid0, bydigest0 := byid, bydigest;
        assert list[..k + 1] == list[..k] + [list[k]];
        HoldsOneMore(images, byid, list[..k], list[k]);
        assert forall d :: Found(bydigest, d, list[k].id) ==> list[k].id in byid;
        images, byid := images + [list[k].id], byid[list[k].id := list[k]];
        AppendDigests(list[k].id, list[k].digests);
        RegisteredDigests(bydigest0, bydigest, byid0, list[k]);
      }
      assert list[..|list|] == list;
    }

    /**
     * Reads images.json. A name that several images have goes to the last of them, which is only allowed
     * under the write lock, because it is then saved.
     */
    method Load(lockedForWriting: bool, readable: bool, saves: bool) returns (st: Status)
      requires DistinctIds(file) && !valid("")
      modifies this
      ensures st == LoadFailed <==> !readable
      ensures st == InvalidDigest <==> readable && !DigestsValid(old(file), valid)
      ensures st == TryLockedForWriting <==> readable && DigestsValid(old(file), valid) && Clash(old(file)) && !lockedForWriting
      ensures st == SaveFailed <==> readable && DigestsValid(old(file), valid) && Clash(old(file)) && lockedForWriting && !saves
      ensures if st == Ok || st == SaveFailed then Valid() && Loads(old(file), images, byid) && Settled(byid) else unchanged(this)
      ensures if st == Ok && Clash(old(file)) then Listed() && Saved() else file == old(file)
    {
      if !readable {
        return LoadFailed;
      }
      var ok, list := RecomputeAll(file, valid);
      if !ok {
        return InvalidDigest;
      }
      var lists, places, conflict := ResolveThenIndex(NamesIn(file));
      if conflict && !lockedForWriting {
        return TryLockedForWriting;
      }
      ResolvedAreLoaded(file, list);
      Rebuild(WithNames(list, lists), places);
      LoadsSettle(file, images, byid);
      if conflict {
        if !saves {
          return SaveFailed;
        }
        Save();
      }
      st := Ok;
    }

    method Rebuild(list: seq<Image>, places: map<string, nat>)
      requires DistinctIds(list) && (forall i :: 0 <= i < |list| ==> Distinct(list[i].digests)) && !valid("")
      requires Placed(NamesIn(list), places)
      modifies this`images, this`byid, this`byname, this`bydigest
      ensures Valid() && Holds(images, byid, list)
    {
      Install(list);
      byname := map n | n in places :: images[places[n]];
      PlacedAgrees(images, byid, list, places, byname);
    }
  }

  /** Some name belongs to several images. */
  ghost predicate Clash(file: seq<Image>) {
    Resolved(NamesIn(file)) != NamesIn(file)
  }

  lemma ResolvedAreLoaded(file: seq<Image>, list: seq<Image>)
    requires DistinctIds(file) && |list| == |file| && forall i :: 0 <= i < |list| ==> Recomputed(file[i], list[i])
    ensures var named := WithNames(list, Resolved(NamesIn(file)));
      && DistinctIds(named) && (forall i :: 0 <= i < |named| ==> Distinct(named[i].digests))
      && NamesIn(named) == Resolved(NamesIn(file))
      && forall ids, byid :: Holds(ids, byid, named) ==> Loads(file, ids, byid)
  {
    var named := WithNames(list, Resolved(NamesIn(file)));
    forall ids, byid | Holds(ids, byid, named)
      ensures Loads(file, ids, byid)
    {
      assert forall i :: 0 <= i < |file| ==> byid[ids[i]] == named[i];
    }
  }

  ghost predicate DigestsValid(list: seq<Image>, valid: string -> bool) {
    forall i :: 0 <= i < |list| ==> AllValid(list[i].digest, list[i].bigDigests, valid)
  }

  /** The list and the index by ID are what images.json says, with names resolved and digests recomputed. */
  ghost predicate Loads(file: seq<Image>, ids: seq<string>, byid: map<string, Image>) {
    && ListsAll(ids, byid) && |ids| == |file|
    && forall i :: 0 <= i < |file| ==>
         && ids[i] == file[i].id && ids[i] in byid
         && Recomputed(file[i].(names := Resolved(NamesIn(file))[i]), byid[ids[i]])
  }

  method RecomputeAll(file: seq<Image>, valid: string -> bool) returns (ok: bool, list: seq<Image>)
    requires !valid("")
    ensures ok <==> DigestsValid(file, valid)
    ensures ok ==> |list| == |file| && forall i :: 0 <= i < |list| ==> Recomputed(file[i], list[i])
  {
    list := [];
    for k := 0 to |file|
      invariant |list| == k && forall i :: 0 <= i < k ==> Recomputed(file[i], list[i])
      invariant forall i :: 0 <= i < k ==> AllValid(file[i].digest, file[i].bigDigests, valid)
    {
      var image;
      ok, image := RecomputeDigests(file[k], valid);
      if !ok {
        return;
      }
      list := list + [image];
    }
    ok := true;
  }

  function WithNames(list: seq<Image>, lists: NameLists): (r: seq<Image>)
    requires |list| == |lists|
    ensures |r| == |list|
  {
    seq(|list|, i requires 0 <= i < |list| => list[i].(names := lists[i]))
  }

  /** A big data item of a new image, and whether saving after it works. */
  datatype Item = Item(key: string, size: int, digest: string, saves: bool)

  /** The image with the item recorded; the other items stay as they are. */
  function WithBigData(i: Image, key: string, size: int, digest: string): (r: Image)
    ensures key in r.bigNames && r.bigSizes == i.bigSizes[key := size] && r.bigDigests == i.bigDigests[key := digest]
    ensures i.bigNames <= r.bigNames && forall k :: k in r.bigNames <==> k in i.bigNames || k == key
    ensures r == i.(bigNames := r.bigNames, bigSizes := r.bigSizes, bigDigests := r.bigDigests)
  {
    i.(bigSizes := i.bigSizes[key := size],
       bigDigests := i.bigDigests[key := digest],
       bigNames := if key in i.bigNames then i.bigNames else i.bigNames + [key])
  }

  predicate Recorded(i: Image, key: string, size: int, digest: string) {
    && key in i.bigSizes && i.bigSizes[key] == size
    && key in i.bigDigests && i.bigDigests[key] == digest && key in i.bigNames
  }

  lemma RecordedMeansSame(i: Image, key: string, size: int, digest: string)
    ensures Recorded(i, key, size, digest) <==> WithBigData(i, key, size, digest) == i
  {
    var j := WithBigData(i, key, size, digest);
    if j == i {
      assert key in j.bigSizes && j.bigSizes[key] == size && key in j.bigDigests && j.bigDigests[key] == digest;
    }
  }

  /** No item lacks a key or is a manifest with an invalid digest. */
  ghost predicate Acceptable(items: seq<Item>, valid: string -> bool) {
    forall item :: item in items ==> item.key != "" && (IsManifest(item.key) ==> valid(item.digest))
  }

  lemma ItemStaysValid(i: Image, item: Item, valid: string -> bool)
    requires AllValid(i.digest, i.bigDigests, valid)
    ensures var j := WithBigData(i, item.key, item.size, item.digest);
      AllValid(j.digest, j.bigDigests, valid) <==> (IsManifest(item.key) ==> valid(item.digest))
  {
    var j := WithBigData(i, item.key, item.size, item.digest);
    assert item.key in j.bigDigests;
  }

  lemma RecomputedStaysValid(i: Image, r: Image, valid: string -> bool)
    requires Recomputed(i, r) && AllValid(i.digest, i.bigDigests, valid)
    ensures AllValid(r.digest, r.bigDigests, valid)
  {
    if r.digest != "" {
      assert r.digest in r.digests;
    }
  }

  function WithItems(i: Image, items: seq<Item>): (r: Image)
    ensures r.id == i.id && r.names == i.names && r.history == i.history
  {
    if items == [] then i
    else
      var last := items[|items| - 1];
      WithBigData(WithItems(i, items[..|items| - 1]), last.key, last.size, last.digest)
  }

  /** The item at `j` is the last one with its key. */
  ghost predicate LastWithKey(items: seq<Item>, j: nat) {
    j < |items| && forall m :: j < m < |items| ==> items[m].key != items[j].key
  }

  ghost predicate HasKey(items: seq<Item>, key: string) {
    exists item :: item in items && item.key == key
  }

  /** The image has big data under exactly the keys of `items`, each as the last item with the key has it. */
  ghost predicate HasItems(r: Image, items: seq<Item>) {
    && (forall k :: k in r.bigNames <==> HasKey(items, k))
    && (forall j: nat :: LastWithKey(items, j) ==> Holding(r, items[j]))
  }

  ghost predicate Holding(r: Image, item: Item) {
    && item.key in r.bigSizes && r.bigSizes[item.key] == item.size
    && item.key in r.bigDigests && r.bigDigests[item.key] == item.digest
  }

  lemma HoldingOneMore(r: Image, rest: seq<Item>, last: Item, j: nat)
    requires HasItems(r, rest) && LastWithKey(rest + [last], j)
    ensures Holding(WithBigData(r, last.key, last.size, last.digest), (rest + [last])[j])
  {
    if j < |rest| {
      assert (rest + [last])[|rest|].key == last.key;
      assert forall m :: j < m < |rest| ==> (rest + [last])[m] == rest[m];
      assert LastWithKey(rest, j);
    }
  }

  lemma HasKeyOneMore(items: seq<Item>, key: string)
    requires items != []
    ensures HasKey(items, key) <==> HasKey(items[..|items| - 1], key) || items[|items| - 1].key == key
  {
    assert items == items[..|items| - 1] + [items[|items| - 1]];
  }

  lemma {:induction false} WithItemsHas(i: Image, items: seq<Item>)
    requires i.bigNames == []
    ensures HasItems(WithItems(i, items), items)
  {
    if items != [] {
      var rest, last := items[..|items| - 1], items[|items| - 1];
      WithItemsHas(i, rest);
      var r := WithItems(i, items);
      forall k
        ensures k in r.bigNames <==> HasKey(items, k)
      {
        HasKeyOneMore(items, k);
      }
      assert items == rest + [last];
      forall j: nat | LastWithKey(items, j)
        ensures Holding(r, items[j])
      {
        HoldingOneMore(WithItems(i, rest), rest, last, j);
      }
    }
  }

  lemma StoredHasItems(i: Image, items: seq<Item>, r: Image)
    requires Stored(i, items, r) && i.bigNames == []
    ensures HasItems(r, items)
  {
    WithItemsHas(i, items);
  }

  /** The two records differ at most in their digests. */
  ghost predicate SameData(a: Image, b: Image) {
    a == b.(digest := a.digest, digests := a.digests)
  }

  /** `r` is image `i` after the big data items were stored, its digests in order. */
  ghost predicate Stored(i: Image, items: seq<Item>, r: Image) {
    SameData(r, WithItems(i, items)) && Recomputed(r, r) && (i.digest != "" ==> r.digest == i.digest)
  }

  lemma StoredOneMore(i: Image, items: seq<Item>, k: nat, r: Image, next: Image)
    requires k < |items| && Stored(i, items[..k], r)
    requires Recomputed(WithBigData(r, items[k].key, items[k].size, items[k].digest), next)
    ensures Stored(i, items[..k + 1], next)
  {
    assert items[..k + 1][..k] == items[..k];
    RecomputedIsSettled(WithBigData(r, items[k].key, items[k].size, items[k].digest), next);
  }

  lemma {:induction false} ItemsIgnoreDigests(a: Image, b: Image, items: seq<Item>)
    requires SameData(a, b)
    ensures SameData(WithItems(a, items), WithItems(b, items))
  {
    if items != [] {
      ItemsIgnoreDigests(a, b, items[..|items| - 1]);
    }
  }

  lemma StoredOnRecomputed(blank: Image, i: Image, items: seq<Item>, r: Image)
    requires Recomputed(blank, i) && Stored(i, items, r)
    ensures Stored(blank, items, r)
  {
    ItemsIgnoreDigests(i, blank, items);
  }

  // ---- What is saved is what is loaded

  /** The digests of every image are what recomputing them would give. */
  ghost predicate Settled(byid: map<string, Image>) {
    forall id :: id in byid ==> Recomputed(byid[id], byid[id])
  }

  lemma StaysSettledWithout(byid: map<string, Image>, id: string)
    ensures Settled(byid) ==> Settled(byid - {id})
  {
  }

  lemma StaysSettled(a: map<string, Image>, b: map<string, Image>, id: string)
    requires OnlyChanged(a, b, id) && Recomputed(b[id], b[id])
    ensures Settled(a) ==> Settled(b)
  {
  }

  lemma LoadsSettle(file: seq<Image>, ids: seq<string>, byid: map<string, Image>)
    requires Loads(file, ids, byid)
    ensures Settled(byid)
  {
    forall id | id in byid
      ensures Recomputed(byid[id], byid[id])
    {
      var i :| 0 <= i < |ids| && ids[i] == id;
      RecomputedIsSettled(file[i].(names := Resolved(NamesIn(file))[i]), byid[id]);
    }
  }

  lemma RecomputedIsSettled(i: Image, r: Image)
    requires Recomputed(i, r)
    ensures Recomputed(r, r)
  {
    forall d
      ensures Identifies(r.digest, r.bigDigests, d) <==> d in r.digests
    {
      assert d in r.digests <==> Identifies(i.digest, i.bigDigests, d);
    }
  }

  lemma RenamedSettled(byid: map<string, Image>, id: string, names: seq<string>)
    ensures Settled(byid) ==> Settled(Renamed(byid, id, names))
  {
    forall x | x in byid && Recomputed(byid[x], byid[x])
      ensures Recomputed(Renamed(byid, id, names)[x], Renamed(byid, id, names)[x])
    {
    }
  }

  /** Loading the file that was saved needs no repair and gives the images back. */
  lemma SavedReloads(file: seq<Image>, ids: seq<string>, byid: map<string, Image>, byname: map<string, string>)
    requires ListsAll(ids, byid) && NamesAgree(byname, byid) && Settled(byid)
    requires |file| == |ids| && forall i :: 0 <= i < |file| ==> file[i] == OnDisk(byid[ids[i]])
    ensures DistinctIds(file) && !Clash(file) && Loads(file, ids, byid)
  {
    var ns := NamesIn(file);
    forall i, j, x | 0 <= i < j < |ns| && x in ns[i]
      ensures x !in ns[j]
    {
      assert Named(byid, ids[i], x) && Leads(byname, x, ids[i]);
      assert Named(byid, ids[j], x) <==> Leads(byname, x, ids[j]);
    }
    UniqueIsResolved(ns);
  }
}
