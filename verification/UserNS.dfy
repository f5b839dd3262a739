/** Automatic user namespaces: which host ids a container gets (storage/userns.go). */
module UserNS {
  import opened Common
  import opened IDSets

  ghost function Hosts(maps: seq<IDMap>): seq<int> {
    seq(|Pairs(maps)|, k requires 0 <= k < |Pairs(maps)| => Pairs(maps)[k].0)
  }

  ghost function Containers(maps: seq<IDMap>): seq<int> {
    seq(|Pairs(maps)|, k requires 0 <= k < |Pairs(maps)| => Pairs(maps)[k].1)
  }

  lemma {:induction false} PairsSplit(maps: seq<IDMap>, i: nat)
    requires i < |maps|
    ensures |Pairs(maps[..i])| + |MapPairs(maps[i])| <= |Pairs(maps)|
    ensures forall k :: 0 <= k < |MapPairs(maps[i])| ==> Pairs(maps)[|Pairs(maps[..i])| + k] == MapPairs(maps[i])[k]
    decreases |maps|
  {
    var rest := maps[..|maps| - 1];
    if i < |rest| {
      PairsSplit(rest, i);
      assert rest[..i] == maps[..i];
    }
  }

  lemma {:induction false} PairsComeFromMaps(maps: seq<IDMap>, n: nat) returns (i: nat, k: nat)
    requires n < |Pairs(maps)|
    ensures i < |maps| && k < |MapPairs(maps[i])| && Pairs(maps)[n] == MapPairs(maps[i])[k]
  {
    var rest := maps[..|maps| - 1];
    if n < |Pairs(rest)| {
      i, k := PairsComeFromMaps(rest, n);
    } else {
      i, k := |maps| - 1, n - |Pairs(rest)|;
    }
  }

  lemma PairsAreCovered(maps: seq<IDMap>, n: nat)
    requires n < |Pairs(maps)|
    ensures Member(HostIntervals(maps), Pairs(maps)[n].0) && Member(ContainerIntervals(maps), Pairs(maps)[n].1)
  {
    var i, k := PairsComeFromMaps(maps, n);
    assert HostIntervals(maps)[i].Has(Pairs(maps)[n].0) && ContainerIntervals(maps)[i].Has(Pairs(maps)[n].1);
  }

  lemma CoveredHostsArePaired(maps: seq<IDMap>, x: int)
    requires Member(HostIntervals(maps), x)
    ensures x in Hosts(maps)
  {
    var i :| 0 <= i < |maps| && HostIntervals(maps)[i].Has(x);
    PairsSplit(maps, i);
    var k := x - maps[i].hostID;
    assert MapPairs(maps[i])[k].0 == x;
    assert Hosts(maps)[|Pairs(maps[..i])| + k] == x;
  }

  lemma CoveredContainersArePaired(maps: seq<IDMap>, x: int)
    requires Member(ContainerIntervals(maps), x)
    ensures x in Containers(maps)
  {
    var i :| 0 <= i < |maps| && ContainerIntervals(maps)[i].Has(x);
    PairsSplit(maps, i);
    var k := x - maps[i].containerID;
    assert MapPairs(maps[i])[k].1 == x;
    assert Containers(maps)[|Pairs(maps[..i])| + k] == x;
  }

  /** The ids a list of mappings covers are the ids of its intervals. */
  lemma PairsCoverIntervals(maps: seq<IDMap>, x: int)
    ensures x in Hosts(maps) <==> Member(HostIntervals(maps), x)
    ensures x in Containers(maps) <==> Member(ContainerIntervals(maps), x)
  {
    forall n | 0 <= n < |Pairs(maps)|
      ensures Member(HostIntervals(maps), Pairs(maps)[n].0) && Member(ContainerIntervals(maps), Pairs(maps)[n].1)
    {
      PairsAreCovered(maps, n);
    }
    if Member(HostIntervals(maps), x) {
      CoveredHostsArePaired(maps, x);
    }
    if Member(ContainerIntervals(maps), x) {
      CoveredContainersArePaired(maps, x);
    }
  }

  lemma PairsGrow(maps: seq<IDMap>, i: nat, j: nat)
    requires i < j <= |maps|
    ensures |Pairs(maps[..i])| + |MapPairs(maps[i])| <= |Pairs(maps[..j])|
  {
    PairsSplit(maps[..j], i);
    assert maps[..j][..i] == maps[..i];
  }

  /** Mappings that list their ids in ascending order never overlap. */
  lemma HostsAreApart(maps: seq<IDMap>, i: nat, j: nat, x: int, y: int)
    requires Ascending(Hosts(maps)) && i < j < |maps|
    requires HostInterval(maps[i]).Has(x) && HostInterval(maps[j]).Has(y)
    ensures x < y
  {
    PairsSplit(maps, i);
    PairsSplit(maps, j);
    PairsGrow(maps, i, j);
    assert Hosts(maps)[|Pairs(maps[..i])| + (x - maps[i].hostID)] == MapPairs(maps[i])[x - maps[i].hostID].0 == x;
    assert Hosts(maps)[|Pairs(maps[..j])| + (y - maps[j].hostID)] == MapPairs(maps[j])[y - maps[j].hostID].0 == y;
  }

  lemma ContainersAreApart(maps: seq<IDMap>, i: nat, j: nat, x: int, y: int)
    requires Ascending(Containers(maps)) && i < j < |maps|
    requires ContainerInterval(maps[i]).Has(x) && ContainerInterval(maps[j]).Has(y)
    ensures x < y
  {
    PairsSplit(maps, i);
    PairsSplit(maps, j);
    PairsGrow(maps, i, j);
    assert Containers(maps)[|Pairs(maps[..i])| + (x - maps[i].containerID)] == MapPairs(maps[i])[x - maps[i].containerID].1 == x;
    assert Containers(maps)[|Pairs(maps[..j])| + (y - maps[j].containerID)] == MapPairs(maps[j])[y - maps[j].containerID].1 == y;
  }

  lemma AscendingIsDisjoint(maps: seq<IDMap>)
    requires Ascending(Hosts(maps)) && Ascending(Containers(maps))
    ensures Disjoint(maps)
  {
    forall i, j | 0 <= i < j < |maps|
      ensures !Overlap(HostInterval(maps[i]), HostInterval(maps[j]))
      ensures !Overlap(ContainerInterval(maps[i]), ContainerInterval(maps[j]))
    {
      forall x | HostInterval(maps[i]).Has(x) && HostInterval(maps[j]).Has(x) {
        HostsAreApart(maps, i, j, x, x);
      }
      forall x | ContainerInterval(maps[i]).Has(x) && ContainerInterval(maps[j]).Has(x) {
        ContainersAreApart(maps, i, j, x, x);
      }
    }
  }

  /** The available host ids that neither a live container nor an additional mapping uses. */
  ghost function FreeIds(available: IDSet, used: seq<IDMap>, extra: seq<IDMap>): set<int> {
    set x | x in SetOf(available) && !Member(HostIntervals(used + extra), x)
  }

  /** The container ids below `size` that no additional mapping provides. */
  ghost function WantedIds(size: int, extra: seq<IDMap>): set<int> {
    set x | 0 <= x < size && !Member(ContainerIntervals(extra), x)
  }

  /** `auto` maps exactly the wanted container ids, in order, to the smallest free host ids, in order. */
  ghost predicate Allocates(size: int, available: IDSet, used: seq<IDMap>, extra: seq<IDMap>, auto: seq<IDMap>) {
    && Ascending(Containers(auto))
    && Ascending(Hosts(auto))
    && Elements(Containers(auto)) == WantedIds(size, extra)
    && Elements(Hosts(auto)) <= FreeIds(available, used, extra)
    && (forall x, y :: x in Hosts(auto) && y in FreeIds(available, used, extra) && y !in Hosts(auto) ==> x < y)
  }

  ghost predicate TooFew(size: int, available: IDSet, used: seq<IDMap>, extra: seq<IDMap>) {
    |FreeIds(available, used, extra)| < |WantedIds(size, extra)|
  }

  function Free(available: IDSet, used: seq<IDMap>, extra: seq<IDMap>): IDSet {
    Subtract(available, NewIDSet(HostIntervals(used + extra)))
  }

  function Wanted(size: int, extra: seq<IDMap>): IDSet {
    Subtract(NewIDSet([Interval(0, size)]), NewIDSet(ContainerIntervals(extra)))
  }

  lemma FreeIsFreeIds(available: IDSet, used: seq<IDMap>, extra: seq<IDMap>)
    requires WellFormed(available)
    ensures WellFormed(Free(available, used, extra))
    ensures SetOf(Free(available, used, extra)) == FreeIds(available, used, extra)
  {
    NewIDSetUnites(HostIntervals(used + extra));
    SubtractRemoves(available, NewIDSet(HostIntervals(used + extra)));
    assert forall x :: x in SetOf(Free(available, used, extra)) <==> x in FreeIds(available, used, extra);
  }

  lemma WantedIsWantedIds(size: int, extra: seq<IDMap>)
    ensures WellFormed(Wanted(size, extra))
    ensures SetOf(Wanted(size, extra)) == WantedIds(size, extra)
  {
    var target := [Interval(0, size)];
    NewIDSetUnites(target);
    NewIDSetUnites(ContainerIntervals(extra));
    SubtractRemoves(NewIDSet(target), NewIDSet(ContainerIntervals(extra)));
    assert forall x :: Member(target, x) <==> target[0].Has(x);
  }

  lemma FirstAreLeast(s: seq<int>, n: nat, x: int, y: int)
    requires Ascending(s) && n <= |s| && x in s[..n] && y in s && y !in s[..n]
    ensures x < y
  {
    var i :| 0 <= i < n && s[..n][i] == x;
    var j :| 0 <= j < |s| && s[j] == y;
    assert forall k :: 0 <= k < n ==> s[k] in s[..n];
  }

  lemma ZipAllocates(size: int, available: IDSet, used: seq<IDMap>, extra: seq<IDMap>, chosen: IDSet, auto: seq<IDMap>)
    requires WellFormed(available)
    requires |Ids(Wanted(size, extra))| <= |Ids(Free(available, used, extra))|
    requires Ids(chosen) == Take(Ids(Free(available, used, extra)), |Ids(Wanted(size, extra))|)
    requires Pairs(auto) == ZipSeq(Ids(chosen), Ids(Wanted(size, extra)))
    ensures Allocates(size, available, used, extra, auto)
  {
    var free, wanted := Ids(Free(available, used, extra)), Ids(Wanted(size, extra));
    FreeIsFreeIds(available, used, extra);
    WantedIsWantedIds(size, extra);
    IdsAscend(Free(available, used, extra));
    IdsAscend(Wanted(size, extra));
    assert Ids(chosen) == free[..|wanted|];
    assert Containers(auto) == wanted;
    assert Hosts(auto) == free[..|wanted|];
    forall x
      ensures x in free <==> x in FreeIds(available, used, extra)
      ensures x in wanted <==> x in WantedIds(size, extra)
    {
      IdsAreMembers(Free(available, used, extra), x);
      IdsAreMembers(Wanted(size, extra), x);
    }
    forall x, y | x in Hosts(auto) && y in FreeIds(available, used, extra) && y !in Hosts(auto)
      ensures x < y
    {
      FirstAreLeast(free, |wanted|, x, y);
    }
  }

  /** UID and GID mappings for a new namespace; nothing when too few ids are free.
      A set the system could not provide is the empty list here. */
  method GetAutoUserNSIDMappings(size: int, availableUIDs: IDSet, availableGIDs: IDSet,
                                 usedUIDs: seq<IDMap>, usedGIDs: seq<IDMap>, extraUIDs: seq<IDMap>, extraGIDs: seq<IDMap>)
    returns (r: Option<(seq<IDMap>, seq<IDMap>)>)
    requires WellFormed(availableUIDs) && WellFormed(availableGIDs)
    ensures r.None? <==> TooFew(size, availableUIDs, usedUIDs, extraUIDs) || TooFew(size, availableGIDs, usedGIDs, extraGIDs)
    ensures r.Some? ==> exists auto ::
      r.value.0 == auto + extraUIDs && Allocates(size, availableUIDs, usedUIDs, extraUIDs, auto)
    ensures r.Some? ==> exists auto ::
      r.value.1 == auto + extraGIDs && Allocates(size, availableGIDs, usedGIDs, extraGIDs, auto)
  {
    FreeSizes(size, availableUIDs, usedUIDs, extraUIDs);
    FreeSizes(size, availableGIDs, usedGIDs, extraGIDs);
    var wantedUIDs, wantedGIDs := Wanted(size, extraUIDs), Wanted(size, extraGIDs);
    var uidCount := Size(wantedUIDs);
    var uids := FindAvailable(Free(availableUIDs, usedUIDs, extraUIDs), uidCount);
    if uids.None? {
      return None;
    }
    var gidCount := Size(wantedGIDs);
    var gids := FindAvailable(Free(availableGIDs, usedGIDs, extraGIDs), gidCount);
    if gids.None? {
      return None;
    }
    var uidMap := Zip(uids.value, wantedUIDs);
    var gidMap := Zip(gids.value, wantedGIDs);
    ZipAllocates(size, availableUIDs, usedUIDs, extraUIDs, uids.value, uidMap);
    ZipAllocates(size, availableGIDs, usedGIDs, extraGIDs, gids.value, gidMap);
    r := Some((uidMap + extraUIDs, gidMap + extraGIDs));
  }

  lemma FreeSizes(size: int, available: IDSet, used: seq<IDMap>, extra: seq<IDMap>)
    requires WellFormed(available)
    ensures WellFormed(Free(available, used, extra)) && WellFormed(Wanted(size, extra))
    ensures TooFew(size, available, used, extra) <==>
      |Ids(Free(available, used, extra))| < |Ids(Wanted(size, extra))|
  {
    FreeIsFreeIds(available, used, extra);
    WantedIsWantedIds(size, extra);
    SizeOfSet(Free(available, used, extra));
    SizeOfSet(Wanted(size, extra));
  }

  // ---- What a successful allocation means for the container

  lemma {:induction false} PairsConcat(a: seq<IDMap>, b: seq<IDMap>)
    ensures Pairs(a + b) == Pairs(a) + Pairs(b)
    decreases |b|
  {
    if b == [] {
      assert a + b == a;
    } else {
      PairsConcat(a, b[..|b| - 1]);
      assert (a + b)[..|a + b| - 1] == a + b[..|b| - 1];
    }
  }

  /** The container ids of a namespace are [0, size) and the additional ids. */
  lemma NamespaceCovers(size: int, available: IDSet, used: seq<IDMap>, extra: seq<IDMap>, auto: seq<IDMap>, x: int)
    requires Allocates(size, available, used, extra, auto)
    ensures x in Containers(auto + extra) <==> 0 <= x < size || x in Containers(extra)
  {
    PairsCoverIntervals(extra, x);
    PairsConcat(auto, extra);
    assert Containers(auto + extra) == Containers(auto) + Containers(extra);
    assert x in Containers(auto) <==> x in WantedIds(size, extra);
  }

  lemma OverlapMeansShared(a: seq<IDMap>, b: seq<IDMap>, i: nat, j: nat)
    requires i < |a| && j < |b|
    requires Elements(Hosts(a)) !! Elements(Hosts(b)) && Elements(Containers(a)) !! Elements(Containers(b))
    ensures !Overlap(HostInterval(a[i]), HostInterval(b[j])) && !Overlap(ContainerInterval(a[i]), ContainerInterval(b[j]))
  {
    forall x | HostInterval(a[i]).Has(x)
      ensures !HostInterval(b[j]).Has(x)
    {
      PairsCoverIntervals(a, x);
      PairsCoverIntervals(b, x);
      assert HostIntervals(a)[i].Has(x) && HostInterval(b[j]) == HostIntervals(b)[j];
      assert x in Elements(Hosts(a)) && x !in Elements(Hosts(b));
    }
    forall x | ContainerInterval(a[i]).Has(x)
      ensures !ContainerInterval(b[j]).Has(x)
    {
      PairsCoverIntervals(a, x);
      PairsCoverIntervals(b, x);
      assert ContainerIntervals(a)[i].Has(x) && ContainerInterval(b[j]) == ContainerIntervals(b)[j];
      assert x in Elements(Containers(a)) && x !in Elements(Containers(b));
    }
  }

  /** Automatic mappings share neither host ids nor container ids with the additional ones, nor host ids with live containers. */
  lemma AutoKeepsClear(size: int, available: IDSet, used: seq<IDMap>, extra: seq<IDMap>, auto: seq<IDMap>)
    requires Allocates(size, available, used, extra, auto)
    ensures Elements(Hosts(auto)) !! Elements(Hosts(extra)) && Elements(Hosts(auto)) !! Elements(Hosts(used))
    ensures Elements(Containers(auto)) !! Elements(Containers(extra))
  {
    forall x | x in Hosts(extra) || x in Hosts(used)
      ensures x !in Hosts(auto)
    {
      PairsCoverIntervals(used + extra, x);
      PairsConcat(used, extra);
      assert Hosts(used + extra) == Hosts(used) + Hosts(extra);
      assert x !in FreeIds(available, used, extra);
    }
    forall x | x in Containers(extra)
      ensures x !in Containers(auto)
    {
      PairsCoverIntervals(extra, x);
      assert x !in WantedIds(size, extra);
    }
  }

  /** A namespace is refused for conflicting mappings exactly when the additional mappings conflict among themselves. */
  lemma ConflictsAreTheCallers(size: int, available: IDSet, used: seq<IDMap>, extra: seq<IDMap>, auto: seq<IDMap>)
    requires Allocates(size, available, used, extra, auto)
    ensures Disjoint(auto + extra) <==> Disjoint(extra)
  {
    var all := auto + extra;
    AutoKeepsClear(size, available, used, extra, auto);
    AscendingIsDisjoint(auto);
    if Disjoint(extra) {
      forall i, j | 0 <= i < j < |all|
        ensures !Overlap(HostInterval(all[i]), HostInterval(all[j]))
        ensures !Overlap(ContainerInterval(all[i]), ContainerInterval(all[j]))
      {
        if i < |auto| <= j {
          OverlapMeansShared(auto, extra, i, j - |auto|);
        }
      }
    }
    if Disjoint(all) {
      forall i, j | 0 <= i < j < |extra|
        ensures !Overlap(HostInterval(extra[i]), HostInterval(extra[j]))
        ensures !Overlap(ContainerInterval(extra[i]), ContainerInterval(extra[j]))
      {
        assert all[|auto| + i] == extra[i] && all[|auto| + j] == extra[j];
      }
    }
  }

  // ---- Runs of container creations and deletions under the userns lock

  /** What the container store remembers: the automatic part of the mappings and the part the caller gave. */
  datatype Namespace = Namespace(autoUIDs: seq<IDMap>, extraUIDs: seq<IDMap>, autoGIDs: seq<IDMap>, extraGIDs: seq<IDMap>)

  type Live = map<string, Namespace>

  function UIDsOf(ns: Namespace): seq<IDMap> {
    ns.autoUIDs + ns.extraUIDs
  }

  function GIDsOf(ns: Namespace): seq<IDMap> {
    ns.autoGIDs + ns.extraGIDs
  }

  /** `uids` and `gids` list the mappings of the live containers, and no others, in some order. */
  ghost predicate Lists(live: Live, uids: seq<IDMap>, gids: seq<IDMap>) {
    && (forall m :: m in uids <==> exists c :: c in live && m in UIDsOf(live[c]))
    && (forall m :: m in gids <==> exists c :: c in live && m in GIDsOf(live[c]))
  }

  /** Some live container has host id `x`. */
  ghost predicate UsesUID(live: Live, x: int) {
    exists c :: c in live && x in Hosts(UIDsOf(live[c]))
  }

  ghost predicate UsesGID(live: Live, x: int) {
    exists c :: c in live && x in Hosts(GIDsOf(live[c]))
  }

  /** Fewer available uids than the namespace needs are left by the live containers and the additional mappings. */
  ghost predicate ShortOfUIDs(live: Live, size: int, available: IDSet, extra: seq<IDMap>) {
    |set x | x in SetOf(available) && !UsesUID(live, x) && x !in Hosts(extra)| < |WantedIds(size, extra)|
  }

  ghost predicate ShortOfGIDs(live: Live, size: int, available: IDSet, extra: seq<IDMap>) {
    |set x | x in SetOf(available) && !UsesGID(live, x) && x !in Hosts(extra)| < |WantedIds(size, extra)|
  }

  lemma HostsOfAll(maps: seq<IDMap>, x: int)
    ensures x in Hosts(maps) <==> exists m :: m in maps && HostInterval(m).Has(x)
  {
    PairsCoverIntervals(maps, x);
    if m :| m in maps && HostInterval(m).Has(x) {
      var i :| 0 <= i < |maps| && maps[i] == m;
      assert HostIntervals(maps)[i].Has(x);
    }
    if Member(HostIntervals(maps), x) {
      var i :| 0 <= i < |maps| && HostIntervals(maps)[i].Has(x);
      assert maps[i] in maps;
    }
  }

  lemma ListedUIDs(live: Live, uids: seq<IDMap>, gids: seq<IDMap>, x: int)
    requires Lists(live, uids, gids)
    ensures x in Hosts(uids) <==> UsesUID(live, x)
  {
    HostsOfAll(uids, x);
    if m :| m in uids && HostInterval(m).Has(x) {
      var c :| c in live && m in UIDsOf(live[c]);
      HostsOfAll(UIDsOf(live[c]), x);
    }
    if c :| c in live && x in Hosts(UIDsOf(live[c])) {
      HostsOfAll(UIDsOf(live[c]), x);
    }
  }

  lemma ListedGIDs(live: Live, uids: seq<IDMap>, gids: seq<IDMap>, x: int)
    requires Lists(live, uids, gids)
    ensures x in Hosts(gids) <==> UsesGID(live, x)
  {
    HostsOfAll(gids, x);
    if m :| m in gids && HostInterval(m).Has(x) {
      var c :| c in live && m in GIDsOf(live[c]);
      HostsOfAll(GIDsOf(live[c]), x);
    }
    if c :| c in live && x in Hosts(GIDsOf(live[c])) {
      HostsOfAll(GIDsOf(live[c]), x);
    }
  }

  lemma FreeOfBoth(available: IDSet, used: seq<IDMap>, extra: seq<IDMap>, x: int)
    ensures x in FreeIds(available, used, extra) <==> x in SetOf(available) && x !in Hosts(used) && x !in Hosts(extra)
  {
    PairsCoverIntervals(used + extra, x);
    PairsConcat(used, extra);
    assert Hosts(used + extra) == Hosts(used) + Hosts(extra);
  }

  /** Listing the live containers' mappings, too few ids are free exactly if the live containers leave too few. */
  lemma TooFewMeansShort(live: Live, uids: seq<IDMap>, gids: seq<IDMap>, size: int, available: IDSet, extra: seq<IDMap>)
    requires Lists(live, uids, gids)
    ensures TooFew(size, available, uids, extra) <==> ShortOfUIDs(live, size, available, extra)
    ensures TooFew(size, available, gids, extra) <==> ShortOfGIDs(live, size, available, extra)
  {
    forall x
      ensures x in FreeIds(available, uids, extra) <==> x in SetOf(available) && !UsesUID(live, x) && x !in Hosts(extra)
      ensures x in FreeIds(available, gids, extra) <==> x in SetOf(available) && !UsesGID(live, x) && x !in Hosts(extra)
    {
      ListedUIDs(live, uids, gids, x);
      ListedGIDs(live, uids, gids, x);
      FreeOfBoth(available, uids, extra, x);
      FreeOfBoth(available, gids, extra, x);
    }
    assert FreeIds(available, uids, extra) == set x | x in SetOf(available) && !UsesUID(live, x) && x !in Hosts(extra);
    assert FreeIds(available, gids, extra) == set x | x in SetOf(available) && !UsesGID(live, x) && x !in Hosts(extra);
  }

  datatype Event =
    | Auto(id: string, size: int, usedUIDs: seq<IDMap>, usedGIDs: seq<IDMap>, ns: Namespace)
    | Explicit(id: string, uids: seq<IDMap>, gids: seq<IDMap>)
    | Delete(id: string)

  ghost predicate Step(uids: IDSet, gids: IDSet, live: Live, e: Event, live': Live) {
    match e
    case Auto(id, size, usedUIDs, usedGIDs, ns) =>
      && id !in live
      && Lists(live, usedUIDs, usedGIDs)
      && Allocates(size, uids, usedUIDs, ns.extraUIDs, ns.autoUIDs)
      && Allocates(size, gids, usedGIDs, ns.extraGIDs, ns.autoGIDs)
      && live' == live[id := ns]
    case Explicit(id, us, gs) => id !in live && live' == live[id := Namespace([], us, [], gs)]
    case Delete(id) => live' == live - {id}
  }

  ghost predicate Apart(a: seq<IDMap>, b: seq<IDMap>) {
    Elements(Hosts(a)) !! Elements(Hosts(b))
  }

  /** Automatically chosen host ids belong to one live container, and come from the available ids. */
  ghost predicate Exclusive(uids: IDSet, gids: IDSet, live: Live) {
    && (forall c, d :: c in live && d in live && c != d ==>
          Apart(live[c].autoUIDs, live[d].autoUIDs) && Apart(live[c].autoGIDs, live[d].autoGIDs))
    && (forall c :: c in live ==>
          Elements(Hosts(live[c].autoUIDs)) <= SetOf(uids) && Elements(Hosts(live[c].autoGIDs)) <= SetOf(gids))
  }

  lemma HostsOfSubset(a: seq<IDMap>, b: seq<IDMap>, x: int)
    requires (forall m :: m in a ==> m in b) && x in Hosts(a)
    ensures x in Hosts(b)
  {
    PairsCoverIntervals(a, x);
    PairsCoverIntervals(b, x);
    var i :| 0 <= i < |a| && HostIntervals(a)[i].Has(x);
    assert a[i] in b;
    var j :| 0 <= j < |b| && b[j] == a[i];
    assert HostIntervals(b)[j].Has(x);
  }

  lemma NewIsApart(size: int, available: IDSet, used: seq<IDMap>, extra: seq<IDMap>, auto: seq<IDMap>, theirs: seq<IDMap>)
    requires Allocates(size, available, used, extra, auto) && forall m :: m in theirs ==> m in used
    ensures Apart(auto, theirs)
  {
    AutoKeepsClear(size, available, used, extra, auto);
    forall x | x in Hosts(theirs)
      ensures x in Elements(Hosts(used))
    {
      HostsOfSubset(theirs, used, x);
    }
  }

  lemma StepKeepsExclusive(uids: IDSet, gids: IDSet, live: Live, e: Event, live': Live)
    requires Exclusive(uids, gids, live) && Step(uids, gids, live, e, live')
    ensures Exclusive(uids, gids, live')
  {
    if e.Auto? {
      forall d | d in live
        ensures Apart(e.ns.autoUIDs, live[d].autoUIDs) && Apart(e.ns.autoGIDs, live[d].autoGIDs)
      {
        assert forall m :: m in live[d].autoUIDs ==> m in UIDsOf(live[d]);
        assert forall m :: m in live[d].autoGIDs ==> m in GIDsOf(live[d]);
        NewIsApart(e.size, uids, e.usedUIDs, e.ns.extraUIDs, e.ns.autoUIDs, live[d].autoUIDs);
        NewIsApart(e.size, gids, e.usedGIDs, e.ns.extraGIDs, e.ns.autoGIDs, live[d].autoGIDs);
      }
    } else if e.Explicit? {
      assert Hosts([]) == [];
    }
  }

  ghost predicate IsRun(uids: IDSet, gids: IDSet, states: seq<Live>, events: seq<Event>) {
    && |states| == |events| + 1
    && states[0] == map[]
    && forall k :: 0 <= k < |events| ==> Step(uids, gids, states[k], events[k], states[k + 1])
  }

  /** In every run no host id chosen automatically ever serves two live containers. */
  lemma {:induction false} RunKeepsExclusive(uids: IDSet, gids: IDSet, states: seq<Live>, events: seq<Event>, k: nat)
    requires IsRun(uids, gids, states, events) && k < |states|
    ensures Exclusive(uids, gids, states[k])
  {
    if k > 0 {
      RunKeepsExclusive(uids, gids, states, events, k - 1);
      StepKeepsExclusive(uids, gids, states[k - 1], events[k - 1], states[k]);
    }
  }

  datatype Outcome = Created | TooLarge | NoAvailableIDs | DuplicateID | InvalidMappings

  /** What the caller and the configuration say about the size of a namespace; 0 means not given. */
  datatype SizeRequest = SizeRequest(requested: nat, initial: nat, minimum: nat, maximum: nat, fromImage: Option<nat>) {

    ghost predicate IsSize(n: int) {
      if requested > 0 then n == requested
      else
        && n >= minimum && n >= 1 && n >= initial && (fromImage.Some? ==> n >= fromImage.value)
        && (n == minimum || n == 1 || n == initial || fromImage == Some(n))
    }

    /** A size that was not requested may not be larger than configured. */
    ghost predicate Exceeds(n: int) {
      requested == 0 && maximum > 0 && n > maximum
    }
  }

  /** The automatic side of CreateContainer, and the namespaces the container store remembers. */
  class Namespaces {
    const uids: IDSet
    const gids: IDSet
    var live: Live

    ghost predicate Valid()
      reads this
    {
      WellFormed(uids) && WellFormed(gids) && Exclusive(uids, gids, live)
    }

    constructor (uids: IDSet, gids: IDSet)
      requires WellFormed(uids) && WellFormed(gids)
      ensures Valid() && live == map[] && this.uids == uids && this.gids == gids
    {
      this.uids, this.gids, this.live := uids, gids, map[];
    }

    /** The mappings of all live containers, one container after the other. */
    method Used() returns (usedUIDs: seq<IDMap>, usedGIDs: seq<IDMap>)
      ensures Lists(live, usedUIDs, usedGIDs)
    {
      usedUIDs, usedGIDs := [], [];
      var todo := live.Keys;
      while todo != {}
        invariant todo <= live.Keys
        invariant forall m :: m in usedUIDs <==> exists c :: c in live && c !in todo && m in UIDsOf(live[c])
        invariant forall m :: m in usedGIDs <==> exists c :: c in live && c !in todo && m in GIDsOf(live[c])
      {
        var c :| c in todo;
        usedUIDs := usedUIDs + UIDsOf(live[c]);
        usedGIDs := usedGIDs + GIDsOf(live[c]);
        todo := todo - {c};
      }
    }

    method PickSize(q: SizeRequest) returns (size: nat, ok: bool)
      ensures q.IsSize(size)
      ensures !ok <==> q.Exceeds(size)
    {
      size, ok := q.requested, true;
      if q.requested == 0 {
        var initial := if q.initial > 0 then q.initial else 1;
        size := if q.minimum < initial then initial else q.minimum;
        if q.fromImage.Some? && q.fromImage.value > size {
          size := q.fromImage.value;
        }
        ok := !(q.maximum > 0 && size > q.maximum);
      }
    }

    /** Why a container cannot be created, if it cannot. */
    ghost function Verdict(id: string, q: SizeRequest, size: int, extraUIDs: seq<IDMap>, extraGIDs: seq<IDMap>): Outcome
      reads this
    {
      if q.Exceeds(size) then TooLarge
      else if ShortOfUIDs(live, size, uids, extraUIDs) || ShortOfGIDs(live, size, gids, extraGIDs) then NoAvailableIDs
      else if id in live then DuplicateID
      else if !Disjoint(extraUIDs) || !Disjoint(extraGIDs) then InvalidMappings
      else Created
    }

    /** Chooses mappings and records the container. */
    method CreateAuto(id: string, q: SizeRequest, extraUIDs: seq<IDMap>, extraGIDs: seq<IDMap>)
      returns (outcome: Outcome, ghost size: int, ghost e: Event)
      requires Valid()
      modifies this`live
      ensures Valid() && q.IsSize(size)
      ensures outcome == old(Verdict(id, q, size, extraUIDs, extraGIDs))
      ensures outcome == Created ==>
        && Step(uids, gids, old(live), e, live)
        && e.Auto? && e.id == id && e.size == size && e.ns.extraUIDs == extraUIDs && e.ns.extraGIDs == extraGIDs
        && Disjoint(UIDsOf(e.ns)) && Disjoint(GIDsOf(e.ns)) && id !in old(live) && live == old(live)[id := e.ns]
      ensures outcome != Created ==> live == old(live)
    {
      e := Delete(id);
      var usedUIDs, usedGIDs := Used();
      var n, ok := PickSize(q);
      size := n;
      if !ok {
        return TooLarge, size, e;
      }
      TooFewMeansShort(live, usedUIDs, usedGIDs, n, uids, extraUIDs);
      TooFewMeansShort(live, usedUIDs, usedGIDs, n, gids, extraGIDs);
      var maps := GetAutoUserNSIDMappings(n, uids, gids, usedUIDs, usedGIDs, extraUIDs, extraGIDs);
      if maps.None? {
        return NoAvailableIDs, size, e;
      }
      if id in live {
        return DuplicateID, size, e;
      }
      var (uidMap, gidMap) := maps.value;
      var ns := Namespace(uidMap[..|uidMap| - |extraUIDs|], extraUIDs, gidMap[..|gidMap| - |extraGIDs|], extraGIDs);
      assert uidMap == UIDsOf(ns) && Allocates(n, uids, usedUIDs, extraUIDs, ns.autoUIDs);
      assert gidMap == GIDsOf(ns) && Allocates(n, gids, usedGIDs, extraGIDs, ns.autoGIDs);
      ConflictsAreTheCallers(n, uids, usedUIDs, extraUIDs, ns.autoUIDs);
      ConflictsAreTheCallers(n, gids, usedGIDs, extraGIDs, ns.autoGIDs);
      var conflicts := HasOverlappingRanges(uidMap);
      if conflicts != [] {
        return InvalidMappings, size, e;
      }
      conflicts := HasOverlappingRanges(gidMap);
      if conflicts != [] {
        return InvalidMappings, size, e;
      }
      e := Auto(id, n, usedUIDs, usedGIDs, ns);
      live := live[id := ns];
      StepKeepsExclusive(uids, gids, old(live), e, live);
      return Created, size, e;
    }
  }
}
