/** Image records and the pure parts of the image store (storage/images.go, storage/utils.go). */
module Images {
  import opened Common

  datatype Image = Image(
    id: string, names: seq<string>, history: seq<string>, digest: string, digests: seq<string>,
    bigNames: seq<string>, bigSizes: map<string, int>, bigDigests: map<string, string>)

  /** What images.json keeps of an image: everything but the list of digests. */
  function OnDisk(i: Image): Image {
    i.(digests := [])
  }

  // ---- Names

  /** The first occurrence of every name, in order. */
  function Dedupe(names: seq<string>): (r: seq<string>)
    ensures forall n :: n in r <==> n in names
    ensures Distinct(r)
  {
    if names == [] then []
    else
      var rest, last := Dedupe(names[..|names| - 1]), names[|names| - 1];
      assert names == names[..|names| - 1] + [last];
      if last in rest then rest else rest + [last]
  }

  /** The names of `names` that are not in `out`. */
  function Except(names: seq<string>, out: seq<string>): (r: seq<string>)
    ensures forall n :: n in r <==> n in names && n !in out
  {
    if names == [] then []
    else
      var last := names[|names| - 1];
      assert names == names[..|names| - 1] + [last];
      Except(names[..|names| - 1], out) + if last in out then [] else [last]
  }

  datatype NameOp = SetNames | RemoveNames | AddNames

  function NamesAfter(old_: seq<string>, params: seq<string>, op: NameOp): seq<string> {
    match op
    case SetNames => Dedupe(params)
    case RemoveNames => Dedupe(Except(old_, params))
    case AddNames => Dedupe(params + old_)
  }

  /** `x` occurs in `names` before `y` does. */
  ghost predicate Before(names: seq<string>, x: string, y: string) {
    exists p :: 0 <= p < |names| && names[p] == x && y !in names[..p + 1]
  }

  /** The names of `r` come in the order in which they first occur in `names`. */
  ghost predicate Ordered(names: seq<string>, r: seq<string>) {
    forall i, j :: 0 <= i < j < |r| ==> Before(names, r[i], r[j])
  }

  lemma BeforeGrows(names: seq<string>, more: seq<string>, x: string, y: string)
    requires Before(names, x, y)
    ensures Before(names + more, x, y)
  {
    var p :| 0 <= p < |names| && names[p] == x && y !in names[..p + 1];
    assert (names + more)[p] == x && (names + more)[..p + 1] == names[..p + 1];
  }

  lemma NewComesLast(names: seq<string>, x: string, y: string)
    requires x in names && y !in names
    ensures Before(names + [y], x, y)
  {
    var p :| 0 <= p < |names| && names[p] == x;
    assert names[..p + 1] <= names && y !in names[..p + 1];
    assert (names + [y])[p] == x && (names + [y])[..p + 1] == names[..p + 1];
  }

  lemma {:induction false} DedupeKeepsOrder(names: seq<string>)
    ensures Ordered(names, Dedupe(names))
  {
    if names != [] {
      var rest, last := names[..|names| - 1], names[|names| - 1];
      assert names == rest + [last];
      DedupeKeepsOrder(rest);
      var r := Dedupe(names);
      forall i, j | 0 <= i < j < |r|
        ensures Before(names, r[i], r[j])
      {
        if j < |Dedupe(rest)| {
          BeforeGrows(rest, [last], r[i], r[j]);
        } else {
          NewComesLast(rest, r[i], last);
        }
      }
    }
  }

  lemma {:induction false} ExceptKeepsOrder(names: seq<string>, out: seq<string>, x: string, y: string)
    requires Before(Except(names, out), x, y) && y !in out
    ensures Before(names, x, y)
  {
    var rest, last := names[..|names| - 1], names[|names| - 1];
    assert names == rest + [last];
    var all, some := Except(names, out), Except(rest, out);
    var p :| 0 <= p < |all| && all[p] == x && y !in all[..p + 1];
    if p < |some| {
      assert all[..p + 1] == some[..p + 1];
      assert Before(some, x, y);
      ExceptKeepsOrder(rest, out, x, y);
      BeforeGrows(rest, [last], x, y);
    } else {
      assert all == some + [last] && all[..p + 1] == all;
      assert names[|names| - 1] == x && names[..|names| - 1 + 1] == names && y !in names;
    }
  }

  /** What `names` must be after the operation: no name twice, exactly the right ones, in the order in which they come. */
  ghost predicate NamesAsAsked(oldNames: seq<string>, params: seq<string>, op: NameOp, names: seq<string>) {
    && Distinct(names)
    && (op == SetNames ==> (forall n :: n in names <==> n in params) && Ordered(params, names))
    && (op == RemoveNames ==> (forall n :: n in names <==> n in oldNames && n !in params) && Ordered(oldNames, names))
    && (op == AddNames ==> (forall n :: n in names <==> n in params || n in oldNames) && Ordered(params + oldNames, names))
  }

  lemma NamesAfterIsAsAsked(oldNames: seq<string>, params: seq<string>, op: NameOp)
    ensures NamesAsAsked(oldNames, params, op, NamesAfter(oldNames, params, op))
  {
    DedupeKeepsOrder(params);
    DedupeKeepsOrder(params + oldNames);
    var kept := Except(oldNames, params);
    DedupeKeepsOrder(kept);
    var r := Dedupe(kept);
    forall i, j | 0 <= i < j < |r|
      ensures Before(oldNames, r[i], r[j])
    {
      assert r[j] in kept;
      ExceptKeepsOrder(oldNames, params, r[i], r[j]);
    }
  }

  method DedupeStrings(names: seq<string>) returns (deduped: seq<string>)
    ensures deduped == Dedupe(names)
    ensures Distinct(deduped) && (forall n :: n in deduped <==> n in names) && Ordered(names, deduped)
  {
    DedupeKeepsOrder(names);
    var seen := {};
    deduped := [];
    for k := 0 to |names|
      invariant deduped == Dedupe(names[..k])
      invariant forall n :: n in seen <==> n in names[..k]
    {
      assert names[..k + 1][..k] == names[..k];
      if names[k] !in seen {
        seen := seen + {names[k]};
        deduped := deduped + [names[k]];
      }
    }
    assert names[..|names|] == names;
  }

  method ApplyNameOperation(oldNames: seq<string>, params: seq<string>, op: NameOp) returns (names: seq<string>)
    ensures names == NamesAfter(oldNames, params, op)
    ensures NamesAsAsked(oldNames, params, op, names)
  {
    NamesAfterIsAsAsked(oldNames, params, op);
    var result := params;
    if op == RemoveNames {
      result := [];
      for k := 0 to |oldNames|
        invariant result == Except(oldNames[..k], params)
      {
        assert oldNames[..k + 1][..k] == oldNames[..k];
        if oldNames[k] !in params {
          result := result + [oldNames[k]];
        }
      }
      assert oldNames[..|oldNames|] == oldNames;
    } else if op == AddNames {
      result := params + oldNames;
    }
    names := DedupeStrings(result);
  }

  /** Adding names and removing them again leaves what was there and not named. */
  lemma AddThenRemove(old_: seq<string>, params: seq<string>, n: string)
    ensures n in NamesAfter(NamesAfter(old_, params, AddNames), params, RemoveNames) <==> n in old_ && n !in params
  {
  }

  /** The history after each of `names` was put in front in turn. */
  function HistoryAfter(history: seq<string>, names: seq<string>): seq<string> {
    if names == [] then history
    else Dedupe([names[|names| - 1]] + HistoryAfter(history, names[..|names| - 1]))
  }

  /** The history has every name it had and every new one; the newest name comes first, and no name comes twice. */
  lemma {:induction false} HistoryHasAll(history: seq<string>, names: seq<string>)
    ensures var h := HistoryAfter(history, names);
      && (forall n :: n in h <==> n in history || n in names)
      && (names == [] ==> h == history) && (names != [] ==> Distinct(h) && h != [] && h[0] == names[|names| - 1])
  {
    if names != [] {
      var rest, last := names[..|names| - 1], names[|names| - 1];
      assert names == rest + [last];
      HistoryHasAll(history, rest);
      DedupeStarts(last, HistoryAfter(history, rest));
    }
  }

  lemma {:induction false} DedupeStarts(x: string, names: seq<string>)
    ensures Dedupe([x] + names) != [] && Dedupe([x] + names)[0] == x
  {
    if names == [] {
      assert [x] + names == [x];
    } else {
      assert ([x] + names)[..|[x] + names| - 1] == [x] + names[..|names| - 1];
      DedupeStarts(x, names[..|names| - 1]);
    }
  }

  // ---- Digests

  const MANIFEST_PREFIX := "manifest"

  predicate IsManifest(key: string) {
    MANIFEST_PREFIX <= key
  }

  /** `d` is a digest the image can be found by. */
  ghost predicate Identifies(digest: string, bigDigests: map<string, string>, d: string) {
    || (d == digest && digest != "")
    || exists k :: k in bigDigests && IsManifest(k) && bigDigests[k] == d
  }

  ghost predicate AllValid(digest: string, bigDigests: map<string, string>, valid: string -> bool) {
    && (digest != "" ==> valid(digest))
    && forall k :: k in bigDigests && IsManifest(k) ==> valid(bigDigests[k])
  }

  /** `r` is `i` with its digests recomputed: each identifying digest once, the chosen digest first. */
  ghost predicate Recomputed(i: Image, r: Image) {
    && r == i.(digest := r.digest, digests := r.digests)
    && Distinct(r.digests)
    && (forall d :: d in r.digests <==> Identifies(i.digest, i.bigDigests, d))
    && (i.digest != "" ==> r.digest == i.digest)
    && (if r.digests == [] then r.digest == "" else r.digest == r.digests[0])
  }

  /** Recomputes the list of digests; the manifests come in whatever order the map yields them. */
  method RecomputeDigests(i: Image, valid: string -> bool) returns (ok: bool, r: Image)
    requires !valid("")
    ensures ok <==> AllValid(i.digest, i.bigDigests, valid)
    ensures ok ==> Recomputed(i, r)
    ensures !ok ==> r == i
  {
    r := i;
    var digests := [];
    if i.digest != "" {
      if !valid(i.digest) {
        return false, i;
      }
      digests := [i.digest];
    }
    var todo := i.bigDigests.Keys;
    while todo != {}
      invariant todo <= i.bigDigests.Keys && Distinct(digests) && (i.digest != "" ==> digests != [] && digests[0] == i.digest)
      invariant forall k :: k in i.bigDigests && k !in todo && IsManifest(k) ==> valid(i.bigDigests[k])
      invariant i.digest != "" ==> valid(i.digest)
      invariant forall d :: d in digests <==>
        (d == i.digest && i.digest != "") || exists k :: k in i.bigDigests && k !in todo && IsManifest(k) && i.bigDigests[k] == d
      invariant "" !in digests
    {
      var key :| key in todo;
      todo := todo - {key};
      if IsManifest(key) {
        var digest := i.bigDigests[key];
        if !valid(digest) {
          return false, i;
        }
        if digest !in digests {
          digests := digests + [digest];
        }
      }
    }
    r := i.(digests := digests, digest := if i.digest == "" && |digests| > 0 then digests[0] else i.digest);
    ok := true;
  }
}
