/** Planning what happens to each instance of a manifest list that is copied (image/copy/multiple.go). */
module InstancePlan {
  import opened Common

  datatype Platform = Platform(architecture: string, os: string, osVersion: string, osFeatures: string, variant: string)

  datatype Details = Details(platform: Option<Platform>, algorithms: seq<string>)

  datatype Entry = Entry(digest: string, details: Details)

  datatype Selection = SystemImage | AllImages | SpecificImages

  datatype Filter = Filter(os: string, architecture: string)

  datatype Options = Options(
    selection: Selection, variants: seq<string>, instances: seq<string>, platforms: seq<Filter>,
    strip: bool, cannotModify: bool, forceFormat: bool, formatKnown: bool, known: string -> bool)

  datatype Op =
    | Copy(source: string, forceFormat: bool)
    | Clone(source: string, algorithm: string, platform: Option<Platform>)
    | Delete(index: nat)

  datatype Failure =
    NotImplemented | InvalidAlgorithm | UnknownInstance | NoSuchPlatform | CannotModify | UndefinedFormat | NothingLeft

  datatype Result<+T> = Ok(value: T) | Err(error: Failure)

  function Key(p: Option<Platform>): Platform {
    match p
    case None => Platform("", "", "", "", "")
    case Some(q) => q
  }

  /** The details of the first instance with the digest. */
  function Instance(list: seq<Entry>, d: string): (r: Option<Details>)
    ensures r.Some? <==> exists i :: 0 <= i < |list| && list[i].digest == d
  {
    if list == [] then None
    else if list[0].digest == d then Some(list[0].details)
    else
      var r := Instance(list[1..], d);
      assert r.Some? ==> exists i :: 0 <= i < |list| && list[i].digest == d by {
        if r.Some? {
          var i :| 0 <= i < |list[1..]| && list[1..][i].digest == d;
          assert list[i + 1].digest == d;
        }
      }
      assert forall i :: 0 < i < |list| ==> list[i] == list[1..][i - 1];
      r
  }

  function PlatformOf(list: seq<Entry>, d: string): Platform {
    match Instance(list, d)
    case Some(details) => Key(details.platform)
    case None => Key(None)
  }

  type Compressions = map<Platform, set<string>>

  predicate Has(m: Compressions, p: Platform, a: string) {
    p in m && a in m[p]
  }

  /** Some listed instance for platform `p` is compressed with `a`. */
  ghost predicate Offered(list: seq<Entry>, ds: seq<string>, p: Platform, a: string) {
    exists d :: d in ds && Instance(list, d).Some? && PlatformOf(list, d) == p && a in Instance(list, d).value.algorithms
  }

  /** For every platform, the algorithms that its instances are compressed with. */
  method PlatformCompressionMap(list: seq<Entry>, ds: seq<string>) returns (r: Result<Compressions>)
    ensures r.Err? <==> exists d :: d in ds && Instance(list, d).None?
    ensures r.Err? ==> r.error == UnknownInstance
    ensures r.Ok? ==> forall d :: d in ds ==> PlatformOf(list, d) in r.value
    ensures r.Ok? ==> forall p, a :: Has(r.value, p, a) <==> Offered(list, ds, p, a)
  {
    var res: Compressions := map[];
    for k := 0 to |ds|
      invariant forall d :: d in ds[..k] ==> Instance(list, d).Some? && PlatformOf(list, d) in res
      invariant forall p, a :: Has(res, p, a) <==> Offered(list, ds[..k], p, a)
    {
      var details := Instance(list, ds[k]);
      if details.None? {
        assert ds[k] in ds;
        return Err(UnknownInstance);
      }
      ghost var before := res;
      var p := Key(details.value.platform);
      var names := (if p in res then res[p] else {}) + set a | a in details.value.algorithms;
      res := res[p := names];
      assert ds[..k + 1] == ds[..k] + [ds[k]];
      forall q, a
        ensures Has(res, q, a) <==> Offered(list, ds[..k + 1], q, a)
      {
        assert Has(before, q, a) <==> Offered(list, ds[..k], q, a);
        if q == p && a in details.value.algorithms {
          assert ds[k] in ds[..k + 1];
        }
        if Offered(list, ds[..k], q, a) {
          var d :| d in ds[..k] && Instance(list, d).Some? && PlatformOf(list, d) == q && a in Instance(list, d).value.algorithms;
          assert d in ds[..k + 1];
        }
      }
    }
    assert ds[..|ds|] == ds;
    r := Ok(res);
  }

  // ---- Which instances

  predicate Matches(list: seq<Entry>, d: string, f: Filter) {
    PlatformOf(list, d).os == f.os && PlatformOf(list, d).architecture == f.architecture
  }

  /** The instance is asked for by its digest or its platform. */
  ghost predicate AskedFor(o: Options, list: seq<Entry>, ds: seq<string>, d: string) {
    d in o.instances || (d in ds && exists f :: f in o.platforms && Matches(list, d, f))
  }

  method DetermineSpecificImages(o: Options, list: seq<Entry>, ds: seq<string>) returns (r: Result<set<string>>)
    requires forall d :: d in ds ==> Instance(list, d).Some?
    ensures r.Err? <==> exists f :: f in o.platforms && forall d :: d in ds ==> !Matches(list, d, f)
    ensures r.Err? ==> r.error == NoSuchPlatform
    ensures r.Ok? ==> forall d :: d in r.value <==> AskedFor(o, list, ds, d)
  {
    var images := set d | d in o.instances;
    for k := 0 to |o.platforms|
      invariant forall f :: f in o.platforms[..k] ==> exists d :: d in ds && Matches(list, d, f)
      invariant forall d :: d in images <==> d in o.instances || (d in ds && exists f :: f in o.platforms[..k] && Matches(list, d, f))
    {
      var filter := o.platforms[k];
      var matched := MatchingInstances(list, ds, filter);
      if matched == {} {
        assert filter in o.platforms;
        return Err(NoSuchPlatform);
      }
      var d :| d in matched;
      assert Matches(list, d, filter);
      images := images + matched;
      assert o.platforms[..k + 1] == o.platforms[..k] + [filter];
    }
    assert o.platforms[..|o.platforms|] == o.platforms;
    r := Ok(images);
  }

  method MatchingInstances(list: seq<Entry>, ds: seq<string>, f: Filter) returns (r: set<string>)
    requires forall d :: d in ds ==> Instance(list, d).Some?
    ensures forall d :: d in r <==> d in ds && Matches(list, d, f)
  {
    r := {};
    for k := 0 to |ds|
      invariant forall d :: d in r <==> d in ds[..k] && Matches(list, d, f)
    {
      var details := Instance(list, ds[k]).value;
      var os, architecture := "", "";
      if details.platform.Some? {
        os, architecture := details.platform.value.os, details.platform.value.architecture;
      }
      if os == f.os && architecture == f.architecture {
        r := r + {ds[k]};
      }
      assert ds[..k + 1] == ds[..k] + [ds[k]];
    }
    assert ds[..|ds|] == ds;
  }

  // ---- Deleting by position

  /** The elements of `es` whose digest, at the same place in `ds`, is wanted. */
  function Kept<T>(es: seq<T>, ds: seq<string>, wanted: set<string>): seq<T>
    requires |es| == |ds|
  {
    if es == [] then []
    else Kept(es[..|es| - 1], ds[..|ds| - 1], wanted) + if ds[|ds| - 1] in wanted then [es[|es| - 1]] else []
  }

  /** The positions of the others. */
  function Dropped(ds: seq<string>, wanted: set<string>): seq<nat> {
    if ds == [] then []
    else Dropped(ds[..|ds| - 1], wanted) + if ds[|ds| - 1] in wanted then [] else [|ds| - 1]
  }

  /** What the delete edits make of a list, one after the other. */
  function DeleteAll<T>(es: seq<T>, ops: seq<Op>): Option<seq<T>> {
    if ops == [] then Some(es)
    else if !ops[0].Delete? then DeleteAll(es, ops[1..])
    else if ops[0].index >= |es| then None
    else DeleteAll(es[..ops[0].index] + es[ops[0].index + 1..], ops[1..])
  }

  function Deletes(indexes: seq<nat>): seq<Op> {
    seq(|indexes|, i requires 0 <= i < |indexes| => Delete(indexes[i]))
  }

  function Reversed<T>(s: seq<T>): (r: seq<T>)
    ensures |r| == |s|
  {
    seq(|s|, i requires 0 <= i < |s| => s[|s| - 1 - i])
  }

  lemma DeletingLast<T>(es: seq<T>, tail: seq<T>, ops: seq<Op>)
    requires es != []
    ensures DeleteAll(es + tail, [Delete(|es| - 1)] + ops) == DeleteAll(es[..|es| - 1] + tail, ops)
  {
    var n := |es| - 1;
    assert (es + tail)[..n] + (es + tail)[n + 1..] == es[..n] + tail;
    assert ([Delete(n)] + ops)[1..] == ops;
  }

  lemma ReversedDrops(drops: seq<nat>, n: nat)
    ensures Reversed(Deletes(drops + [n])) == [Delete(n)] + Reversed(Deletes(drops))
  {
  }

  /** Deleting from the back never shifts a position that is still to be deleted. */
  lemma {:induction false} DeletingLeavesKept<T>(es: seq<T>, ds: seq<string>, wanted: set<string>, tail: seq<T>)
    requires |es| == |ds|
    ensures DeleteAll(es + tail, Reversed(Deletes(Dropped(ds, wanted)))) == Some(Kept(es, ds, wanted) + tail)
  {
    if es == [] {
      assert es + tail == tail == [] + tail;
    } else {
      var n := |es| - 1;
      var rest, drops := es[..n], Dropped(ds[..n], wanted);
      if ds[n] in wanted {
        DeletingLeavesKept(rest, ds[..n], wanted, [es[n]] + tail);
        Regroup(rest, [es[n]], tail);
        assert es == rest + [es[n]] && Dropped(ds, wanted) == drops;
        Regroup(Kept(rest, ds[..n], wanted), [es[n]], tail);
      } else {
        DeletingLeavesKept(rest, ds[..n], wanted, tail);
        ReversedDrops(drops, n);
        DeletingLast(es, tail, Reversed(Deletes(drops)));
        assert Dropped(ds, wanted) == drops + [n] && Kept(es, ds, wanted) == Kept(rest, ds[..n], wanted);
      }
    }
  }

  // ---- The plan

  /** The digests that are copied, in order. */
  function Copied(ops: seq<Op>): seq<string> {
    if ops == [] then []
    else Copied(ops[..|ops| - 1]) + if ops[|ops| - 1].Copy? then [ops[|ops| - 1].source] else []
  }

  /** How often an instance is cloned to have algorithm `a` for platform `p`. */
  function Clones(ops: seq<Op>, p: Platform, a: string): nat {
    if ops == [] then 0
    else
      var last := ops[|ops| - 1];
      Clones(ops[..|ops| - 1], p, a) + if last.Clone? && Key(last.platform) == p && last.algorithm == a then 1 else 0
  }

  lemma CopiedOneMore(ops: seq<Op>, op: Op)
    ensures Copied(ops + [op]) == Copied(ops) + if op.Copy? then [op.source] else []
  {
    assert (ops + [op])[..|ops|] == ops;
  }

  lemma ClonesOneMore(ops: seq<Op>, op: Op)
    ensures forall p, a ::
              Clones(ops + [op], p, a) == Clones(ops, p, a) + if op.Clone? && Key(op.platform) == p && op.algorithm == a then 1 else 0
  {
    assert (ops + [op])[..|ops|] == ops;
  }

  lemma {:induction false} DeletesCopyNothing(ops: seq<Op>, deletes: seq<Op>)
    requires forall op :: op in deletes ==> op.Delete?
    ensures Copied(ops + deletes) == Copied(ops)
    ensures forall p, a :: Clones(ops + deletes, p, a) == Clones(ops, p, a)
  {
    if deletes == [] {
      assert ops + deletes == ops;
    } else {
      var n := |deletes| - 1;
      assert deletes[n] in deletes && forall op :: op in deletes[..n] ==> op in deletes;
      DeletesCopyNothing(ops, deletes[..n]);
      assert ops + deletes == (ops + deletes[..n]) + [deletes[n]];
      CopiedOneMore(ops + deletes[..n], deletes[n]);
      ClonesOneMore(ops + deletes[..n], deletes[n]);
    }
  }

  /** `m` knows what `m0` knew and what was cloned; nothing known was cloned, and nothing was cloned twice. */
  ghost predicate Tracks(m0: Compressions, m: Compressions, ops: seq<Op>) {
    && m0.Keys == m.Keys
    && forall p, a :: Clones(ops, p, a) == (if Has(m, p, a) && !Has(m0, p, a) then 1 else 0) && (Has(m0, p, a) ==> Has(m, p, a))
  }

  ghost predicate Complete(m: Compressions, p: Platform, variants: seq<string>) {
    forall v :: v in variants ==> Has(m, p, v)
  }

  ghost predicate AtLeast(m: Compressions, m': Compressions) {
    forall p, a :: Has(m, p, a) ==> Has(m', p, a)
  }

  lemma AtLeastTransitive(a: Compressions, b: Compressions, c: Compressions)
    requires AtLeast(a, b) && AtLeast(b, c)
    ensures AtLeast(a, c)
  {
  }

  lemma TracksOneMore(m0: Compressions, m: Compressions, ops: seq<Op>, d: string, v: string, platform: Option<Platform>)
    requires Tracks(m0, m, ops) && Key(platform) in m && !Has(m, Key(platform), v)
    ensures var m' := m[Key(platform) := m[Key(platform)] + {v}];
      Tracks(m0, m', ops + [Clone(d, v, platform)]) && AtLeast(m, m') && Has(m', Key(platform), v)
  {
    ClonesOneMore(ops, Clone(d, v, platform));
  }

  lemma CompleteOneMore(m: Compressions, m': Compressions, p: Platform, variants: seq<string>, k: nat)
    requires k < |variants| && Complete(m, p, variants[..k]) && AtLeast(m, m') && Has(m', p, variants[k])
    ensures Complete(m', p, variants[..k + 1])
  {
    assert variants[..k + 1] == variants[..k] + [variants[k]];
  }

  predicate ClonesFrom(o: Options, op: Op, d: string, platform: Option<Platform>) {
    op.Clone? && op.source == d && op.platform == platform && op.algorithm in o.variants
  }

  /** Clones an instance for every requested algorithm that its platform does not have yet. */
  method AddClones(o: Options, d: string, platform: Option<Platform>, ops: seq<Op>, m: Compressions, ghost m0: Compressions)
    returns (res: seq<Op>, m': Compressions)
    requires Tracks(m0, m, ops) && Key(platform) in m
    ensures Tracks(m0, m', res) && Copied(res) == Copied(ops) && Complete(m', Key(platform), o.variants)
    ensures AtLeast(m, m')
    ensures forall op :: op in res ==> op in ops || ClonesFrom(o, op, d, platform)
  {
    res, m' := ops, m;
    for k := 0 to |o.variants|
      invariant Tracks(m0, m', res) && Copied(res) == Copied(ops) && Complete(m', Key(platform), o.variants[..k])
      invariant AtLeast(m, m')
      invariant forall op :: op in res ==> op in ops || ClonesFrom(o, op, d, platform)
    {
      var v := o.variants[k];
      ghost var before := m';
      if v !in m'[Key(platform)] {
        TracksOneMore(m0, m', res, d, v, platform);
        CopiedOneMore(res, Clone(d, v, platform));
        res := res + [Clone(d, v, platform)];
        m' := m'[Key(platform) := m'[Key(platform)] + {v}];
        AtLeastTransitive(m, before, m');
      }
      CompleteOneMore(before, m', Key(platform), o.variants, k);
    }
    assert o.variants[..|o.variants|] == o.variants;
  }

  /** The operation copies, or clones for its own platform and a requested algorithm, a wanted instance. */
  ghost predicate Proper(o: Options, list: seq<Entry>, ds: seq<string>, wanted: set<string>, op: Op) {
    && !op.Delete? && op.source in ds && op.source in wanted
    && (op.Copy? ==> op.forceFormat == o.forceFormat)
    && (op.Clone? ==> Instance(list, op.source).Some? && ClonesFrom(o, op, op.source, Instance(list, op.source).value.platform))
  }

  /** What is planned for the first `k` instances. */
  ghost predicate Planned(o: Options, list: seq<Entry>, ds: seq<string>, k: nat, wanted: set<string>,
                          m0: Compressions, m: Compressions, res: seq<Op>, deletes: seq<Op>)
    requires k <= |ds|
  {
    && Tracks(m0, m, res)
    && Copied(res) == Kept(ds[..k], ds[..k], wanted) && (res != [] ==> Copied(res) != [])
    && deletes == (if o.strip then Deletes(Dropped(ds[..k], wanted)) else [])
    && (forall i :: 0 <= i < k && ds[i] in wanted ==> Complete(m, PlatformOf(list, ds[i]), o.variants))
    && (forall op :: op in res ==> Proper(o, list, ds, wanted, op))
  }

  lemma PlannedDrop(o: Options, list: seq<Entry>, ds: seq<string>, k: nat, wanted: set<string>,
                    m0: Compressions, m: Compressions, res: seq<Op>, deletes: seq<Op>)
    requires k < |ds| && Planned(o, list, ds, k, wanted, m0, m, res, deletes) && ds[k] !in wanted
    ensures Planned(o, list, ds, k + 1, wanted, m0, m, res, if o.strip then deletes + [Delete(k)] else deletes)
  {
    assert ds[..k + 1][..k] == ds[..k];
    assert Deletes(Dropped(ds[..k], wanted) + [k]) == Deletes(Dropped(ds[..k], wanted)) + [Delete(k)];
  }

  lemma PlannedKeep(o: Options, list: seq<Entry>, ds: seq<string>, k: nat, wanted: set<string>, m0: Compressions,
                    m: Compressions, res: seq<Op>, deletes: seq<Op>, m': Compressions, res': seq<Op>)
    requires k < |ds| && Planned(o, list, ds, k, wanted, m0, m, res, deletes) && ds[k] in wanted && Instance(list, ds[k]).Some?
    requires Tracks(m0, m', res') && Copied(res') == Copied(res) + [ds[k]] && Complete(m', PlatformOf(list, ds[k]), o.variants)
    requires AtLeast(m, m')
    requires forall op :: op in res' ==> op in res || Proper(o, list, ds, wanted, op)
    ensures Planned(o, list, ds, k + 1, wanted, m0, m', res', deletes)
  {
    assert ds[..k + 1][..k] == ds[..k];
    forall i | 0 <= i < k + 1 && ds[i] in wanted
      ensures Complete(m', PlatformOf(list, ds[i]), o.variants)
    {
      assert i < k ==> Complete(m, PlatformOf(list, ds[i]), o.variants);
    }
  }

  /** Copies an instance, and clones it as far as its platform lacks requested algorithms. */
  method KeepInstance(o: Options, list: seq<Entry>, ds: seq<string>, k: nat, ghost wanted: set<string>, ghost m0: Compressions,
                      m: Compressions, res: seq<Op>, ghost deletes: seq<Op>)
    returns (m': Compressions, res': seq<Op>)
    requires k < |ds| && Planned(o, list, ds, k, wanted, m0, m, res, deletes) && ds[k] in wanted && Instance(list, ds[k]).Some?
    requires PlatformOf(list, ds[k]) in m
    ensures Planned(o, list, ds, k + 1, wanted, m0, m', res', deletes)
  {
    var copy := Copy(ds[k], o.forceFormat);
    var platform := Instance(list, ds[k]).value.platform;
    CopiedOneMore(res, copy);
    ClonesOneMore(res, copy);
    res', m' := AddClones(o, ds[k], platform, res + [copy], m, m0);
    PlannedKeep(o, list, ds, k, wanted, m0, m, res, deletes, m', res');
  }

  ghost predicate AllWanted(ds: seq<string>, wanted: set<string>) {
    forall d :: d in ds ==> d in wanted
  }

  ghost predicate NoneWanted(ds: seq<string>, wanted: set<string>) {
    forall d :: d in ds ==> d !in wanted
  }

  /** The loop over the instances. */
  method PlanEach(o: Options, list: seq<Entry>, ds: seq<string>, images: set<string>, m0: Compressions, ghost wanted: set<string>)
    returns (st: Option<Failure>, res: seq<Op>, deletes: seq<Op>, ghost m: Compressions)
    requires forall d :: d in ds ==> Instance(list, d).Some? && PlatformOf(list, d) in m0
    requires forall d :: d in ds ==> (d in wanted <==> o.selection != SpecificImages || d in images)
    ensures st.None? <==> !(o.strip && o.cannotModify && !AllWanted(ds, wanted)) && !(o.forceFormat && !o.formatKnown && !NoneWanted(ds, wanted))
    ensures st.Some? ==> st.value == CannotModify || st.value == UndefinedFormat
    ensures st.None? ==> Planned(o, list, ds, |ds|, wanted, m0, m, res, deletes)
  {
    var known := m0;
    res, deletes, m := [], [], known;
    for k := 0 to |ds|
      invariant m == known && Planned(o, list, ds, k, wanted, m0, known, res, deletes)
      invariant !(o.strip && o.cannotModify && !AllWanted(ds[..k], wanted))
      invariant !(o.forceFormat && !o.formatKnown && !NoneWanted(ds[..k], wanted))
    {
      assert ds[..k + 1] == ds[..k] + [ds[k]] && ds[k] in ds;
      if o.selection == SpecificImages && ds[k] !in images {
        PlannedDrop(o, list, ds, k, wanted, m0, known, res, deletes);
        if o.strip {
          if o.cannotModify {
            return Some(CannotModify), res, deletes, m;
          }
          deletes := deletes + [Delete(k)];
        }
      } else {
        if o.forceFormat && !o.formatKnown {
          return Some(UndefinedFormat), res, deletes, m;
        }
        known, res := KeepInstance(o, list, ds, k, wanted, m0, known, res, deletes);
        m := known;
      }
    }
    assert ds[..|ds|] == ds;
    st := None;
  }

  // ---- What a plan achieves

  ghost predicate Picked(o: Options, list: seq<Entry>, ds: seq<string>, d: string) {
    o.selection != SpecificImages || AskedFor(o, list, ds, d)
  }

  /** `wanted` are the instances the caller asked for. */
  ghost predicate Selects(o: Options, list: seq<Entry>, ds: seq<string>, wanted: set<string>) {
    forall d :: d in ds ==> (d in wanted <==> Picked(o, list, ds, d))
  }

  /** The options make sense for the list. */
  ghost predicate Selectable(o: Options, list: seq<Entry>, ds: seq<string>) {
    && (o.selection == SpecificImages ==> o.variants == [] && forall f :: f in o.platforms ==> exists d :: d in ds && Matches(list, d, f))
    && (forall v :: v in o.variants ==> o.known(v))
    && (forall d :: d in ds ==> Instance(list, d).Some?)
  }

  /** Nothing stands in the way of a plan. */
  ghost predicate Plannable(o: Options, list: seq<Entry>, ds: seq<string>) {
    && Selectable(o, list, ds)
    && (o.strip && o.cannotModify ==> forall d :: d in ds ==> Picked(o, list, ds, d))
    && (o.forceFormat && !o.formatKnown ==> forall d :: d in ds ==> !Picked(o, list, ds, d))
    && (o.strip && ds != [] ==> exists d :: d in ds && Picked(o, list, ds, d))
  }

  /** `ks` are the positions of the wanted instances, in order. */
  ghost predicate Positions(ds: seq<string>, wanted: set<string>, ks: seq<nat>) {
    && (forall i, j :: 0 <= i < j < |ks| ==> ks[i] < ks[j])
    && (forall k: nat :: k in ks <==> k < |ds| && ds[k] in wanted)
  }

  ghost predicate AtPositions<T>(es: seq<T>, ks: seq<nat>, picked: seq<T>) {
    |picked| == |ks| && forall i :: 0 <= i < |ks| ==> ks[i] < |es| && picked[i] == es[ks[i]]
  }

  /** What is kept is what stands at the positions of the wanted instances. */
  lemma {:induction false} KeptAreWanted<T>(es: seq<T>, ds: seq<string>, wanted: set<string>) returns (ks: seq<nat>)
    requires |es| == |ds|
    ensures Positions(ds, wanted, ks) && AtPositions(es, ks, Kept(es, ds, wanted))
  {
    ks := [];
    if es != [] {
      var n := |es| - 1;
      var before := KeptAreWanted(es[..n], ds[..n], wanted);
      assert forall k: nat :: k in before ==> k < n && ds[..n][k] == ds[k];
      ks := before + if ds[n] in wanted then [n] else [];
    }
  }

  ghost predicate Achieves(o: Options, list: seq<Entry>, ds: seq<string>, wanted: set<string>, ops: seq<Op>, copyLen: nat) {
    // every wanted instance is copied, in order, and nothing else
    && Copied(ops) == Kept(ds, ds, wanted) && (exists ks :: Positions(ds, wanted, ks) && AtPositions(ds, ks, Copied(ops)))
    // the deletes leave the wanted instances in their order; a list with instances keeps some
    && DeleteAll(ds, ops) == Some(if o.strip then Kept(ds, ds, wanted) else ds)
    && (o.strip && ds != [] ==> Kept(ds, ds, wanted) != [])
    // every copied platform ends up with every requested algorithm
    && (forall d, v :: d in ds && d in wanted && v in o.variants ==>
          Offered(list, ds, PlatformOf(list, d), v) || Clones(ops, PlatformOf(list, d), v) == 1)
    // nothing is cloned twice, or for what is there already
    && (forall p, a :: Clones(ops, p, a) <= 1 && (Offered(list, ds, p, a) ==> Clones(ops, p, a) == 0))
    // copies and clones come first, deletes last, and clones and deletes never meet
    && copyLen <= |ops|
    && (forall op :: op in ops[..copyLen] ==> Proper(o, list, ds, wanted, op))
    && (forall op :: op in ops[copyLen..] ==> op.Delete?)
    && (copyLen == |ops| || forall op :: op in ops ==> !op.Clone?)
  }

  lemma {:induction false} OnlyDeletesDelete<T>(es: seq<T>, ops: seq<Op>, deletes: seq<Op>)
    requires forall op :: op in ops ==> !op.Delete?
    ensures DeleteAll(es, ops + deletes) == DeleteAll(es, deletes)
  {
    if ops == [] {
      assert ops + deletes == deletes;
    } else {
      assert ops[0] in ops && forall op :: op in ops[1..] ==> op in ops;
      OnlyDeletesDelete(es, ops[1..], deletes);
      assert (ops + deletes)[0] == ops[0] && (ops + deletes)[1..] == ops[1..] + deletes;
    }
  }

  lemma {:induction false} NothingDropped(ds: seq<string>, wanted: set<string>)
    requires AllWanted(ds, wanted)
    ensures Dropped(ds, wanted) == []
  {
    if ds != [] {
      assert ds[|ds| - 1] in ds && forall d :: d in ds[..|ds| - 1] ==> d in ds;
      NothingDropped(ds[..|ds| - 1], wanted);
    }
  }

  lemma {:induction false} KeptOrDropped(ds: seq<string>, wanted: set<string>)
    ensures |Kept(ds, ds, wanted)| + |Dropped(ds, wanted)| == |ds|
    ensures Kept(ds, ds, wanted) == [] <==> NoneWanted(ds, wanted)
  {
    if ds != [] {
      KeptOrDropped(ds[..|ds| - 1], wanted);
      assert ds == ds[..|ds| - 1] + [ds[|ds| - 1]];
    }
  }

  lemma Reverses(indexes: seq<nat>)
    ensures forall op :: op in Reversed(Deletes(indexes)) ==> op.Delete?
  {
  }

  lemma PlannedAchieves(o: Options, list: seq<Entry>, ds: seq<string>, wanted: set<string>, m0: Compressions, m: Compressions,
                        res: seq<Op>, deletes: seq<Op>)
    requires Planned(o, list, ds, |ds|, wanted, m0, m, res, deletes)
    requires forall p, a :: Has(m0, p, a) <==> Offered(list, ds, p, a)
    requires o.strip && ds != [] ==> Kept(ds, ds, wanted) != []
    requires o.variants != [] ==> AllWanted(ds, wanted)
    ensures Achieves(o, list, ds, wanted, res + Reversed(deletes), |res|)
  {
    var ops := res + Reversed(deletes);
    var ks := KeptAreWanted(ds, ds, wanted);
    assert ds[..|ds|] == ds;
    var dropped := if o.strip then Dropped(ds, wanted) else [];
    assert deletes == Deletes(dropped);
    Reverses(dropped);
    DeletesCopyNothing(res, Reversed(deletes));
    OnlyDeletesDelete(ds, res, Reversed(deletes));
    if o.strip {
      DeletingLeavesKept(ds, ds, wanted, []);
      assert ds + [] == ds && Kept(ds, ds, wanted) + [] == Kept(ds, ds, wanted);
    }
    forall d, v | d in ds && d in wanted && v in o.variants
      ensures Offered(list, ds, PlatformOf(list, d), v) || Clones(ops, PlatformOf(list, d), v) == 1
    {
      var i :| 0 <= i < |ds| && ds[i] == d;
      assert Complete(m, PlatformOf(list, ds[i]), o.variants);
      assert Has(m, PlatformOf(list, d), v);
    }
    assert ops[..|res|] == res && ops[|res|..] == Reversed(deletes);
    if |res| != |ops| {
      if o.variants != [] {
        NothingDropped(ds, wanted);
      }
      assert o.variants == [];
      forall op | op in ops
        ensures !op.Clone?
      {
        assert op in res || op in Reversed(deletes);
      }
    }
  }

  /** The map holds the platform of every instance, and the algorithms the list offers. */
  ghost predicate Charts(list: seq<Entry>, ds: seq<string>, m: Compressions) {
    && (forall d :: d in ds ==> Instance(list, d).Some? && PlatformOf(list, d) in m)
    && (forall p, a :: Has(m, p, a) <==> Offered(list, ds, p, a))
  }

  /** Checks the options, and finds the instances to copy. */
  method SelectInstances(o: Options, list: seq<Entry>, ds: seq<string>)
    returns (st: Option<Failure>, images: set<string>, compressions: Compressions, ghost wanted: set<string>)
    ensures st.None? <==> Selectable(o, list, ds)
    ensures st.None? ==> Charts(list, ds, compressions) && Selects(o, list, ds, wanted) && (o.variants != [] ==> AllWanted(ds, wanted))
    ensures st.None? ==> forall d :: d in ds ==> (d in wanted <==> o.selection != SpecificImages || d in images)
  {
    images, compressions, wanted := {}, map[], Elements(ds);
    if o.selection == SpecificImages && |o.variants| > 0 {
      return Some(NotImplemented), images, compressions, wanted;
    }
    if exists v | v in o.variants :: !o.known(v) {
      return Some(InvalidAlgorithm), images, compressions, wanted;
    }
    var charted := PlatformCompressionMap(list, ds);
    if charted.Err? {
      return Some(charted.error), images, compressions, wanted;
    }
    compressions := charted.value;
    if o.selection == SpecificImages {
      var specific := DetermineSpecificImages(o, list, ds);
      if specific.Err? {
        return Some(specific.error), images, compressions, wanted;
      }
      images := specific.value;
      wanted := images;
    }
    st := None;
  }

  method PrepareInstanceOps(o: Options, list: seq<Entry>, ds: seq<string>)
    returns (r: Result<seq<Op>>, copyLen: nat, ghost wanted: set<string>)
    ensures r.Ok? ==> Selects(o, list, ds, wanted) && Achieves(o, list, ds, wanted, r.value, copyLen)
    ensures r.Ok? <==> Plannable(o, list, ds)
  {
    copyLen, wanted := 0, {};
    var chosen, images, compressions;
    chosen, images, compressions, wanted := SelectInstances(o, list, ds);
    if chosen.Some? {
      return Err(chosen.value), 0, {};
    }
    var st, res, deletes;
    ghost var m;
    st, res, deletes, m := PlanEach(o, list, ds, images, compressions, wanted);
    if st.Some? {
      return Err(st.value), 0, {};
    }
    KeptOrDropped(ds, wanted);
    assert ds[..|ds|] == ds;
    if |ds| > 0 && |res| == 0 && |deletes| == |ds| {
      return Err(NothingLeft), 0, {};
    }
    PlannedAchieves(o, list, ds, wanted, compressions, m, res, deletes);
    r, copyLen := Ok(res + Reversed(deletes)), |res|;
  }
}
