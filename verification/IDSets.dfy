/** Sets of ids stored as sorted lists of intervals (storage/idset.go). */
module IDSets {
  import opened Common

  /** The half-open interval [start, end); empty when start >= end. */
  datatype Interval = Interval(start: int, end: int) {

    predicate Has(x: int) {
      start <= x < end
    }

    function Length(): (n: nat)
      ensures n == 0 <==> forall x :: !Has(x)
    {
      assert start < end ==> Has(start);
      Max(0, end - start)
    }

    predicate IsZero() {
      Length() <= 0
    }

    function Intersect(j: Interval): (r: Interval)
      ensures forall x :: r.Has(x) <==> Has(x) && j.Has(x)
    {
      Interval(Max(start, j.start), Min(end, j.end))
    }

    /** What is left of this interval on either side of `j`. */
    function Bisect(j: Interval): (r: (Interval, Interval))
      ensures forall x :: r.0.Has(x) || r.1.Has(x) <==> Has(x) && !j.Has(x)
      ensures !r.0.IsZero() && !r.1.IsZero() ==> r.0.end < r.1.start
    {
      if j.IsZero() then (this, Interval(0, 0))
      else (Interval(start, Min(end, j.start)), Interval(Max(start, j.end), end))
    }

    /** The smallest interval that holds both. */
    function Encompass(j: Interval): (r: Interval)
      ensures forall x :: Has(x) || j.Has(x) ==> r.Has(x)
      ensures !j.IsZero() && !IsZero() && start <= j.end && j.start <= end ==>
        forall x :: r.Has(x) ==> Has(x) || j.Has(x)
    {
      if IsZero() then j else if j.IsZero() then this
      else Interval(Min(start, j.start), Max(end, j.end))
    }
  }

  function Max(a: int, b: int): int {
    if a < b then b else a
  }

  function Min(a: int, b: int): int {
    if a < b then a else b
  }

  type IDSet = seq<Interval>

  /** Intervals are non-empty, in ascending order, and never touch. */
  ghost predicate WellFormed(s: IDSet) {
    && (forall i :: 0 <= i < |s| ==> s[i].start < s[i].end)
    && (forall i, j :: 0 <= i < j < |s| ==> s[i].end < s[j].start)
  }

  ghost predicate Member(s: IDSet, x: int) {
    exists i :: 0 <= i < |s| && s[i].Has(x)
  }

  ghost function Range(a: int, n: nat): seq<int> {
    seq(n, k => a + k)
  }

  /** The ids of a set, one by one. */
  ghost function Ids(s: IDSet): seq<int> {
    if s == [] then [] else Range(s[0].start, s[0].Length()) + Ids(s[1..])
  }

  ghost predicate Ascending(xs: seq<int>) {
    forall i, j :: 0 <= i < j < |xs| ==> xs[i] < xs[j]
  }

  lemma RangeHas(a: int, n: nat, x: int)
    ensures x in Range(a, n) <==> a <= x < a + n
  {
    if a <= x < a + n {
      assert Range(a, n)[x - a] == x;
    }
  }

  lemma {:induction false} IdsAreMembers(s: IDSet, x: int)
    ensures x in Ids(s) <==> Member(s, x)
  {
    if s != [] {
      RangeHas(s[0].start, s[0].Length(), x);
      IdsAreMembers(s[1..], x);
      assert Member(s, x) <==> s[0].Has(x) || Member(s[1..], x) by {
        if Member(s, x) {
          var i :| 0 <= i < |s| && s[i].Has(x);
          assert i > 0 ==> s[1..][i - 1].Has(x);
        }
        if Member(s[1..], x) {
          var i :| 0 <= i < |s[1..]| && s[1..][i].Has(x);
          assert s[i + 1].Has(x);
        }
      }
    }
  }

  /** The ids of a well-formed set come in ascending order, hence each of them once. */
  lemma {:induction false} IdsAscend(s: IDSet)
    requires WellFormed(s)
    ensures Ascending(Ids(s))
  {
    if s != [] {
      IdsAscend(s[1..]);
      forall x | x in Ids(s[1..])
        ensures s[0].end <= x
      {
        IdsAreMembers(s[1..], x);
      }
      var head, tail := Range(s[0].start, s[0].Length()), Ids(s[1..]);
      forall i, j | 0 <= i < j < |head + tail|
        ensures (head + tail)[i] < (head + tail)[j]
      {
        assert j >= |head| ==> tail[j - |head|] in tail;
      }
    }
  }

  lemma {:induction false} IdsConcat(s: IDSet, t: IDSet)
    ensures Ids(s + t) == Ids(s) + Ids(t)
  {
    if s == [] {
      assert s + t == t;
    } else {
      IdsConcat(s[1..], t);
      assert (s + t)[1..] == s[1..] + t && (s + t)[0] == s[0];
      Regroup(Range(s[0].start, s[0].Length()), Ids(s[1..]), Ids(t));
    }
  }

  ghost function SetOf(s: IDSet): (r: set<int>)
    ensures forall x :: x in r <==> Member(s, x)
  {
    assert forall x :: x in Ids(s) <==> Member(s, x) by {
      forall x
        ensures x in Ids(s) <==> Member(s, x)
      {
        IdsAreMembers(s, x);
      }
    }
    Elements(Ids(s))
  }

  lemma CountOneMore(rest: seq<int>, last: int)
    requires |Elements(rest)| == |rest| && multiset(Elements(rest)) == multiset(rest) && last !in rest
    ensures |Elements(rest + [last])| == |rest| + 1 && multiset(Elements(rest + [last])) == multiset(rest + [last])
  {
    assert Elements(rest + [last]) == Elements(rest) + {last};
  }

  lemma {:induction false} AscendingCount(xs: seq<int>)
    requires Ascending(xs)
    ensures |Elements(xs)| == |xs| && multiset(Elements(xs)) == multiset(xs)
  {
    if xs != [] {
      var n := |xs| - 1;
      AscendingCount(xs[..n]);
      assert xs[n] !in xs[..n];
      CountOneMore(xs[..n], xs[n]);
      assert xs == xs[..n] + [xs[n]];
    }
  }

  lemma SizeOfSet(s: IDSet)
    requires WellFormed(s)
    ensures |SetOf(s)| == |Ids(s)| && multiset(SetOf(s)) == multiset(Ids(s))
  {
    IdsAscend(s);
    AscendingCount(Ids(s));
    assert SetOf(s) == Elements(Ids(s)) by {
      forall x
        ensures x in Ids(s) <==> Member(s, x)
      {
        IdsAreMembers(s, x);
      }
    }
  }

  lemma IdsOfOne(i: Interval)
    ensures Ids([i]) == Range(i.start, i.Length())
  {
    assert [i][1..] == [];
  }

  lemma IdsOfRest(s: IDSet, k: nat)
    requires k < |s|
    ensures Ids(s[k..]) == Range(s[k].start, s[k].Length()) + Ids(s[k + 1..])
  {
    assert s[k..][1..] == s[k + 1..];
  }

  method Size(s: IDSet) returns (size: int)
    ensures size == |Ids(s)|
  {
    size := 0;
    assert s[0..] == s;
    for k := 0 to |s|
      invariant size + |Ids(s[k..])| == |Ids(s)|
    {
      IdsOfRest(s, k);
      size := size + s[k].Length();
    }
  }

  /** The first `n` elements, or all when there are fewer. */
  ghost function Take(xs: seq<int>, n: int): seq<int> {
    if n <= 0 then [] else if n >= |xs| then xs else xs[..n]
  }

  lemma TakeFromRange(a: int, len: nat, xs: seq<int>, n: int)
    requires n > 0
    ensures Take(Range(a, len) + xs, n) == Range(a, Min(len, n)) + Take(xs, n - Min(len, n))
  {
  }

  lemma TakeInterval(s: IDSet, k: nat, left: int, taken: IDSet, i: Interval)
    requires k < |s| && left > 0 && i == s[k].(end := Min(s[k].end, s[k].start + left))
    ensures Ids(taken + [i]) + Take(Ids(s[k + 1..]), left - i.Length()) == Ids(taken) + Take(Ids(s[k..]), left)
    ensures |Ids(taken + [i])| == |Ids(taken)| + i.Length()
  {
    var len := s[k].Length();
    var rest := Ids(s[k + 1..]);
    IdsOfRest(s, k);
    TakeFromRange(s[k].start, len, rest, left);
    IdsConcat(taken, [i]);
    IdsOfOne(i);
    assert i.Length() == Min(len, left);
    Regroup(Ids(taken), Range(i.start, i.Length()), Take(rest, left - i.Length()));
  }

  ghost predicate NonEmpty(s: IDSet) {
    forall k :: 0 <= k < |s| ==> s[k].start < s[k].end
  }

  /** `taken` are the first intervals of `s`, the last of them perhaps cut short. */
  ghost predicate CutFrom(taken: IDSet, s: IDSet) {
    && |taken| <= |s|
    && forall i :: 0 <= i < |taken| ==> taken[i].start == s[i].start && taken[i].start < taken[i].end <= s[i].end
  }

  lemma CutIsWellFormed(taken: IDSet, s: IDSet)
    requires WellFormed(s) && CutFrom(taken, s)
    ensures WellFormed(taken)
  {
  }

  /** Of the `n` ids to take from `s`, `taken` has those of the first `k` intervals, and `left` are still to be taken. */
  ghost predicate Taking(s: IDSet, n: int, taken: IDSet, k: nat, left: int) {
    && |taken| == k && CutFrom(taken, s)
    && Ids(taken) + Take(Ids(s[k..]), left) == Take(Ids(s), n)
    && |Ids(taken)| + left == n
  }

  lemma CutOneMore(taken: IDSet, s: IDSet, left: int, i: Interval)
    requires NonEmpty(s) && CutFrom(taken, s) && |taken| < |s| && left > 0
    requires i == s[|taken|].(end := Min(s[|taken|].end, s[|taken|].start + left))
    ensures CutFrom(taken + [i], s) && 0 < i.Length() <= left
  {
  }

  lemma TakingNext(s: IDSet, n: int, taken: IDSet, k: nat, left: int, i: Interval)
    requires NonEmpty(s) && Taking(s, n, taken, k, left) && k < |s| && left > 0
    requires i == s[k].(end := Min(s[k].end, s[k].start + left))
    ensures Taking(s, n, taken + [i], k + 1, left - i.Length()) && left - i.Length() >= 0
  {
    CutOneMore(taken, s, left, i);
    TakeInterval(s, k, left, taken, i);
  }

  lemma TakenAll(s: IDSet, n: int, taken: IDSet, left: int)
    requires Taking(s, n, taken, |s|, left) && left > 0
    ensures |Ids(s)| < n
  {
    assert Ids(s[|s|..]) == [];
  }

  lemma TakenEnough(s: IDSet, n: int, taken: IDSet, k: nat, left: int)
    requires WellFormed(s) && Taking(s, n, taken, k, left) && left <= 0 && (left < 0 ==> k == 0)
    ensures WellFormed(taken) && Ids(taken) == Take(Ids(s), n) && n <= |Ids(s)|
  {
    CutIsWellFormed(taken, s);
    assert Take(Ids(s[k..]), left) == [];
  }

  /** The `n` smallest ids of `s`; nothing when there are fewer. */
  method FindAvailable(s: IDSet, n: int) returns (r: Option<IDSet>)
    requires WellFormed(s)
    ensures r.None? <==> |Ids(s)| < n
    ensures r.Some? ==> WellFormed(r.value) && Ids(r.value) == Take(Ids(s), n)
  {
    var left := n;
    var taken: IDSet := [];
    var k := 0;
    assert s[0..] == s;
    while left > 0 && k < |s|
      invariant 0 <= k <= |s| && Taking(s, n, taken, k, left) && (left < 0 ==> k == 0)
      decreases |s| - k
    {
      var i := s[k].(end := Min(s[k].end, s[k].start + left));
      TakingNext(s, n, taken, k, left, i);
      taken := taken + [i];
      left := left - i.Length();
      k := k + 1;
    }
    if left > 0 {
      TakenAll(s, n, taken, left);
      return None;
    }
    TakenEnough(s, n, taken, k, left);
    r := Some(taken);
  }

  /** The (host, container) pairs an id map stands for. */
  ghost function Pairs(maps: seq<IDMap>): seq<(int, int)> {
    if maps == [] then []
    else Pairs(maps[..|maps| - 1]) + MapPairs(maps[|maps| - 1])
  }

  ghost function MapPairs(m: IDMap): seq<(int, int)> {
    seq(Max(0, m.size), k => (m.hostID + k, m.containerID + k))
  }

  /** The k-th of one list with the k-th of the other, as far as both go. */
  ghost function ZipSeq(hs: seq<int>, cs: seq<int>): seq<(int, int)> {
    seq(Min(|hs|, |cs|), k requires 0 <= k < |hs| && k < |cs| => (hs[k], cs[k]))
  }

  /** What is still to be read when `h` remains of the interval before index `k`. */
  ghost function Rest(h: Interval, s: IDSet, k: nat): seq<int>
    requires k <= |s|
  {
    Range(h.start, h.Length()) + Ids(s[k..])
  }

  lemma RestAdvances(h: Interval, s: IDSet, k: nat, n: nat)
    requires k <= |s| && n <= h.Length()
    ensures Rest(h, s, k) == Range(h.start, n) + Rest(h.(start := h.start + n), s, k)
  {
  }

  lemma RestRefills(h: Interval, s: IDSet, k: nat)
    requires k < |s| && h.IsZero()
    ensures Rest(h, s, k) == Rest(s[k], s, k + 1)
  {
    assert s[k..][1..] == s[k + 1..];
  }

  lemma ZipSeqSplits(h: int, c: int, n: nat, hs: seq<int>, cs: seq<int>)
    ensures ZipSeq(Range(h, n) + hs, Range(c, n) + cs) == MapPairs(IDMap(c, h, n)) + ZipSeq(hs, cs)
  {
  }

  lemma ZipStep(out: seq<IDMap>, m: IDMap, hs: seq<int>, cs: seq<int>)
    requires m.size >= 0
    ensures Pairs(out) + ZipSeq(Range(m.hostID, m.size) + hs, Range(m.containerID, m.size) + cs)
         == Pairs(out + [m]) + ZipSeq(hs, cs)
  {
    ZipSeqSplits(m.hostID, m.containerID, m.size, hs, cs);
    assert (out + [m])[..|out|] == out;
  }

  /** `hs` is what remains to be read at `h` and after index `i`; nothing if `done`. */
  ghost predicate At(s: IDSet, h: Interval, i: nat, done: bool, hs: seq<int>) {
    i <= |s| && if done then hs == [] else hs == Rest(h, s, i) && !h.IsZero()
  }

  /** Moves on to the next interval of `s` when nothing is left of `h`. */
  method Refill(s: IDSet, h: Interval, i: nat, ghost hs: seq<int>) returns (h': Interval, i': nat, done: bool)
    requires i <= |s| && hs == Rest(h, s, i) && NonEmpty(s)
    ensures i <= i' && (h.IsZero() && !done ==> i < i')
    ensures !h.IsZero() ==> !done
    ensures At(s, h', i', done, hs)
  {
    h', i', done := h, i, false;
    if h.IsZero() {
      if i < |s| {
        RestRefills(h, s, i);
        h', i' := s[i], i + 1;
      } else {
        done := true;
      }
    }
  }

  /** `out` and what is left of both lists make up the pairs of the whole lists. */
  ghost predicate Zipping(out: seq<IDMap>, hs: seq<int>, cs: seq<int>, all: seq<(int, int)>) {
    Pairs(out) + ZipSeq(hs, cs) == all && forall k :: 0 <= k < |out| ==> out[k].size > 0
  }

  lemma ZippingNext(out: seq<IDMap>, m: IDMap, hs: seq<int>, cs: seq<int>, all: seq<(int, int)>)
    requires m.size > 0 && Zipping(out, Range(m.hostID, m.size) + hs, Range(m.containerID, m.size) + cs, all)
    ensures Zipping(out + [m], hs, cs, all)
  {
    ZipStep(out, m, hs, cs);
  }

  lemma ZippingDone(out: seq<IDMap>, hs: seq<int>, cs: seq<int>, all: seq<(int, int)>)
    requires Zipping(out, hs, cs, all) && (hs == [] || cs == [])
    ensures Pairs(out) == all
  {
    assert ZipSeq(hs, cs) == [];
  }

  /** Pairs as many ids as the shorter of the two intervals has. */
  method ZipOne(s: IDSet, container: IDSet, h: Interval, i: nat, c: Interval, j: nat, out: seq<IDMap>,
                ghost hs: seq<int>, ghost cs: seq<int>, ghost all: seq<(int, int)>)
    returns (h': Interval, c': Interval, out': seq<IDMap>, ghost hs': seq<int>, ghost cs': seq<int>)
    requires At(s, h, i, false, hs) && At(container, c, j, false, cs) && Zipping(out, hs, cs, all)
    ensures (h'.IsZero() || c'.IsZero()) && hs' == Rest(h', s, i) && cs' == Rest(c', container, j) && Zipping(out', hs', cs', all)
  {
    var n := Min(h.Length(), c.Length());  // positive, since neither interval is empty
    var m := IDMap(c.start, h.start, n);
    RestAdvances(h, s, i, n);
    RestAdvances(c, container, j, n);
    h' := h.(start := h.start + n);
    c' := c.(start := c.start + n);
    hs', cs' := Rest(h', s, i), Rest(c', container, j);
    ZippingNext(out, m, hs', cs', all);
    out' := out + [m];
  }

  /** Where the two walks are, what they have paired, and what they have left. */
  datatype Walk = Walk(h: Interval, i: nat, hDone: bool, c: Interval, j: nat, cDone: bool, out: seq<IDMap>)

  /** Everything is paired or still to be paired. */
  ghost predicate Walking(s: IDSet, container: IDSet, w: Walk, all: seq<(int, int)>) {
    exists hs, cs :: At(s, w.h, w.i, w.hDone, hs) && At(container, w.c, w.j, w.cDone, cs) && Zipping(w.out, hs, cs, all)
  }

  /** One more mapping, and on to the next interval where one is used up. */
  method ZipNext(s: IDSet, container: IDSet, w: Walk, ghost all: seq<(int, int)>) returns (w': Walk)
    requires NonEmpty(s) && NonEmpty(container) && Walking(s, container, w, all) && !w.hDone && !w.cDone
    ensures Walking(s, container, w', all)
    ensures w'.hDone || w'.cDone || w.i + w.j < w'.i + w'.j
    ensures w.i <= w'.i <= |s| && w.j <= w'.j <= |container|
  {
    ghost var hs, cs :| At(s, w.h, w.i, w.hDone, hs) && At(container, w.c, w.j, w.cDone, cs) && Zipping(w.out, hs, cs, all);
    var h, c, out;
    h, c, out, hs, cs := ZipOne(s, container, w.h, w.i, w.c, w.j, w.out, hs, cs, all);
    var h', i, hDone := Refill(s, h, w.i, hs);
    var c', j, cDone := Refill(container, c, w.j, cs);
    w' := Walk(h', i, hDone, c', j, cDone, out);
  }

  lemma WalkingDone(s: IDSet, container: IDSet, w: Walk, all: seq<(int, int)>)
    requires Walking(s, container, w, all) && (w.hDone || w.cDone)
    ensures Pairs(w.out) == all && forall i :: 0 <= i < |w.out| ==> w.out[i].size > 0
  {
    var hs, cs :| At(s, w.h, w.i, w.hDone, hs) && At(container, w.c, w.j, w.cDone, cs) && Zipping(w.out, hs, cs, all);
    ZippingDone(w.out, hs, cs, all);
  }

  method ZipStart(s: IDSet, container: IDSet) returns (w: Walk)
    requires NonEmpty(s) && NonEmpty(container)
    ensures Walking(s, container, w, ZipSeq(Ids(s), Ids(container))) && w.i <= |s| && w.j <= |container|
  {
    ghost var hs, cs := Ids(s), Ids(container);
    assert s[0..] == s && container[0..] == container;
    var h, i, hDone := Refill(s, Interval(0, 0), 0, hs);
    var c, j, cDone := Refill(container, Interval(0, 0), 0, cs);
    w := Walk(h, i, hDone, c, j, cDone, []);
    assert Zipping([], hs, cs, ZipSeq(hs, cs));
  }

  /** Pairs the host ids of `s` with the ids of `container`, walking both lists of intervals at once. */
  method Zip(s: IDSet, container: IDSet) returns (out: seq<IDMap>)
    requires WellFormed(s) && WellFormed(container)
    ensures Pairs(out) == ZipSeq(Ids(s), Ids(container))
    ensures forall i :: 0 <= i < |out| ==> out[i].size > 0
  {
    ghost var all := ZipSeq(Ids(s), Ids(container));
    var w := ZipStart(s, container);
    while !w.hDone && !w.cDone
      invariant Walking(s, container, w, all) && w.i <= |s| && w.j <= |container|
      decreases |s| - w.i + |container| - w.j, !w.hDone && !w.cDone
    {
      w := ZipNext(s, container, w, all);
    }
    WalkingDone(s, container, w, all);
    out := w.out;
  }

  lemma MemberOfCons(i: Interval, s: IDSet, x: int)
    ensures Member([i] + s, x) <==> i.Has(x) || Member(s, x)
  {
    var t := [i] + s;
    if Member(t, x) {
      var k :| 0 <= k < |t| && t[k].Has(x);
      assert k > 0 ==> s[k - 1].Has(x);
    }
    if i.Has(x) {
      assert t[0].Has(x);
    } else if Member(s, x) {
      var k :| 0 <= k < |s| && s[k].Has(x);
      assert t[k + 1].Has(x);
    }
  }

  /** `s` with the interval `i` added; intervals that overlap or touch become one. */
  function Insert(s: IDSet, i: Interval): (r: IDSet) {
    if i.IsZero() then s
    else if s == [] then [i]
    else if s[0].end < i.start then [s[0]] + Insert(s[1..], i)
    else if i.end < s[0].start then [i] + s
    else Insert(s[1..], s[0].Encompass(i))
  }

  /** All of `s` lies at or above `low`. */
  ghost predicate From(s: IDSet, low: int) {
    forall k :: 0 <= k < |s| ==> low <= s[k].start
  }

  lemma ConsWellFormed(i: Interval, s: IDSet)
    requires WellFormed(s) && i.start < i.end && From(s, i.end + 1)
    ensures WellFormed([i] + s)
  {
  }

  lemma {:induction false} InsertKeepsOrder(s: IDSet, i: Interval)
    requires WellFormed(s)
    ensures WellFormed(Insert(s, i))
    ensures forall low :: From(s, low) && low <= i.start ==> From(Insert(s, i), low)
  {
    if !i.IsZero() && s != [] {
      var tail := s[1..];
      assert From(tail, s[0].end + 1);
      if s[0].end < i.start {
        InsertKeepsOrder(tail, i);
        assert From(Insert(tail, i), s[0].end + 1);
        ConsWellFormed(s[0], Insert(tail, i));
      } else if i.end < s[0].start {
        assert From(s, i.end + 1);
        ConsWellFormed(i, s);
      } else {
        InsertKeepsOrder(tail, s[0].Encompass(i));
      }
    }
  }

  lemma {:induction false} InsertAdds(s: IDSet, i: Interval, x: int)
    requires WellFormed(s)
    ensures Member(Insert(s, i), x) <==> Member(s, x) || i.Has(x)
  {
    if !i.IsZero() {
      if s == [] {
        MemberOfCons(i, [], x);
      } else {
        var tail := s[1..];
        assert s == [s[0]] + tail;
        MemberOfCons(s[0], tail, x);
        if s[0].end < i.start {
          InsertAdds(tail, i, x);
          MemberOfCons(s[0], Insert(tail, i), x);
        } else if i.end < s[0].start {
          MemberOfCons(i, s, x);
        } else {
          InsertAdds(tail, s[0].Encompass(i), x);
        }
      }
    }
  }

  function NewIDSet(intervals: seq<Interval>): (r: IDSet) {
    if intervals == [] then [] else Insert(NewIDSet(intervals[..|intervals| - 1]), intervals[|intervals| - 1])
  }

  lemma {:induction false} NewIDSetUnites(intervals: seq<Interval>)
    ensures WellFormed(NewIDSet(intervals))
    ensures forall x :: Member(NewIDSet(intervals), x) <==> Member(intervals, x)
  {
    if intervals != [] {
      var rest, last := intervals[..|intervals| - 1], intervals[|intervals| - 1];
      NewIDSetUnites(rest);
      InsertKeepsOrder(NewIDSet(rest), last);
      assert intervals == rest + [last];
      forall x
        ensures Member(NewIDSet(intervals), x) <==> Member(intervals, x)
      {
        InsertAdds(NewIDSet(rest), last, x);
        MemberOfSnoc(rest, last, x);
      }
    }
  }

  lemma MemberOfSnoc(s: IDSet, i: Interval, x: int)
    ensures Member(s + [i], x) <==> Member(s, x) || i.Has(x)
  {
    var t := s + [i];
    if Member(s, x) {
      var k :| 0 <= k < |s| && s[k].Has(x);
      assert t[k].Has(x);
    } else if i.Has(x) {
      assert t[|s|].Has(x);
    }
  }

  /** `s` without the ids of `j`. */
  function SubtractInterval(s: IDSet, j: Interval): (r: IDSet) {
    if s == [] then []
    else
      var (left, right) := s[0].Bisect(j);
      Cons(left, Cons(right, SubtractInterval(s[1..], j)))
  }

  /** An interval in front of a list, unless it is empty. */
  function Cons(i: Interval, s: IDSet): IDSet {
    if i.IsZero() then s else [i] + s
  }

  lemma ConsHolds(i: Interval, s: IDSet, low: int)
    requires WellFormed(s) && From(s, i.end + 1) && low <= i.start && From(s, low)
    ensures WellFormed(Cons(i, s)) && From(Cons(i, s), low)
    ensures forall x :: Member(Cons(i, s), x) <==> i.Has(x) || Member(s, x)
  {
    if !i.IsZero() {
      ConsWellFormed(i, s);
      forall x
        ensures Member([i] + s, x) <==> i.Has(x) || Member(s, x)
      {
        MemberOfCons(i, s, x);
      }
    }
  }

  lemma {:induction false} SubtractIntervalRemoves(s: IDSet, j: Interval, low: int)
    requires WellFormed(s) && From(s, low)
    ensures WellFormed(SubtractInterval(s, j)) && From(SubtractInterval(s, j), low)
    ensures forall x :: Member(SubtractInterval(s, j), x) <==> Member(s, x) && !j.Has(x)
  {
    if s != [] {
      var (left, right) := s[0].Bisect(j);
      SubtractIntervalRemoves(s[1..], j, s[0].end + 1);
      var tail := SubtractInterval(s[1..], j);
      BisectionHolds(s[0], j, tail, low);
      forall x
        ensures Member(s, x) <==> s[0].Has(x) || Member(s[1..], x)
      {
        assert s == [s[0]] + s[1..];
        MemberOfCons(s[0], s[1..], x);
      }
    }
  }

  lemma BisectionHolds(i: Interval, j: Interval, tail: IDSet, low: int)
    requires WellFormed(tail) && i.start < i.end && From(tail, i.end + 1) && low <= i.start
    ensures var (left, right) := i.Bisect(j);
      var r := Cons(left, Cons(right, tail));
      && WellFormed(r) && From(r, low)
      && forall x :: Member(r, x) <==> (i.Has(x) && !j.Has(x)) || Member(tail, x)
  {
    var (left, right) := i.Bisect(j);
    if right.IsZero() {
      if !left.IsZero() {
        ConsHolds(left, tail, low);
      }
    } else {
      ConsHolds(right, tail, right.start);
      if !left.IsZero() {
        ConsHolds(left, Cons(right, tail), low);
      }
    }
  }

  /** `s` without the ids of `t`. */
  function Subtract(s: IDSet, t: IDSet): (r: IDSet)
    decreases t
  {
    if t == [] then s else Subtract(SubtractInterval(s, t[0]), t[1..])
  }

  lemma {:induction false} SubtractRemoves(s: IDSet, t: IDSet)
    requires WellFormed(s)
    ensures WellFormed(Subtract(s, t))
    ensures forall x :: Member(Subtract(s, t), x) <==> Member(s, x) && !Member(t, x)
    decreases t
  {
    if t != [] {
      var low := if s == [] then 0 else s[0].start;
      SubtractIntervalRemoves(s, t[0], low);
      SubtractRemoves(SubtractInterval(s, t[0]), t[1..]);
      assert t == [t[0]] + t[1..];
      forall x
        ensures Member(t, x) <==> t[0].Has(x) || Member(t[1..], x)
      {
        MemberOfCons(t[0], t[1..], x);
      }
    }
  }

  function HostInterval(m: IDMap): Interval {
    Interval(m.hostID, m.hostID + m.size)
  }

  function ContainerInterval(m: IDMap): Interval {
    Interval(m.containerID, m.containerID + m.size)
  }

  function HostIntervals(maps: seq<IDMap>): seq<Interval> {
    seq(|maps|, i requires 0 <= i < |maps| => HostInterval(maps[i]))
  }

  function ContainerIntervals(maps: seq<IDMap>): seq<Interval> {
    seq(|maps|, i requires 0 <= i < |maps| => ContainerInterval(maps[i]))
  }

  ghost predicate Overlap(i: Interval, j: Interval) {
    exists x :: i.Has(x) && j.Has(x)
  }

  /** Some interval of `s` shares an id with `i`. */
  ghost predicate Touches(s: seq<Interval>, i: Interval) {
    exists k :: 0 <= k < |s| && Overlap(s[k], i)
  }

  /** Mapping `k` shares container ids or host ids with an earlier one. */
  ghost predicate Conflicts(maps: seq<IDMap>, k: nat)
    requires k < |maps|
  {
    || Touches(ContainerIntervals(maps[..k]), ContainerInterval(maps[k]))
    || Touches(HostIntervals(maps[..k]), HostInterval(maps[k]))
  }

  lemma TouchesSameIds(s: seq<Interval>, t: seq<Interval>, i: Interval)
    requires forall x :: Member(s, x) <==> Member(t, x)
    ensures Touches(s, i) ==> Touches(t, i)
  {
    if Touches(s, i) {
      var k :| 0 <= k < |s| && Overlap(s[k], i);
      var x :| s[k].Has(x) && i.Has(x);
      assert Member(s, x);
      var l :| 0 <= l < |t| && t[l].Has(x);
      assert Overlap(t[l], i);
    }
  }

  method OverlapsAny(s: IDSet, i: Interval) returns (r: bool)
    ensures r <==> Touches(s, i)
  {
    for k := 0 to |s|
      invariant forall j :: 0 <= j < k ==> !Overlap(s[j], i)
    {
      var common := s[k].Intersect(i);
      if !common.IsZero() {
        assert common.Has(common.start) && s[k].Has(common.start) && i.Has(common.start);
        assert Overlap(s[k], i);
        return true;
      }
      assert forall x :: !common.Has(x);
    }
    r := false;
  }

  lemma InsertFollows(s: IDSet, seen: seq<Interval>, i: Interval)
    requires WellFormed(s) && forall x :: Member(s, x) <==> Member(seen, x)
    ensures WellFormed(Insert(s, i)) && forall x :: Member(Insert(s, i), x) <==> Member(seen + [i], x)
  {
    InsertKeepsOrder(s, i);
    forall x
      ensures Member(Insert(s, i), x) <==> Member(seen + [i], x)
    {
      InsertAdds(s, i, x);
      MemberOfSnoc(seen, i, x);
    }
  }

  /** The first `n` mappings that conflict with an earlier one, in order. */
  ghost function Conflicting(maps: seq<IDMap>, n: nat): seq<IDMap>
    requires n <= |maps|
  {
    if n == 0 then []
    else Conflicting(maps, n - 1) + if Conflicts(maps, n - 1) then [maps[n - 1]] else []
  }

  /** No two mappings share a host id or a container id. */
  ghost predicate Disjoint(maps: seq<IDMap>) {
    forall i, j :: 0 <= i < j < |maps| ==>
      && !Overlap(HostInterval(maps[i]), HostInterval(maps[j]))
      && !Overlap(ContainerInterval(maps[i]), ContainerInterval(maps[j]))
  }

  lemma {:induction false} NoConflictsIsDisjoint(maps: seq<IDMap>, n: nat)
    requires n <= |maps|
    ensures Conflicting(maps, n) == [] <==> Disjoint(maps[..n])
  {
    if n > 0 {
      NoConflictsIsDisjoint(maps, n - 1);
      assert forall i :: 0 <= i < n - 1 ==> maps[..n][i] == maps[..n - 1][i] == maps[i];
      var cs, hs := ContainerIntervals(maps[..n - 1]), HostIntervals(maps[..n - 1]);
      assert forall i :: 0 <= i < n - 1 ==> cs[i] == ContainerInterval(maps[i]) && hs[i] == HostInterval(maps[i]);
    }
  }

  /** The mappings that conflict with an earlier mapping; none exactly when all are disjoint. */
  method HasOverlappingRanges(maps: seq<IDMap>) returns (conflicts: seq<IDMap>)
    ensures conflicts == Conflicting(maps, |maps|)
    ensures conflicts == [] <==> Disjoint(maps)
  {
    conflicts := [];
    var hosts, containers: IDSet := [], [];
    for k := 0 to |maps|
      invariant WellFormed(hosts) && forall x :: Member(hosts, x) <==> Member(HostIntervals(maps[..k]), x)
      invariant WellFormed(containers) && forall x :: Member(containers, x) <==> Member(ContainerIntervals(maps[..k]), x)
      invariant conflicts == Conflicting(maps, k)
    {
      var c, h := ContainerInterval(maps[k]), HostInterval(maps[k]);
      ghost var cs, hs := ContainerIntervals(maps[..k]), HostIntervals(maps[..k]);
      assert ContainerIntervals(maps[..k + 1]) == cs + [c] && HostIntervals(maps[..k + 1]) == hs + [h];
      TouchesSameIds(containers, cs, c);
      TouchesSameIds(cs, containers, c);
      TouchesSameIds(hosts, hs, h);
      TouchesSameIds(hs, hosts, h);
      var overlaps := OverlapsAny(containers, c);
      var added := overlaps;
      if overlaps {
        conflicts := conflicts + [maps[k]];
      }
      var hostOverlaps := OverlapsAny(hosts, h);
      overlaps := overlaps || hostOverlaps;
      if overlaps && !added {
        conflicts := conflicts + [maps[k]];
      }
      assert Conflicts(maps, k) <==> overlaps;
      InsertFollows(containers, cs, c);
      InsertFollows(hosts, hs, h);
      containers, hosts := Insert(containers, c), Insert(hosts, h);
    }
    NoConflictsIsDisjoint(maps, |maps|);
    assert maps[..|maps|] == maps;
  }
}
