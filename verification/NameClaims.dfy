/** Names claimed by several records at once: the last claimant keeps them.
    Layers and images resolve such conflicts while loading; both passes are here, over plain lists of names. */
module NameClaims {
  import opened Common

  type NameLists = seq<seq<string>>

  predicate Lists(ns: NameLists, x: string) {
    exists i | 0 <= i < |ns| :: x in ns[i]
  }

  /** The names that no later list claims. */
  function Surviving(names: seq<string>, later: NameLists): (r: seq<string>)
    ensures forall n :: n in r <==> n in names && !Lists(later, n)
  {
    if names == [] then []
    else (if Lists(later, names[0]) then [] else [names[0]]) + Surviving(names[1..], later)
  }

  /** Every name goes to the last list that has it. */
  function Resolved(ns: NameLists): (r: NameLists)
    ensures |r| == |ns|
  {
    seq(|ns|, i requires 0 <= i < |ns| => Surviving(ns[i], ns[i + 1..]))
  }

  lemma {:induction false} SurvivingStaysDistinct(names: seq<string>, later: NameLists)
    requires Distinct(names)
    ensures Distinct(Surviving(names, later))
  {
    if names != [] {
      SurvivingStaysDistinct(names[1..], later);
      assert names[0] !in names[1..];
    }
  }

  lemma {:induction false} SurvivingAll(names: seq<string>, later: NameLists)
    requires forall n :: n in names ==> !Lists(later, n)
    ensures Surviving(names, later) == names
  {
    if names != [] {
      assert names[0] in names && forall n :: n in names[1..] ==> n in names;
      SurvivingAll(names[1..], later);
    }
  }

  /** After resolution no name is in two lists. */
  lemma ResolvedIsUnique(ns: NameLists, i: nat, j: nat, x: string)
    requires i < j < |ns| && x in Resolved(ns)[i]
    ensures x !in Resolved(ns)[j]
  {
    assert ns[i + 1..][j - i - 1] == ns[j];
  }

  /** No name is lost: the last list that had it still has it. */
  lemma LastKeeps(ns: NameLists, i: nat, x: string)
    requires i < |ns| && x in ns[i] && forall j :: i < j < |ns| ==> x !in ns[j]
    ensures x in Resolved(ns)[i]
  {
    forall l | l in ns[i + 1..]
      ensures x !in l
    {
      var j :| i < j < |ns| && ns[j] == l;
    }
  }

  lemma UniqueIsResolved(ns: NameLists)
    requires forall i, j, x :: 0 <= i < j < |ns| && x in ns[i] ==> x !in ns[j]
    ensures Resolved(ns) == ns
  {
    forall i | 0 <= i < |ns|
      ensures Resolved(ns)[i] == ns[i]
    {
      var later := ns[i + 1..];
      forall x, j | x in ns[i] && 0 <= j < |later|
        ensures x !in later[j]
      {
        assert later[j] == ns[i + 1 + j];
      }
      SurvivingAll(ns[i], later);
    }
  }

  function RemoveName(names: seq<string>, x: string): (r: seq<string>)
    ensures forall n :: n in r <==> n in names && n != x
  {
    if names == [] then []
    else (if names[0] == x then [] else [names[0]]) + RemoveName(names[1..], x)
  }

  lemma {:induction false} RemoveAbsent(names: seq<string>, x: string)
    requires x !in names
    ensures RemoveName(names, x) == names
  {
    if names != [] {
      assert names[0] in names && forall n :: n in names[1..] ==> n in names;
      RemoveAbsent(names[1..], x);
    }
  }

  /** One more claimed name takes exactly that name away. */
  lemma {:induction false} ClaimOneMore(names: seq<string>, later: NameLists, later': NameLists, x: string)
    requires forall n :: Lists(later', n) <==> Lists(later, n) || n == x
    ensures Surviving(names, later') == RemoveName(Surviving(names, later), x)
  {
    if names != [] {
      ClaimOneMore(names[1..], later, later', x);
      var rest := Surviving(names[1..], later);
      if !Lists(later, names[0]) {
        assert Surviving(names, later) == [names[0]] + rest;
        assert ([names[0]] + rest)[1..] == rest;
        assert RemoveName([names[0]] + rest, x) == (if names[0] == x then [] else [names[0]]) + RemoveName(rest, x);
      } else {
        assert Lists(later', names[0]);
        assert Surviving(names, later) == rest && Surviving(names, later') == Surviving(names[1..], later');
      }
    }
  }

  lemma {:induction false} SameClaims(names: seq<string>, later: NameLists, later': NameLists)
    requires forall n :: Lists(later', n) <==> Lists(later, n)
    ensures Surviving(names, later') == Surviving(names, later)
  {
    if names != [] {
      SameClaims(names[1..], later, later');
    }
  }

  // ---- How far a pass over the lists has come: `n` whole lists and `k` names of the next

  ghost predicate InReach(ns: NameLists, n: nat, k: nat) {
    n < |ns| && k <= |ns[n]|
  }

  /** The pass has seen list `i` claim `x`. */
  ghost predicate Seen(ns: NameLists, n: nat, k: nat, i: int, x: string)
    requires InReach(ns, n, k)
  {
    0 <= i <= n && x in if i < n then ns[i] else ns[n][..k]
  }

  /** The lists after the `i`-th, as far as the pass has come. */
  ghost function Later(ns: NameLists, i: nat, n: nat, k: nat): NameLists
    requires i < n && InReach(ns, n, k)
  {
    ns[i + 1..n] + [ns[n][..k]]
  }

  lemma LaterLists(ns: NameLists, i: nat, n: nat, k: nat, x: string)
    requires i < n && InReach(ns, n, k)
    ensures Lists(Later(ns, i, n, k), x) <==> exists j :: i < j <= n && Seen(ns, n, k, j, x)
  {
    var later := Later(ns, i, n, k);
    if Lists(later, x) {
      var j :| 0 <= j < |later| && x in later[j];
      assert Seen(ns, n, k, i + 1 + j, x);
    }
    if j :| i < j <= n && Seen(ns, n, k, j, x) {
      assert x in later[j - i - 1];
    }
  }

  lemma SeenOneMore(ns: NameLists, n: nat, k: nat, i: int, y: string)
    requires InReach(ns, n, k) && k < |ns[n]|
    ensures Seen(ns, n, k + 1, i, y) <==> Seen(ns, n, k, i, y) || (i == n && y == ns[n][k])
  {
    assert ns[n][..k + 1] == ns[n][..k] + [ns[n][k]];
  }

  lemma LaterOneMore(ns: NameLists, n: nat, k: nat, i: nat, y: string)
    requires i < n && InReach(ns, n, k) && k < |ns[n]|
    ensures Lists(Later(ns, i, n, k + 1), y) <==> Lists(Later(ns, i, n, k), y) || y == ns[n][k]
  {
    var k' := k + 1;
    LaterLists(ns, i, n, k, y);
    LaterLists(ns, i, n, k', y);
    SeenOneMore(ns, n, k, n, y);
    if j :| i < j <= n && Seen(ns, n, k, j, y) {
      SeenOneMore(ns, n, k, j, y);
      assert Seen(ns, n, k', j, y);
    }
    if j :| i < j <= n && Seen(ns, n, k', j, y) {
      SeenOneMore(ns, n, k, j, y);
      assert y == ns[n][k] || Seen(ns, n, k, j, y);
    }
    assert y == ns[n][k] ==> Seen(ns, n, k', n, y);
  }

  lemma SurvivorsOneMore(ns: NameLists, n: nat, k: nat, i: nat)
    requires i < n && InReach(ns, n, k) && k < |ns[n]|
    ensures Surviving(ns[i], Later(ns, i, n, k + 1)) == RemoveName(Surviving(ns[i], Later(ns, i, n, k)), ns[n][k])
  {
    var a, b := Later(ns, i, n, k), Later(ns, i, n, k + 1);
    forall y
      ensures Lists(b, y) <==> Lists(a, y) || y == ns[n][k]
    {
      LaterOneMore(ns, n, k, i, y);
    }
    ClaimOneMore(ns[i], a, b, ns[n][k]);
  }

  lemma SeenNext(ns: NameLists, n: nat, i: int, x: string)
    requires n + 1 < |ns|
    ensures Seen(ns, n + 1, 0, i, x) <==> Seen(ns, n, |ns[n]|, i, x)
  {
    assert ns[n][..|ns[n]|] == ns[n];
  }

  lemma LaterNext(ns: NameLists, n: nat, i: nat, x: string)
    requires i <= n && n + 1 < |ns|
    ensures Lists(Later(ns, i, n + 1, 0), x) <==> i < n && Lists(Later(ns, i, n, |ns[n]|), x)
  {
    var k, n' := |ns[n]|, n + 1;
    LaterLists(ns, i, n', 0, x);
    if j :| i < j <= n' && Seen(ns, n', 0, j, x) {
      SeenNext(ns, n, j, x);
      assert Seen(ns, n, k, j, x);
      LaterLists(ns, i, n, k, x);
    }
    if i < n {
      LaterLists(ns, i, n, k, x);
      if j :| i < j <= n && Seen(ns, n, k, j, x) {
        SeenNext(ns, n, j, x);
        assert Seen(ns, n', 0, j, x);
      }
    }
  }

  lemma SurvivorsNext(ns: NameLists, n: nat, i: nat)
    requires i <= n && n + 1 < |ns|
    ensures Surviving(ns[i], Later(ns, i, n + 1, 0)) == if i < n then Surviving(ns[i], Later(ns, i, n, |ns[n]|)) else ns[i]
  {
    var k, later := |ns[n]|, Later(ns, i, n + 1, 0);
    forall x
      ensures Lists(later, x) <==> i < n && Lists(Later(ns, i, n, k), x)
    {
      LaterNext(ns, n, i, x);
    }
    if i < n {
      SameClaims(ns[i], Later(ns, i, n, k), later);
    } else {
      SurvivingAll(ns[i], later);
    }
  }

  /** `ls` is `ns` with the claims seen so far honoured. */
  ghost predicate Honoured(ns: NameLists, n: nat, k: nat, ls: NameLists) {
    && InReach(ns, n, k) && |ls| == |ns|
    && (forall i :: n <= i < |ns| ==> ls[i] == ns[i])
    && (forall i :: 0 <= i < n ==> ls[i] == Surviving(ns[i], Later(ns, i, n, k)))
  }

  /** The index points to the last list seen to claim a name. */
  ghost predicate Indexed(ns: NameLists, n: nat, k: nat, names: map<string, nat>)
    requires InReach(ns, n, k)
  {
    && (forall i, x :: Seen(ns, n, k, i, x) ==> x in names && i <= names[x])
    && (forall x :: x in names ==> Seen(ns, n, k, names[x], x))
  }

  lemma IndexOneMore(ns: NameLists, n: nat, k: nat, names: map<string, nat>)
    requires InReach(ns, n, k) && k < |ns[n]| && Indexed(ns, n, k, names)
    ensures Indexed(ns, n, k + 1, names[ns[n][k] := n])
  {
    var names', k' := names[ns[n][k] := n], k + 1;
    forall i, y | Seen(ns, n, k', i, y)
      ensures y in names' && i <= names'[y]
    {
      SeenOneMore(ns, n, k, i, y);
    }
    forall y | y in names'
      ensures Seen(ns, n, k', names'[y], y)
    {
      SeenOneMore(ns, n, k, names'[y], y);
    }
  }

  lemma IndexNext(ns: NameLists, n: nat, names: map<string, nat>)
    requires n + 1 < |ns| && Indexed(ns, n, |ns[n]|, names)
    ensures Indexed(ns, n + 1, 0, names)
  {
    var n' := n + 1;
    forall i, x | Seen(ns, n', 0, i, x)
      ensures x in names && i <= names[x]
    {
      SeenNext(ns, n, i, x);
    }
    forall x | x in names
      ensures Seen(ns, n', 0, names[x], x)
    {
      SeenNext(ns, n, names[x], x);
    }
  }

  lemma HonouredNext(ns: NameLists, n: nat, ls: NameLists)
    requires n + 1 < |ns| && Honoured(ns, n, |ns[n]|, ls)
    ensures Honoured(ns, n + 1, 0, ls)
  {
    forall i | 0 <= i <= n
      ensures ls[i] == Surviving(ns[i], Later(ns, i, n + 1, 0))
    {
      SurvivorsNext(ns, n, i);
    }
  }

  /** Whoever still holds a name is whom the index points to, however little of the current list the index knows. */
  lemma HolderIsIndexed(ns: NameLists, n: nat, k: nat, m: nat, ls: NameLists, names: map<string, nat>, i: nat, x: string)
    requires Honoured(ns, n, k, ls) && InReach(ns, n, m) && Indexed(ns, n, m, names) && m <= k && i < n && x in ls[i]
    ensures x in names && (names[x] == i || names[x] == n)
  {
    LaterLists(ns, i, n, k, x);
    assert Seen(ns, n, m, i, x);
    assert Seen(ns, n, m, names[x], x);
    assert names[x] < n ==> Seen(ns, n, k, names[x], x);
  }

  function Released(ls: NameLists, names: map<string, nat>, x: string): (r: NameLists)
    requires x in names ==> names[x] < |ls|
    ensures |r| == |ls|
  {
    if x in names then ls[names[x] := RemoveName(ls[names[x]], x)] else ls
  }

  /** Taking the current name away from whom the index points to honours one more claim. */
  lemma HonourOneMore(ns: NameLists, n: nat, k: nat, m: nat, ls: NameLists, names: map<string, nat>)
    requires Honoured(ns, n, k, ls) && InReach(ns, n, m) && Indexed(ns, n, m, names) && m <= k && k < |ns[n]|
    requires ns[n][k] in names ==> names[ns[n][k]] < n
    ensures Honoured(ns, n, k + 1, Released(ls, names, ns[n][k]))
  {
    var x := ns[n][k];
    forall i | 0 <= i < n
      ensures Released(ls, names, x)[i] == Surviving(ns[i], Later(ns, i, n, k + 1))
    {
      SurvivorsOneMore(ns, n, k, i);
      if x in ls[i] {
        HolderIsIndexed(ns, n, k, m, ls, names, i, x);
      } else {
        RemoveAbsent(ls[i], x);
      }
    }
  }

  lemma FullyHonoured(ns: NameLists, n: nat, ls: NameLists)
    requires n + 1 == |ns| && Honoured(ns, n, |ns[n]|, ls)
    ensures ls == Resolved(ns)
  {
    var k := |ns[n]|;
    assert ns[n][..k] == ns[n];
    forall i | 0 <= i < n
      ensures ls[i] == Resolved(ns)[i]
    {
      assert ns[i + 1..] == Later(ns, i, n, k);
    }
    SurvivingAll(ns[n], ns[n + 1..]);
  }

  /** The index, by position, agrees with the lists. */
  ghost predicate Placed(ls: NameLists, names: map<string, nat>) {
    && (forall i, x :: 0 <= i < |ls| ==> (x in ls[i] <==> x in names && names[x] == i))
    && (forall x :: x in names ==> names[x] < |ls|)
  }

  lemma FullyIndexedAt(ns: NameLists, n: nat, ls: NameLists, names: map<string, nat>, i: nat, x: string)
    requires n + 1 == |ns| && Honoured(ns, n, |ns[n]|, ls) && Indexed(ns, n, |ns[n]|, names) && i < |ns|
    ensures x in ls[i] <==> x in names && names[x] == i
  {
    var k := |ns[n]|;
    assert ns[n][..k] == ns[n];
    assert x in ns[i] <==> Seen(ns, n, k, i, x);
    assert x in names ==> Seen(ns, n, k, names[x], x);
    if i < n {
      LaterLists(ns, i, n, k, x);
    }
  }

  lemma FullyIndexed(ns: NameLists, n: nat, ls: NameLists, names: map<string, nat>)
    requires n + 1 == |ns| && Honoured(ns, n, |ns[n]|, ls) && Indexed(ns, n, |ns[n]|, names)
    ensures Placed(ls, names)
  {
    forall i, x | 0 <= i < |ns|
      ensures x in ls[i] <==> x in names && names[x] == i
    {
      FullyIndexedAt(ns, n, ls, names, i, x);
    }
    forall x | x in names
      ensures names[x] < |ls|
    {
      assert Seen(ns, n, |ns[n]|, names[x], x);
    }
  }

  /** The positions whose lists differ. */
  function Changed(ns: NameLists, ls: NameLists): set<nat>
    requires |ns| == |ls|
  {
    set i: nat | i < |ns| && ls[i] != ns[i]
  }

  /** A list that lost a name differs from what was read. */
  lemma ReleaseChanges(ns: NameLists, n: nat, m: nat, ls: NameLists, names: map<string, nat>, x: string)
    requires InReach(ns, n, m) && |ls| == |ns| && Indexed(ns, n, m, names) && x in names && names[x] < n
    ensures Changed(ns, Released(ls, names, x)) == Changed(ns, ls) + {names[x]}
  {
    assert Seen(ns, n, m, names[x], x);
    assert Released(ls, names, x)[names[x]] != ns[names[x]];
  }

  // ---- The layer store's pass: every name is taken over the moment it is read

  /** The index does not point to the list being read when no list has a name twice. */
  lemma HolderIsEarlier(ns: NameLists, n: nat, k: nat, names: map<string, nat>)
    requires InReach(ns, n, k) && k < |ns[n]| && Indexed(ns, n, k, names) && Distinct(ns[n])
    ensures ns[n][k] in names ==> names[ns[n][k]] < n
  {
    var x := ns[n][k];
    assert x !in ns[n][..k];
    if x in names {
      assert Seen(ns, n, k, names[x], x);
    }
  }

  method TakeOverNames(ns: NameLists, n: nat, ls0: NameLists, names0: map<string, nat>)
    returns (ls: NameLists, names: map<string, nat>, lost: set<nat>)
    requires Honoured(ns, n, 0, ls0) && Indexed(ns, n, 0, names0) && Distinct(ns[n])
    ensures Honoured(ns, n, |ns[n]|, ls) && Indexed(ns, n, |ns[n]|, names)
    ensures Changed(ns, ls) == Changed(ns, ls0) + lost
  {
    ls, names, lost := ls0, names0, {};
    for k := 0 to |ns[n]|
      invariant Honoured(ns, n, k, ls) && Indexed(ns, n, k, names)
      invariant Changed(ns, ls) == Changed(ns, ls0) + lost
    {
      var name := ns[n][k];
      HolderIsEarlier(ns, n, k, names);
      HonourOneMore(ns, n, k, k, ls, names);
      IndexOneMore(ns, n, k, names);
      if name in names {
        var conflict := names[name];
        ReleaseChanges(ns, n, k, ls, names, name);
        ls := ls[conflict := RemoveName(ls[conflict], name)];
        lost := lost + {conflict};
      }
      names := names[name := n];
    }
  }

  /** Resolves the names of layers; `changed` holds the positions that lost a name. */
  method ResolveWhileReading(ns: NameLists) returns (ls: NameLists, names: map<string, nat>, changed: set<nat>)
    requires forall i :: 0 <= i < |ns| ==> Distinct(ns[i])
    ensures ls == Resolved(ns) && changed == Changed(ns, ls) && Placed(ls, names)
  {
    ls, names, changed := ns, map[], {};
    if ns == [] {
      return;
    }
    var lost;
    ls, names, changed := TakeOverNames(ns, 0, ls, names);
    var n := 0;
    while n + 1 < |ns|
      invariant n < |ns| && Honoured(ns, n, |ns[n]|, ls) && Indexed(ns, n, |ns[n]|, names)
      invariant changed == Changed(ns, ls)
    {
      HonouredNext(ns, n, ls);
      IndexNext(ns, n, names);
      n := n + 1;
      ls, names, lost := TakeOverNames(ns, n, ls, names);
      changed := changed + lost;
    }
    FullyHonoured(ns, n, ls);
    FullyIndexed(ns, n, ls, names);
  }

  // ---- The image store's pass: names are taken away first, and the index is updated afterwards

  method TakeAwayNames(ns: NameLists, n: nat, ls0: NameLists, names: map<string, nat>)
    returns (ls: NameLists, conflict: bool)
    requires Honoured(ns, n, 0, ls0) && Indexed(ns, n, 0, names)
    ensures Honoured(ns, n, |ns[n]|, ls)
    ensures Changed(ns, ls) != {} <==> Changed(ns, ls0) != {} || conflict
  {
    ls, conflict := ls0, false;
    for k := 0 to |ns[n]|
      invariant Honoured(ns, n, k, ls)
      invariant Changed(ns, ls) != {} <==> Changed(ns, ls0) != {} || conflict
    {
      var name := ns[n][k];
      if name in names {
        assert Seen(ns, n, 0, names[name], name);
        ReleaseChanges(ns, n, 0, ls, names, name);
      }
      HonourOneMore(ns, n, k, 0, ls, names);
      if name in names {
        ls := ls[names[name] := RemoveName(ls[names[name]], name)];
        conflict := true;
      }
    }
  }

  method IndexNames(ns: NameLists, n: nat, names0: map<string, nat>) returns (names: map<string, nat>)
    requires InReach(ns, n, 0) && Indexed(ns, n, 0, names0)
    ensures Indexed(ns, n, |ns[n]|, names)
  {
    names := names0;
    for k := 0 to |ns[n]|
      invariant Indexed(ns, n, k, names)
    {
      IndexOneMore(ns, n, k, names);
      names := names[ns[n][k] := n];
    }
  }

  /** Resolves the names of images; `conflict` says whether some image lost a name. */
  method ResolveThenIndex(ns: NameLists) returns (ls: NameLists, names: map<string, nat>, conflict: bool)
    ensures ls == Resolved(ns) && Placed(ls, names)
    ensures conflict <==> Resolved(ns) != ns
  {
    ls, names, conflict := ns, map[], false;
    if ns == [] {
      return;
    }
    assert Changed(ns, ls) == {};
    ls, conflict := TakeAwayNames(ns, 0, ls, names);
    names := IndexNames(ns, 0, names);
    var n := 0;
    while n + 1 < |ns|
      invariant n < |ns| && Honoured(ns, n, |ns[n]|, ls) && Indexed(ns, n, |ns[n]|, names)
      invariant conflict <==> Changed(ns, ls) != {}
    {
      HonouredNext(ns, n, ls);
      IndexNext(ns, n, names);
      n := n + 1;
      var more;
      ls, more := TakeAwayNames(ns, n, ls, names);
      conflict := conflict || more;
      names := IndexNames(ns, n, names);
    }
    FullyHonoured(ns, n, ls);
    FullyIndexed(ns, n, ls, names);
    NothingChanged(ns, ls);
  }

  lemma NothingChanged(ns: NameLists, ls: NameLists)
    requires |ns| == |ls|
    ensures Changed(ns, ls) == {} <==> ls == ns
  {
    if Changed(ns, ls) == {} {
      forall i: nat | i < |ns|
        ensures ls[i] == ns[i]
      {
        assert i !in Changed(ns, ls);
      }
    }
  }

  // ---- A name index by ID

  /** The index leads from name `n` to `id`. */
  ghost predicate Leads(byname: map<string, string>, n: string, id: string) {
    n in byname && byname[n] == id
  }

  /** The index entries of `id`. */
  ghost function NamesFor(names: seq<string>, id: string): map<string, string> {
    map n | n in names :: id
  }

  lemma NamesForOneMore(index: map<string, string>, names: seq<string>, k: nat, id: string)
    requires k < |names|
    ensures index + NamesFor(names[..k + 1], id) == (index + NamesFor(names[..k], id))[names[k] := id]
  {
    assert names[..k + 1] == names[..k] + [names[k]];
  }
}
