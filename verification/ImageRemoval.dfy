/** Which layers go away with an image: the greedy walk of deleteImage against reachability. */
module ImageRemoval {
  import opened Common
  import opened ParentChain
  import opened StoreState

  predicate UsedByOtherImage(s: State, id: string, x: string) {
    exists i | i in s.images :: i != id && (s.images[i].top == x || x in s.images[i].mapped)
  }

  /** `x` is a reason to keep every layer on its chain when image `id` is deleted. */
  ghost predicate Keeps(s: State, id: string, x: string)
    requires id in s.images
  {
    var onChain := OnChain(ParentsOf(s), s.images[id].top, x);
    && (onChain || x !in s.images[id].mapped)
    && (ContainerExists(s, x) || UsedByOtherImage(s, id, x) || (x in s.layers && !onChain))
  }

  /** Only mapped copies of `id` stand on mapped copies of `id`. */
  ghost predicate CopiesAreClosed(s: State, id: string)
    requires id in s.images
  {
    forall m, x :: m in s.images[id].mapped && x in s.layers && s.layers[x].parent == m ==> x in s.images[id].mapped
  }

  /** The reference definition: a layer of the image's chain that nothing worth keeping reaches. */
  ghost predicate Removable(s: State, id: string, l: string)
    requires id in s.images
  {
    && CopiesAreClosed(s, id)
    && OnChain(ParentsOf(s), s.images[id].top, l)
    && forall x :: Keeps(s, id, x) ==> !OnChain(ParentsOf(s), x, l)
  }

  /** The `j`-th layer of the image's chain, counted from the top. */
  function ChainAt(s: State, id: string, j: nat): string
    requires id in s.images
  {
    Climb(ParentsOf(s), s.images[id].top, j)
  }

  /** `removed` is the mapped copies, then the chain from the top down to the first layer that is not removable. */
  ghost predicate Removal(s: State, id: string, removed: seq<string>)
    requires id in s.images
  {
    var copies := s.images[id].mapped;
    && |copies| <= |removed|
    && removed[..|copies|] == copies
    && (forall j: nat :: j < |removed| - |copies| ==> ChainAt(s, id, j) != "" && removed[|copies| + j] == ChainAt(s, id, j))
    && (forall j: nat :: ChainAt(s, id, j) != "" ==>
          (j < |removed| - |copies| <==> Removable(s, id, ChainAt(s, id, j))))
  }

  /** Layer `x` goes away with a mapped copy or with one of the first `j` layers of the chain. */
  ghost predicate Slated(s: State, id: string, j: nat, x: string)
    requires id in s.images
  {
    x in s.images[id].mapped || exists i: nat :: i < j && ChainAt(s, id, i) == x
  }

  /** The greedy walk does not stop at the `j`-th layer of the chain. */
  ghost predicate Free(s: State, id: string, j: nat)
    requires id in s.images
  {
    var l := ChainAt(s, id, j);
    && l != ""
    && !ContainerExists(s, l)
    && !UsedByOtherImage(s, id, l)
    && (forall x :: x in s.layers && s.layers[x].parent == l ==> Slated(s, id, j, x))
    && (l == s.images[id].top ==>
          forall m, x :: m in s.images[id].mapped && x in s.layers && s.layers[x].parent == m ==> Slated(s, id, j, x))
  }

  /** Everything that reaches a freely walked layer is itself slated. */
  lemma {:induction false} ReachesFromInside(s: State, id: string, j: nat, x: string, n: nat)
    requires id in s.images && Acyclic(ParentsOf(s))
    requires forall i: nat :: i <= j ==> Free(s, id, i)
    requires Climb(ParentsOf(s), x, n) == ChainAt(s, id, j)
    ensures Slated(s, id, j + 1, x)
    decreases n
  {
    var p := ParentsOf(s);
    if n > 0 {
      var y := Parent(p, x);
      assert Free(s, id, j);
      if y == "" {
        ClimbFromNothing(p, n - 1);
        assert false;
      }
      assert x in s.layers && s.layers[x].parent == y;
      ReachesFromInside(s, id, j, y, n - 1);
      assert Free(s, id, 0) && ChainAt(s, id, 0) == s.images[id].top;
      if y !in s.images[id].mapped {
        var i: nat :| i < j + 1 && ChainAt(s, id, i) == y;
        assert Free(s, id, i);
        assert Slated(s, id, i, x);
      }
    }
  }

  lemma WalkedIsRemovable(s: State, id: string, j: nat)
    requires id in s.images && Acyclic(ParentsOf(s))
    requires forall i: nat :: i <= j ==> Free(s, id, i)
    ensures Removable(s, id, ChainAt(s, id, j))
  {
    var p := ParentsOf(s);
    var l := ChainAt(s, id, j);
    assert Free(s, id, 0) && ChainAt(s, id, 0) == s.images[id].top;
    assert Free(s, id, j);
    forall x | OnChain(p, x, l)
      ensures !Keeps(s, id, x)
    {
      var n: nat :| Climb(p, x, n) == l;
      ReachesFromInside(s, id, j, x, n);
      if OnChain(p, s.images[id].top, x) {
        var i: nat :| Climb(p, s.images[id].top, i) == x;
        ClimbAdds(p, s.images[id].top, i, n);
        ChainVisitsOnce(p, s.images[id].top, i + n, j);
        assert Free(s, id, i);
      } else {
        assert forall i: nat :: i < j + 1 && ChainAt(s, id, i) == x ==> Free(s, id, i);
      }
    }
  }

  /** Without cycles, the only child of the `j`-th layer on the chain is the layer before it. */
  lemma ChildOnChain(s: State, id: string, j: nat, x: string)
    requires id in s.images && Acyclic(ParentsOf(s)) && ChainAt(s, id, j) != ""
    requires x in s.layers && s.layers[x].parent == ChainAt(s, id, j)
    requires OnChain(ParentsOf(s), s.images[id].top, x)
    ensures j > 0 && x == ChainAt(s, id, j - 1)
  {
    var p := ParentsOf(s);
    var k: nat :| Climb(p, s.images[id].top, k) == x;
    ClimbTurns(p, s.images[id].top, k);
    ChainVisitsOnce(p, s.images[id].top, k + 1, j);
  }

  /** A child of the `j`-th layer that is not slated is a reason to keep that layer. */
  lemma StrayChild(s: State, id: string, j: nat, x: string)
    requires id in s.images && Acyclic(ParentsOf(s)) && ChainAt(s, id, j) != ""
    requires x in s.layers && s.layers[x].parent == ChainAt(s, id, j) && !Slated(s, id, j, x)
    ensures Keeps(s, id, x) && OnChain(ParentsOf(s), x, ChainAt(s, id, j))
  {
    assert Climb(ParentsOf(s), x, 1) == ChainAt(s, id, j);
    if OnChain(ParentsOf(s), s.images[id].top, x) {
      ChildOnChain(s, id, j, x);
      assert false;
    }
  }

  /** From the layer where the walk stops, nothing further up is removable. */
  lemma StoppedIsKept(s: State, id: string, k: nat, j: nat)
    requires id in s.images && Acyclic(ParentsOf(s))
    requires k <= j && ChainAt(s, id, j) != "" && !Free(s, id, k)
    requires k > 0 ==> Free(s, id, 0)
    ensures !Removable(s, id, ChainAt(s, id, j))
  {
    var p := ParentsOf(s);
    var top := s.images[id].top;
    var l := ChainAt(s, id, k);
    if l == "" {
      ChainEnds(p, top, k, j);
      assert false;
    }
    ClimbAdds(p, top, k, j - k);
    assert OnChain(p, l, ChainAt(s, id, j));
    if ContainerExists(s, l) || UsedByOtherImage(s, id, l) {
      assert OnChain(p, top, l);
      assert Keeps(s, id, l);
    } else if x :| x in s.layers && s.layers[x].parent == l && !Slated(s, id, k, x) {
      StrayChild(s, id, k, x);
      ChainExtends(p, x, l, ChainAt(s, id, j));
    }
  }

  /** The greedy walk has passed the first `i` layers of the chain and stands at `layer`. */
  ghost predicate WalkedTo(s: State, id: string, i: nat, layer: string, removed: seq<string>, slated: set<string>)
    requires id in s.images
  {
    var copies := s.images[id].mapped;
    && layer == ChainAt(s, id, i)
    && |removed| == |copies| + i
    && removed[..|copies|] == copies
    && (forall j: nat :: j < i ==> removed[|copies| + j] == ChainAt(s, id, j))
    && (forall j: nat :: j < i ==> Free(s, id, j))
    && (forall x :: x in slated <==> Slated(s, id, i, x))
  }

  lemma WalkStarts(s: State, id: string)
    requires id in s.images
    ensures WalkedTo(s, id, 0, s.images[id].top, s.images[id].mapped, set m | m in s.images[id].mapped)
  {
    var copies := s.images[id].mapped;
    assert copies[..|copies|] == copies;
  }

  lemma WalkGoesOn(s: State, id: string, i: nat, layer: string, removed: seq<string>, slated: set<string>)
    requires id in s.images && WalkedTo(s, id, i, layer, removed, slated) && Free(s, id, i)
    ensures WalkedTo(s, id, i + 1, Parent(ParentsOf(s), layer), removed + [layer], slated + {layer})
  {
    ClimbTurns(ParentsOf(s), s.images[id].top, i);
    assert (removed + [layer])[..|s.images[id].mapped|] == removed[..|s.images[id].mapped|];
    assert forall x :: Slated(s, id, i + 1, x) <==> Slated(s, id, i, x) || x == layer;
  }

  /** The greedy walk removes exactly the removable part of the chain. */
  lemma WalkIsRemoval(s: State, id: string, i: nat, layer: string, removed: seq<string>, slated: set<string>)
    requires id in s.images && Acyclic(ParentsOf(s)) && WalkedTo(s, id, i, layer, removed, slated)
    requires layer == "" || !Free(s, id, i)
    ensures Removal(s, id, removed)
  {
    forall j: nat | j < i
      ensures ChainAt(s, id, j) != ""
    {
      assert Free(s, id, j);
    }
    forall j: nat | ChainAt(s, id, j) != ""
      ensures j < i <==> Removable(s, id, ChainAt(s, id, j))
    {
      if j < i {
        WalkedIsRemovable(s, id, j);
      } else {
        StoppedIsKept(s, id, i, j);
      }
    }
  }

  /** After the first `n` removals every layer that is left still has its parent. */
  ghost predicate ParentsSurvive(s: State, removed: seq<string>, n: nat)
    requires n <= |removed|
  {
    ParentsExist(DropLayers(s, Elements(removed[..n])))
  }

  /** Whatever stands on a mapped copy comes before it in the image's list of copies. */
  ghost predicate CopiesAreOrdered(s: State, id: string)
    requires id in s.images
  {
    var copies := s.images[id].mapped;
    forall i, x :: 0 <= i < |copies| && x in s.layers && s.layers[x].parent == copies[i] ==> x in copies[..i]
  }

  /** There is always a removal: the one the walk finds. */
  lemma RemovalExists(s: State, id: string) returns (removed: seq<string>)
    requires id in s.images && Acyclic(ParentsOf(s))
    ensures Removal(s, id, removed)
  {
    var p := ParentsOf(s);
    var rank :| Ranked(p, rank);
    var layer, slated, i: nat := s.images[id].top, set m | m in s.images[id].mapped, 0;
    removed := s.images[id].mapped;
    WalkStarts(s, id);
    while layer != "" && Free(s, id, i)
      invariant WalkedTo(s, id, i, layer, removed, slated)
      decreases Remaining(p, rank, layer)
    {
      WalkGoesOn(s, id, i, layer, removed, slated);
      RemainingFalls(p, rank, layer);
      removed, slated, layer, i := removed + [layer], slated + {layer}, Parent(p, layer), i + 1;
    }
    WalkIsRemoval(s, id, i, layer, removed, slated);
  }

  /** A layer without children that is no top layer and no mapped copy of the image stays. */
  lemma BystanderStays(s: State, id: string, removed: seq<string>, x: string)
    requires id in s.images && Removal(s, id, removed) && Leaf(s, x) && x != ""
    requires x != s.images[id].top && x !in s.images[id].mapped
    ensures x !in removed
  {
    var copies := s.images[id].mapped;
    assert removed == copies + removed[|copies|..];
    forall k | |copies| <= k < |removed|
      ensures removed[k] != x
    {
      var j := k - |copies|;
      assert removed[k] == ChainAt(s, id, j);
      if j > 0 {
        ClimbTurns(ParentsOf(s), s.images[id].top, j - 1);
      }
    }
  }

  lemma RemovedChildrenGoFirst(s: State, id: string, removed: seq<string>, j: nat, x: string)
    requires id in s.images && Acyclic(ParentsOf(s)) && Removal(s, id, removed)
    requires j < |removed| - |s.images[id].mapped|
    requires x in s.layers && s.layers[x].parent == ChainAt(s, id, j)
    ensures x in removed[..|s.images[id].mapped| + j]
  {
    var c := |s.images[id].mapped|;
    assert Removable(s, id, ChainAt(s, id, j));
    if !Slated(s, id, j, x) {
      StrayChild(s, id, j, x);
      assert false;
    }
    if x in s.images[id].mapped {
      var i :| 0 <= i < c && s.images[id].mapped[i] == x;
      assert removed[..c][i] == removed[..c + j][i];
    } else {
      var i: nat :| i < j && ChainAt(s, id, i) == x;
      assert removed[..c + j][c + i] == x;
    }
  }

  lemma RemovedParentHasNoHeirs(s: State, id: string, removed: seq<string>, i: nat, x: string)
    requires id in s.images && Acyclic(ParentsOf(s)) && Removal(s, id, removed) && CopiesAreOrdered(s, id)
    requires i < |removed| && x in s.layers && s.layers[x].parent == removed[i]
    ensures x in removed[..i]
  {
    var copies := s.images[id].mapped;
    if i < |copies| {
      assert copies[i] == removed[..|copies|][i];
      assert copies[..i] == removed[..|copies|][..i] == removed[..i];
    } else {
      RemovedChildrenGoFirst(s, id, removed, i - |copies|, x);
    }
  }

  lemma OrderedCopiesKeepParents(s: State, id: string, removed: seq<string>, n: nat)
    requires id in s.images && ParentsExist(s) && Acyclic(ParentsOf(s))
    requires Removal(s, id, removed) && CopiesAreOrdered(s, id) && n <= |removed|
    ensures ParentsSurvive(s, removed, n)
  {
    forall x | x in s.layers && s.layers[x].parent in removed[..n]
      ensures x in removed[..n]
    {
      var i :| 0 <= i < n && removed[i] == s.layers[x].parent;
      RemovedParentHasNoHeirs(s, id, removed, i, x);
    }
  }

  /** The first copy with a layer on it that is still there when the copy goes leaves that layer an orphan. */
  lemma UnorderedCopyOrphans(s: State, id: string, removed: seq<string>, i: nat, x: string)
    requires id in s.images && ParentsExist(s) && ImageLayersExist(s) && Acyclic(ParentsOf(s))
    requires Removal(s, id, removed) && i < |s.images[id].mapped|
    requires x in s.layers && s.layers[x].parent == s.images[id].mapped[i] && x !in s.images[id].mapped[..i]
    ensures !ParentsSurvive(s, removed, i + 1)
  {
    var copies := s.images[id].mapped;
    assert MappedCopyOf(s, id, copies[i]);
    var rank :| Ranked(ParentsOf(s), rank);
    assert ParentsOf(s)[x] == copies[i];
    assert removed[..i + 1] == removed[..|copies|][..i + 1] == copies[..i] + [copies[i]];
    assert x in DropLayers(s, Elements(removed[..i + 1])).layers;
  }

  /** Every prefix of the removal leaves the others with their parents exactly when the copies are ordered. */
  lemma RemovalOrder(s: State, id: string, removed: seq<string>)
    requires id in s.images && ParentsExist(s) && ImageLayersExist(s) && Acyclic(ParentsOf(s))
    requires Removal(s, id, removed)
    ensures (forall n: nat :: n <= |removed| ==> ParentsSurvive(s, removed, n)) <==> CopiesAreOrdered(s, id)
  {
    var copies := s.images[id].mapped;
    if CopiesAreOrdered(s, id) {
      forall n: nat | n <= |removed|
        ensures ParentsSurvive(s, removed, n)
      {
        OrderedCopiesKeepParents(s, id, removed, n);
      }
    } else {
      var i, x :| 0 <= i < |copies| && x in s.layers && s.layers[x].parent == copies[i] && x !in copies[..i];
      UnorderedCopyOrphans(s, id, removed, i, x);
    }
  }
}
