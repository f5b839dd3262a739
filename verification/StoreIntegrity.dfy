/** Every operation of the store keeps its references intact. */
module StoreIntegrity {
  import opened Common
  import opened ParentChain
  import opened StoreState
  import opened ImageRemoval
  import opened StoreOps

  // ---- Growing: one more layer, image, container or mapped copy

  lemma NewLayerKeepsLeaves(s: State, t: State, id: string, layer: Layer)
    requires ContainerLayersAreLeaves(s) && !LayerOfContainer(s, layer.parent)
    requires t == s.(layers := s.layers[id := layer]) && id !in s.layers
    ensures ContainerLayersAreLeaves(t)
  {
    forall c | c in t.containers
      ensures Leaf(t, t.containers[c].layer)
    {
      assert Leaf(s, s.containers[c].layer);
    }
  }

  lemma NewLayerKeepsCopiesPrivate(s: State, t: State, id: string, layer: Layer)
    requires MappedCopiesPrivate(s) && (forall i :: !MappedCopyOf(s, i, layer.parent))
    requires t == s.(layers := s.layers[id := layer]) && id !in s.layers
    ensures MappedCopiesPrivate(t)
  {
    assert forall i, m :: MappedCopyOf(t, i, m) <==> MappedCopyOf(s, i, m);
    assert forall i, x :: StandsFor(t, i, x) <==> StandsFor(s, i, x);
  }

  lemma NewLayerKeepsExistence(s: State, t: State, id: string, layer: Layer)
    requires ParentsExist(s) && ImageLayersExist(s)
    requires t == s.(layers := s.layers[id := layer]) && id != "" && id !in s.layers
    requires layer.parent == "" || layer.parent in s.layers
    ensures ParentsExist(t) && ImageLayersExist(t)
  {
    assert forall i, m :: MappedCopyOf(t, i, m) ==> MappedCopyOf(s, i, m);
  }

  lemma PutLayerKeepsIntegrity(s: State, id: string, layer: Layer)
    requires Integrity(s) && Legal(s, OpPutLayer(id, layer))
    ensures Integrity(PutLayer(s, id, layer).0)
  {
    var t := PutLayer(s, id, layer).0;
    if t != s {
      AddingKeepsAcyclic(s, id, layer);
      NewLayerKeepsExistence(s, t, id, layer);
      NewLayerKeepsLeaves(s, t, id, layer);
      NewLayerKeepsCopiesPrivate(s, t, id, layer);
    }
  }

  lemma CreateImageKeepsIntegrity(s: State, id: string, top: string, bigData: map<string, int>)
    requires Integrity(s) && Legal(s, OpCreateImage(id, top, bigData))
    ensures Integrity(CreateImage(s, id, top, bigData).0)
  {
    var t := CreateImage(s, id, top, bigData).0;
    if t != s {
      assert ParentsOf(t) == ParentsOf(s);
      assert forall i, m :: MappedCopyOf(t, i, m) <==> MappedCopyOf(s, i, m);
      NewImageKeepsLeaves(s, t, id, top);
      NewImageKeepsCopiesPrivate(s, t, id, top);
    }
  }

  lemma NewImageKeepsLeaves(s: State, t: State, id: string, top: string)
    requires ContainerLayersAreLeaves(s) && !LayerOfContainer(s, top)
    requires t.layers == s.layers && t.containers == s.containers && id in t.images && t.images[id].top == top
    requires t.images == s.images[id := t.images[id]]
    ensures ContainerLayersAreLeaves(t)
  {
    forall c | c in t.containers
      ensures OwnsLeaf(t, c)
    {
      assert OwnsLeaf(s, c);
      assert Leaf(t, t.containers[c].layer) <==> Leaf(s, s.containers[c].layer);
    }
  }

  lemma NewImageKeepsCopiesPrivate(s: State, t: State, id: string, top: string)
    requires MappedCopiesPrivate(s) && (forall i :: !MappedCopyOf(s, i, top))
    requires t.layers == s.layers && t.containers == s.containers && id in t.images && t.images[id].top == top && t.images[id].mapped == []
    requires id !in s.images && t.images == s.images[id := t.images[id]]
    ensures MappedCopiesPrivate(t)
  {
    assert forall i, m :: MappedCopyOf(t, i, m) <==> MappedCopyOf(s, i, m);
    forall i, m | MappedCopyOf(t, i, m)
      ensures PrivateCopy(t, i, m)
    {
      assert PrivateCopy(s, i, m);
      assert LayerOfContainer(t, m) <==> LayerOfContainer(s, m);
      assert forall x :: StandsFor(t, i, x) <==> StandsFor(s, i, x);
    }
  }

  lemma NewContainerOwnsLeaf(s: State, t: State, id: string, c: Container, layer: Layer)
    requires ParentsExist(s) && ImageLayersExist(s) && ContainerLayersAreLeaves(s)
    requires t == s.(layers := s.layers[c.layer := layer], containers := s.containers[id := c])
    requires c.layer != "" && c.layer !in s.layers && id !in s.containers
    requires layer.parent == "" || layer.parent in s.layers
    ensures OwnsLeaf(t, id)
  {
    assert forall d :: d in s.containers ==> OwnsLeaf(s, d);
  }

  lemma OtherContainerOwnsLeaf(s: State, t: State, id: string, c: Container, layer: Layer, d: string)
    requires ParentsExist(s) && ImageLayersExist(s) && ContainerLayersAreLeaves(s)
    requires t == s.(layers := s.layers[c.layer := layer], containers := s.containers[id := c])
    requires c.layer != "" && c.layer !in s.layers && id !in s.containers
    requires d in s.containers && (layer.parent == "" || !LayerOfContainer(s, layer.parent))
    ensures OwnsLeaf(t, d)
  {
    assert OwnsLeaf(s, d);
  }

  lemma NewContainerKeepsLeaves(s: State, t: State, id: string, c: Container, layer: Layer)
    requires ParentsExist(s) && ImageLayersExist(s) && ContainerLayersAreLeaves(s)
    requires t == s.(layers := s.layers[c.layer := layer], containers := s.containers[id := c])
    requires c.layer != "" && c.layer !in s.layers && id !in s.containers
    requires layer.parent == "" || (layer.parent in s.layers && !LayerOfContainer(s, layer.parent))
    ensures ContainerLayersAreLeaves(t)
  {
    NewContainerOwnsLeaf(s, t, id, c, layer);
    forall d | d in s.containers {
      OtherContainerOwnsLeaf(s, t, id, c, layer, d);
    }
  }

  lemma NewContainerKeepsCopiesPrivate(s: State, t: State, id: string, c: Container, layer: Layer)
    requires ImageLayersExist(s) && MappedCopiesPrivate(s)
    requires t == s.(layers := s.layers[c.layer := layer], containers := s.containers[id := c])
    requires c.layer !in s.layers && id !in s.containers
    requires forall i :: MappedCopyOf(s, i, layer.parent) ==> c.image == i
    ensures MappedCopiesPrivate(t)
  {
    assert forall i, m :: MappedCopyOf(t, i, m) <==> MappedCopyOf(s, i, m);
    forall i, m, x | MappedCopyOf(t, i, m) && x in t.layers && t.layers[x].parent == m
      ensures StandsFor(t, i, x)
    {
      if x == c.layer {
        assert t.containers[id] == c;
      } else {
        assert StandsFor(s, i, x);
        var d :| d in s.containers && s.containers[d].layer == x && s.containers[d].image == i;
        assert t.containers[d] == s.containers[d];
      }
    }
  }

  lemma NewContainerKeepsIntegrity(s: State, id: string, c: Container, layer: Layer, mapsConflict: bool)
    requires Integrity(s) && c.layer != ""
    requires layer.parent == "" || (layer.parent in s.layers && !LayerOfContainer(s, layer.parent))
    requires forall i :: MappedCopyOf(s, i, layer.parent) ==> c.image == i
    ensures Integrity(AddContainer(s, id, c, layer, mapsConflict).0)
  {
    var t := AddContainer(s, id, c, layer, mapsConflict).0;
    if t != s {
      var u := s.(layers := s.layers[c.layer := layer]);
      AddingKeepsAcyclic(s, c.layer, layer);
      assert ParentsOf(t) == ParentsOf(u);
      NewLayerKeepsExistence(s, u, c.layer, layer);
      assert forall i, m :: MappedCopyOf(t, i, m) <==> MappedCopyOf(u, i, m);
      NewContainerKeepsLeaves(s, t, id, c, layer);
      NewContainerKeepsCopiesPrivate(s, t, id, c, layer);
    }
  }

  /** A layer an image names stands neither on a container's layer nor on a mapped copy. */
  lemma ImageLayersStandClear(s: State, image: string, l: string)
    requires Integrity(s) && image in s.images && l in s.layers
    requires l == s.images[image].top || l in s.images[image].mapped
    ensures !LayerOfContainer(s, l) && !LayerOfContainer(s, s.layers[l].parent)
    ensures forall i :: !MappedCopyOf(s, i, s.layers[l].parent)
  {
    var parent := s.layers[l].parent;
    assert l in s.images[image].mapped ==> MappedCopyOf(s, image, l);
    forall c | c in s.containers
      ensures s.containers[c].layer != parent && s.containers[c].layer != l
    {
      assert Leaf(s, s.containers[c].layer);
    }
    assert forall i :: !StandsFor(s, i, l);
  }

  lemma NewCopyKeepsCopiesPrivate(s: State, t: State, image: string, l: string, q: ContainerRequest)
    requires ParentsExist(s) && ImageLayersExist(s) && ContainerLayersAreLeaves(s) && MappedCopiesPrivate(s)
    requires image in s.images && l in s.layers && t == AddCopy(s, image, l, q.copy, q.mapping, q.shifting)
    requires q.copy != "" && q.copy !in s.layers
    requires forall i :: !MappedCopyOf(s, i, s.layers[l].parent)
    ensures MappedCopiesPrivate(t)
  {
    assert forall i, m :: MappedCopyOf(t, i, m) <==> MappedCopyOf(s, i, m) || (i == image && m == q.copy);
    assert forall i, x :: StandsFor(t, i, x) <==> StandsFor(s, i, x);
    forall i, m | MappedCopyOf(t, i, m)
      ensures PrivateCopy(t, i, m)
    {
      if m == q.copy {
        assert !LayerOfContainer(t, m) by {
          assert forall c :: c in s.containers ==> OwnsLeaf(s, c);
        }
      } else {
        assert PrivateCopy(s, i, m);
        assert !LayerOfContainer(t, m);
      }
    }
    assert Distinct(t.images[image].mapped) by {
      forall i | 0 <= i < |s.images[image].mapped|
        ensures s.images[image].mapped[i] != q.copy
      {
        assert MappedCopyOf(s, image, s.images[image].mapped[i]);
      }
    }
  }

  lemma RegisteredCopies(s: State, t: State, image: string, l: string, q: ContainerRequest, i: string, m: string)
    requires image in s.images && l in s.layers && t == AddCopy(s, image, l, q.copy, q.mapping, q.shifting)
    ensures MappedCopyOf(t, i, m) <==> MappedCopyOf(s, i, m) || (i == image && m == q.copy)
  {
    if i == image {
      assert t.images[i].mapped == s.images[i].mapped + [q.copy];
    }
  }

  lemma NewCopyKeepsExistence(s: State, t: State, image: string, l: string, q: ContainerRequest)
    requires ParentsExist(s) && ImageLayersExist(s) && Acyclic(ParentsOf(s))
    requires image in s.images && l in s.layers && t == AddCopy(s, image, l, q.copy, q.mapping, q.shifting)
    requires q.copy != "" && q.copy !in s.layers
    ensures ParentsExist(t) && ImageLayersExist(t) && Acyclic(ParentsOf(t))
  {
    var u := s.(layers := t.layers);
    AddingKeepsAcyclic(s, q.copy, t.layers[q.copy]);
    NewLayerKeepsExistence(s, u, q.copy, t.layers[q.copy]);
    assert ParentsOf(t) == ParentsOf(u);
    forall i, m | MappedCopyOf(t, i, m)
      ensures m in t.layers
    {
      RegisteredCopies(s, t, image, l, q, i, m);
    }
  }

  lemma NewCopyKeepsLeaves(s: State, t: State, image: string, l: string, q: ContainerRequest)
    requires ContainerLayersAreLeaves(s) && q.copy !in s.layers
    requires image in s.images && l in s.layers && t == AddCopy(s, image, l, q.copy, q.mapping, q.shifting)
    requires !LayerOfContainer(s, s.layers[l].parent)
    ensures ContainerLayersAreLeaves(t)
  {
    var u := s.(layers := t.layers);
    NewLayerKeepsLeaves(s, u, q.copy, t.layers[q.copy]);
    assert forall x :: Leaf(t, x) <==> Leaf(u, x);
  }

  lemma NewCopyKeepsIntegrity(s: State, image: string, l: string, q: ContainerRequest)
    requires Integrity(s) && image in s.images && l in s.layers
    requires l == s.images[image].top || l in s.images[image].mapped
    requires q.copy != "" && q.copy !in s.layers
    ensures Integrity(AddCopy(s, image, l, q.copy, q.mapping, q.shifting))
  {
    var t := AddCopy(s, image, l, q.copy, q.mapping, q.shifting);
    ImageLayersStandClear(s, image, l);
    NewCopyKeepsExistence(s, t, image, l, q);
    NewCopyKeepsLeaves(s, t, image, l, q);
    NewCopyKeepsCopiesPrivate(s, t, image, l, q);
  }

  /** A container stacked on a layer its image names. */
  lemma StackedKeepsIntegrity(s: State, q: ContainerRequest, l: string)
    requires Integrity(s) && q.layer != "" && q.image in s.images && l in s.layers
    requires l == s.images[q.image].top || l in s.images[q.image].mapped
    ensures Integrity(StackedOn(s, q, l).0)
  {
    ImageLayersStandClear(s, q.image, l);
    assert l in s.images[q.image].mapped ==> MappedCopyOf(s, q.image, l);
    NewContainerKeepsIntegrity(s, q.id, Container(q.layer, q.image, q.names),
                               Layer(l, q.layerMaps.0, q.layerMaps.1, -1, 0), q.mapsConflict);
  }

  lemma CreateContainerKeepsIntegrity(s: State, q: ContainerRequest, s': State, st: Status)
    requires Integrity(s) && Legal(s, OpCreateContainer(q)) && CreateContainer(s, q, s', st)
    ensures Integrity(s')
  {
    if q.image != "" && q.image !in s.images {
    } else if q.image == "" || s.images[q.image].top == "" {
      assert forall i :: !MappedCopyOf(s, i, "");
      NewContainerKeepsIntegrity(s, q.id, Container(q.layer, q.image, q.names),
                                 Layer("", q.layerMaps.0, q.layerMaps.1, -1, 0), q.mapsConflict);
    } else {
      var candidates := [s.images[q.image].top] + s.images[q.image].mapped;
      var choice :| Chosen(s, candidates, q.mapping, q.shifting, choice) && StandsOnChoice(s, q, choice, s', st);
      assert forall l :: l in candidates <==> l == s.images[q.image].top || l in s.images[q.image].mapped;
      match choice
      case NoLayer =>
      case Use(l) => StackedKeepsIntegrity(s, q, l);
      case CopyOf(l) =>
        NewCopyKeepsIntegrity(s, q.image, l, q);
        StackedKeepsIntegrity(AddCopy(s, q.image, l, q.copy, q.mapping, q.shifting), q, q.copy);
    }
  }

  /** No layer of the image fits the mapping, and there is one to copy. */
  ghost predicate NeedsCopy(s: State, q: ContainerRequest) {
    && q.image != "" && q.image in s.images && s.images[q.image].top != ""
    && var candidates := [s.images[q.image].top] + s.images[q.image].mapped;
    && (forall l :: l in candidates ==> !Suits(s, l, q.mapping, q.shifting))
    && (exists l :: l in candidates && Usable(s, l))
  }

  lemma CopyIsNeeded(s: State, q: ContainerRequest, choice: Choice)
    requires q.image != "" && q.image in s.images && s.images[q.image].top != ""
    requires Chosen(s, [s.images[q.image].top] + s.images[q.image].mapped, q.mapping, q.shifting, choice)
    ensures choice.CopyOf? <==> NeedsCopy(s, q)
  {
    var candidates := [s.images[q.image].top] + s.images[q.image].mapped;
    if choice.NoLayer? {
      assert forall l :: l in candidates ==> !Usable(s, l);
    }
  }

  /** A mapped copy was added and registered with the image. */
  ghost predicate LeftCopy(s: State, q: ContainerRequest, s': State) {
    && s'.containers == s.containers && s'.layers.Keys == s.layers.Keys + {q.copy}
    && q.image in s.images && q.image in s'.images && s'.images[q.image].mapped == s.images[q.image].mapped + [q.copy]
  }

  lemma CopyIsLeft(s: State, q: ContainerRequest, l: string)
    requires q.image in s.images && l in s.layers && q.copy !in s.layers
    ensures var s' := AddCopy(s, q.image, l, q.copy, q.mapping, q.shifting); s' != s && LeftCopy(s, q, s')
  {
  }

  lemma RefusedStack(s: State, q: ContainerRequest, parent: string)
    ensures StackedOn(s, q, parent).1 != Ok ==> StackedOn(s, q, parent).0 == s
  {
  }

  lemma RefusedOnChoice(s: State, q: ContainerRequest, choice: Choice, s': State, st: Status)
    requires q.image in s.images && q.copy !in s.layers && StandsOnChoice(s, q, choice, s', st) && st != Ok
    ensures if choice.CopyOf? then s' != s && LeftCopy(s, q, s') else s' == s
  {
    match choice
    case NoLayer =>
    case Use(l) => RefusedStack(s, q, l);
    case CopyOf(l) =>
      RefusedStack(AddCopy(s, q.image, l, q.copy, q.mapping, q.shifting), q, q.copy);
      CopyIsLeft(s, q, l);
  }

  /** A refused container leaves the store as it was, except for a mapped copy that was made for it. */
  lemma RefusedContainerLeavesCopy(s: State, q: ContainerRequest, s': State, st: Status)
    requires Legal(s, OpCreateContainer(q)) && CreateContainer(s, q, s', st) && st != Ok
    ensures s' == s <==> !NeedsCopy(s, q)
    ensures NeedsCopy(s, q) ==> LeftCopy(s, q, s')
  {
    if q.image != "" && q.image !in s.images {
    } else if q.image == "" || s.images[q.image].top == "" {
      RefusedStack(s, q, "");
    } else {
      var candidates := [s.images[q.image].top] + s.images[q.image].mapped;
      var choice :| Chosen(s, candidates, q.mapping, q.shifting, choice) && StandsOnChoice(s, q, choice, s', st);
      CopyIsNeeded(s, q, choice);
      RefusedOnChoice(s, q, choice, s', st);
    }
  }

  // ---- Shrinking: layers, images, containers or mapped copies go away

  /** `t` is `s` with some things gone, and nothing that is left refers to a layer that is gone. */
  ghost predicate Shrinks(s: State, t: State) {
    && t.layers.Keys <= s.layers.Keys
    && (forall l :: l in t.layers ==> t.layers[l] == s.layers[l])
    && (forall i :: i in t.images ==>
          && i in s.images && t.images[i].top == s.images[i].top && Distinct(t.images[i].mapped)
          && forall m :: m in t.images[i].mapped ==> m in s.images[i].mapped)
    && (forall c :: c in t.containers ==> c in s.containers && t.containers[c] == s.containers[c])
  }

  lemma ShrinkingKeepsLeaves(s: State, t: State)
    requires Shrinks(s, t) && ContainerLayersAreLeaves(s)
    requires forall c :: c in t.containers ==> t.containers[c].layer in t.layers
    ensures ContainerLayersAreLeaves(t)
  {
    forall c | c in t.containers
      ensures Leaf(t, t.containers[c].layer)
    {
      assert Leaf(s, s.containers[c].layer);
    }
  }

  lemma ShrinkingKeepsCopiesPrivate(s: State, t: State)
    requires Shrinks(s, t) && MappedCopiesPrivate(s)
    requires forall c :: c in s.containers && c !in t.containers ==> s.containers[c].layer !in t.layers
    ensures MappedCopiesPrivate(t)
  {
    assert forall i, m :: MappedCopyOf(t, i, m) ==> MappedCopyOf(s, i, m);
    forall i, m, x | MappedCopyOf(t, i, m) && x in t.layers && t.layers[x].parent == m
      ensures StandsFor(t, i, x)
    {
      assert StandsFor(s, i, x);
      var d :| d in s.containers && s.containers[d].layer == x && s.containers[d].image == i;
      assert d in t.containers;
    }
  }

  lemma ShrinkingKeepsAcyclic(s: State, t: State)
    requires Acyclic(ParentsOf(s)) && t.layers.Keys <= s.layers.Keys && forall l :: l in t.layers ==> t.layers[l] == s.layers[l]
    ensures Acyclic(ParentsOf(t))
  {
    var rank :| Ranked(ParentsOf(s), rank);
    assert Ranked(ParentsOf(t), rank);
  }

  lemma ShrinkingKeepsIntegrity(s: State, t: State)
    requires Integrity(s) && Shrinks(s, t) && ParentsExist(t) && ImageLayersExist(t)
    requires forall c :: c in t.containers ==> t.containers[c].layer in t.layers
    requires forall c :: c in s.containers && c !in t.containers ==> s.containers[c].layer !in t.layers
    ensures Integrity(t)
  {
    ShrinkingKeepsLeaves(s, t);
    ShrinkingKeepsCopiesPrivate(s, t);
    ShrinkingKeepsAcyclic(s, t);
  }

  lemma DeleteLayerKeepsIntegrity(s: State, id: string)
    requires Integrity(s)
    ensures Integrity(DeleteLayer(s, id).0)
  {
    var t := DeleteLayer(s, id).0;
    if t != s {
      forall i | i in s.images
        ensures Distinct(Without(s.images[i].mapped, id))
      {
        WithoutStaysDistinct(s.images[i].mapped, id);
      }
      forall i, m | MappedCopyOf(t, i, m)
        ensures m in t.layers
      {
        assert MappedCopyOf(s, i, m) && m != id;
      }
      forall c | c in s.containers
        ensures s.containers[c].layer in t.layers
      {
        assert OwnsLeaf(s, c);
      }
      assert Shrinks(s, t);
      ShrinkingKeepsIntegrity(s, t);
    }
  }

  lemma {:induction false} WithoutStaysDistinct(ls: seq<string>, l: string)
    requires Distinct(ls)
    ensures Distinct(Without(ls, l))
  {
    if ls != [] {
      WithoutStaysDistinct(ls[1..], l);
      assert ls[0] !in ls[1..];
    }
  }

  lemma DeleteContainerKeepsIntegrity(s: State, id: string)
    requires Integrity(s)
    ensures Integrity(DeleteContainer(s, id, true).0)
  {
    var t := DeleteContainer(s, id, true).0;
    if t != s {
      var l := s.containers[id].layer;
      assert OwnsLeaf(s, id);
      assert Shrinks(s, t);
      assert ImageLayersExist(t) by {
        assert forall i, m :: MappedCopyOf(t, i, m) ==> MappedCopyOf(s, i, m) && PrivateCopy(s, i, m);
      }
      ShrinkingKeepsIntegrity(s, t);
    }
  }

  /** When the directories cannot be removed the record outlives its layer, and only then. */
  lemma InterruptedContainerDeletion(s: State, id: string, finished: bool)
    requires Integrity(s) && id in s.containers
    ensures Integrity(DeleteContainer(s, id, finished).0) <==> finished
  {
    DeleteContainerKeepsIntegrity(s, id);
    var t := DeleteContainer(s, id, false).0;
    assert !OwnsLeaf(t, id);
  }

  /** No container is made from the image, so its mapped copies carry nothing. */
  lemma UnusedImageHasBareCopies(s: State, id: string)
    requires Integrity(s) && id in s.images
    requires forall c :: c in s.containers ==> s.containers[c].image != id
    ensures forall m :: m in s.images[id].mapped ==> Leaf(s, m)
    ensures CopiesAreOrdered(s, id)
  {
    forall m | m in s.images[id].mapped
      ensures Leaf(s, m)
    {
      assert MappedCopyOf(s, id, m) && PrivateCopy(s, id, m);
    }
    assert forall i :: 0 <= i < |s.images[id].mapped| ==> Leaf(s, s.images[id].mapped[i]);
  }

  /** What deleteImage removes serves no other image and no container. */
  lemma RemovedIsUnused(s: State, id: string, removed: seq<string>, x: string)
    requires Integrity(s) && id in s.images && Removal(s, id, removed) && x in removed
    ensures !LayerOfContainer(s, x) && !UsedByOtherImage(s, id, x)
  {
    var copies := s.images[id].mapped;
    if x in copies {
      assert MappedCopyOf(s, id, x) && PrivateCopy(s, id, x);
      assert forall i :: i in s.images && x in s.images[i].mapped ==> MappedCopyOf(s, i, x);
    } else {
      assert removed == copies + removed[|copies|..];
      var k :| |copies| <= k < |removed| && removed[k] == x;
      assert x == ChainAt(s, id, k - |copies|) && Removable(s, id, x);
      ChainOfSelf(ParentsOf(s), x);
      assert !Keeps(s, id, x);
    }
  }

  lemma DeleteImageKeepsIntegrity(s: State, id: string, removed: seq<string>, done: nat, s': State, st: Status)
    requires Integrity(s) && DeleteImage(s, id, removed, done, s', st)
    ensures Integrity(s')
  {
    if s' != s {
      UnusedImageHasBareCopies(s, id);
      OrderedCopiesKeepParents(s, id, removed, done);
      var gone := removed[..done];
      assert forall x :: x in gone ==> x in removed;
      forall x | x in gone
        ensures !LayerOfContainer(s, x) && !UsedByOtherImage(s, id, x)
      {
        RemovedIsUnused(s, id, removed, x);
      }
      assert forall l :: l in s'.layers <==> l in s.layers && l !in gone;
      StillReferencedIsKept(s, id, gone, s');
      ShrinkingKeepsIntegrity(s, s');
    }
  }

  lemma StillReferencedIsKept(s: State, id: string, gone: seq<string>, t: State)
    requires ImageLayersExist(s) && ContainerLayersAreLeaves(s)
    requires t.images == s.images - {id} && t.containers == s.containers
    requires forall l :: l in t.layers <==> l in s.layers && l !in gone
    requires forall x :: x in gone ==> !LayerOfContainer(s, x) && !UsedByOtherImage(s, id, x)
    ensures ImageLayersExist(t)
    ensures forall c :: c in t.containers ==> t.containers[c].layer in t.layers
  {
    assert forall c :: c in s.containers ==> OwnsLeaf(s, c) && LayerOfContainer(s, s.containers[c].layer);
    forall i | i in t.images
      ensures t.images[i].top !in gone && forall m :: m in t.images[i].mapped ==> m in t.layers
    {
      assert i in s.images && i != id;
      assert forall m :: m in s.images[i].mapped ==> MappedCopyOf(s, i, m) && UsedByOtherImage(s, id, m);
      assert UsedByOtherImage(s, id, s.images[i].top);
    }
  }

  lemma StepKeepsIntegrity(s: State, op: Op, s': State)
    requires Integrity(s) && Legal(s, op) && Step(s, op, s')
    ensures Integrity(s')
  {
    match op
    case OpPutLayer(id, layer) => PutLayerKeepsIntegrity(s, id, layer);
    case OpCreateImage(id, top, bigData) => CreateImageKeepsIntegrity(s, id, top, bigData);
    case OpCreateContainer(q) =>
      var st :| CreateContainer(s, q, s', st);
      CreateContainerKeepsIntegrity(s, q, s', st);
    case OpDeleteLayer(id) => DeleteLayerKeepsIntegrity(s, id);
    case OpDeleteImage(id, removed, done) =>
      var st :| DeleteImage(s, id, removed, done, s', st);
      DeleteImageKeepsIntegrity(s, id, removed, done, s', st);
    case OpDeleteContainer(id, finished) => DeleteContainerKeepsIntegrity(s, id);
  }

  ghost predicate IsRun(states: seq<State>, ops: seq<Op>) {
    && |states| == |ops| + 1
    && forall k: nat :: k < |ops| ==> StepsAt(states, ops, k)
  }

  /** The step at `k` is one a caller may take. */
  ghost predicate StepsAt(states: seq<State>, ops: seq<Op>, k: nat)
    requires |states| == |ops| + 1 && k < |ops|
  {
    Legal(states[k], ops[k]) && Step(states[k], ops[k], states[k + 1])
  }

  /** Every state of every run from a store with intact references has intact references. */
  lemma {:induction false} RunKeepsIntegrity(states: seq<State>, ops: seq<Op>, k: nat)
    requires IsRun(states, ops) && Integrity(states[0]) && k < |states|
    ensures Integrity(states[k])
  {
    if k > 0 {
      RunKeepsIntegrity(states, ops, k - 1);
      assert StepsAt(states, ops, k - 1);
      StepKeepsIntegrity(states[k - 1], ops[k - 1], states[k]);
    }
  }

  /** The store accepts a layer on a mapped copy, and the layer is then a leaf that the image does not know. */
  lemma CopyTakesLayer(s: State, id: string, m: string, layer: Layer, x: string)
    requires Integrity(s) && MappedCopyOf(s, id, m) && layer.parent == m && x != "" && x !in s.layers
    ensures PutLayer(s, x, layer) == (s.(layers := s.layers[x := layer]), Ok)
    ensures var t := s.(layers := s.layers[x := layer]);
      Acyclic(ParentsOf(t)) && Leaf(t, x) && x != t.images[id].top && x !in t.images[id].mapped && m != "" && m != x
  {
    assert PrivateCopy(s, id, m);
    AddingKeepsAcyclic(s, x, layer);
    assert forall j :: 0 <= j < |s.images[id].mapped| ==> MappedCopyOf(s, id, s.images[id].mapped[j]);
  }

  /** Why callers must not build on a mapped copy: the store accepts it, and deleting the image orphans the layer. */
  lemma LayerOnCopyIsOrphaned(s: State, id: string, i: nat, x: string) returns (removed: seq<string>, s': State)
    requires Integrity(s) && id in s.images && i < |s.images[id].mapped| && x != "" && x !in s.layers
    requires forall c :: c in s.containers ==> s.containers[c].image != id
    ensures
      var (t, st) := PutLayer(s, x, Layer(s.images[id].mapped[i], [], [], -1, 0));
      st == Ok && DeleteImage(t, id, removed, |removed|, s', Ok) && x in s'.layers && s'.layers[x].parent !in s'.layers && !ParentsExist(s')
  {
    var m := s.images[id].mapped[i];
    var layer := Layer(m, [], [], -1, 0);
    CopyTakesLayer(s, id, m, layer, x);
    var t := s.(layers := s.layers[x := layer]);
    removed := RemovalExists(t, id);
    BystanderStays(t, id, removed, x);
    assert removed[..|removed|] == removed;
    s' := DropLayers(t.(images := t.images - {id}), Elements(removed));
    assert m == removed[..|t.images[id].mapped|][i] && m in removed;
  }
}
