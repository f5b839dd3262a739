/** The store whose operations keep layers, images and containers in step (storage/store.go). */
module Store {
  import opened Common
  import opened ParentChain
  import opened StoreState
  import opened ImageRemoval
  import opened StoreOps
  import opened StoreIntegrity
  import opened StoreEffects
  import opened StoreSizes

  class Store {
    var layers: map<string, Layer>
    var images: map<string, Image>
    var containers: map<string, Container>

    ghost function View(): State
      reads this
    {
      State(layers, images, containers)
    }

    constructor ()
      ensures View() == State(map[], map[], map[]) && Integrity(View())
    {
      layers, images, containers := map[], map[], map[];
      new;
      assert Ranked(ParentsOf(View()), map[]);
    }

    /** Is `l` the layer of some container? */
    method IsContainerLayer(l: string) returns (found: bool)
      ensures found <==> LayerOfContainer(View(), l)
    {
      found := false;
      var todo := containers.Keys;
      while todo != {}
        invariant todo <= containers.Keys
        invariant found <==> exists c :: c in containers.Keys - todo && containers[c].layer == l
      {
        var c :| c in todo;
        found := found || containers[c].layer == l;
        todo := todo - {c};
      }
      assert containers.Keys - todo == containers.Keys;
    }

    method PutLayer(id: string, layer: Layer) returns (st: Status)
      modifies this`layers
      ensures (View(), st) == StoreOps.PutLayer(old(View()), id, layer)
      ensures st == Ok ==> id !in old(layers) && layers == old(layers)[id := layer]
      ensures st != Ok ==> View() == old(View())
      ensures Integrity(old(View())) && Legal(old(View()), OpPutLayer(id, layer)) ==> Integrity(View())
    {
      if Integrity(View()) && Legal(View(), OpPutLayer(id, layer)) {
        PutLayerKeepsIntegrity(View(), id, layer);
      }
      if layer.parent != "" {
        if layer.parent !in layers {
          return Err(LayerUnknown);
        }
        var isContainer := IsContainerLayer(layer.parent);
        if isContainer {
          return Err(ParentIsContainer);
        }
      }
      if id in layers {
        return Err(DuplicateID);
      }
      layers := layers[id := layer];
      st := Ok;
    }

    method CreateImage(id: string, top: string, bigData: map<string, int>) returns (st: Status)
      modifies this`images
      ensures (View(), st) == StoreOps.CreateImage(old(View()), id, top, bigData)
      ensures st == Ok ==> id !in old(images) && images == old(images)[id := Image(top, [], bigData)]
      ensures st != Ok ==> View() == old(View())
      ensures Integrity(old(View())) && Legal(old(View()), OpCreateImage(id, top, bigData)) ==> Integrity(View())
    {
      if Integrity(View()) && Legal(View(), OpCreateImage(id, top, bigData)) {
        CreateImageKeepsIntegrity(View(), id, top, bigData);
      }
      if top != "" && top !in layers {
        return Err(LayerUnknown);
      }
      if id in images {
        return Err(DuplicateID);
      }
      images := images[id := Image(top, [], bigData)];
      st := Ok;
    }

    /** The first candidate that suits the mapping, else the first usable one as a template for a copy. */
    method TopLayerForMapping(candidates: seq<string>, m: Mapping, shifting: bool) returns (choice: Choice)
      ensures Chosen(View(), candidates, m, shifting, choice)
    {
      choice := NoLayer;
      ghost var first := 0;
      for i := 0 to |candidates|
        invariant forall j :: 0 <= j < i ==> !Suits(View(), candidates[j], m, shifting)
        invariant !choice.Use?
        invariant choice.NoLayer? ==> forall j :: 0 <= j < i ==> !Usable(View(), candidates[j])
        invariant choice.CopyOf? ==> 0 <= first < i && candidates[first] == choice.layer && Usable(View(), choice.layer)
        invariant choice.CopyOf? ==> forall j :: 0 <= j < first ==> !Usable(View(), candidates[j])
      {
        var l := candidates[i];
        if l in layers && (layers[l].parent == "" || layers[l].parent in layers) {
          if MatchesMapping(layers[l], m, shifting) {
            return Use(l);
          }
          if choice == NoLayer {
            choice, first := CopyOf(l), i;
          }
        }
      }
    }

    /** A container's layer and record; the layer of a refused record is deleted again. */
    method StackContainer(q: ContainerRequest, parent: string) returns (st: Status)
      modifies this`layers, this`containers
      ensures (View(), st) == StackedOn(old(View()), q, parent)
    {
      if q.layer in layers {
        return Err(DuplicateID);
      }
      layers := layers[q.layer := Layer(parent, q.layerMaps.0, q.layerMaps.1, -1, 0)];
      if q.id in containers {
        st := Err(DuplicateID);
      } else if exists d | d in containers :: exists n | n in q.names :: n in containers[d].names {
        st := Err(DuplicateName);
      } else if q.mapsConflict {
        st := Err(InvalidMappings);
      } else {
        containers := containers[q.id := Container(q.layer, q.image, q.names)];
        return Ok;
      }
      layers := layers - {q.layer};
      assert layers == old(layers);
    }

    method CreateContainer(q: ContainerRequest) returns (st: Status)
      modifies this
      ensures StoreOps.CreateContainer(old(View()), q, View(), st)
      ensures st == Ok && Legal(old(View()), OpCreateContainer(q)) ==> ContainerMade(old(View()), q, View())
      ensures Integrity(old(View())) && Legal(old(View()), OpCreateContainer(q)) ==> Integrity(View())
    {
      ghost var before := View();
      if q.image == "" {
        st := StackContainer(q, "");
      } else if q.image !in images {
        st := Err(ImageUnknown);
      } else if images[q.image].top == "" {
        st := StackContainer(q, "");
      } else {
        var img := images[q.image];
        var choice := TopLayerForMapping([img.top] + img.mapped, q.mapping, q.shifting);
        match choice {
          case NoLayer => st := Err(LayerUnknown);
          case Use(l) => st := StackContainer(q, l);
          case CopyOf(l) =>
            var copy := layers[l].(uidMap := if q.shifting then [] else q.mapping.uidMap,
                                   gidMap := if q.shifting then [] else q.mapping.gidMap);
            layers := layers[q.copy := copy];
            images := images[q.image := img.(mapped := img.mapped + [q.copy])];
            st := StackContainer(q, q.copy);
        }
        assert StandsOnChoice(before, q, choice, View(), st);
      }
      if st == Ok && Legal(before, OpCreateContainer(q)) {
        CreatedIsMade(before, q, View());
      }
      if Integrity(before) && Legal(before, OpCreateContainer(q)) {
        CreateContainerKeepsIntegrity(before, q, View(), st);
      }
    }

    method DeleteLayer(id: string) returns (st: Status)
      modifies this`layers, this`images
      ensures (View(), st) == StoreOps.DeleteLayer(old(View()), id)
      ensures st == Ok ==> id in old(layers) && layers == old(layers) - {id} && CopyForgotten(old(images), images, id)
      ensures st != Ok ==> View() == old(View())
      ensures Integrity(old(View())) ==> Integrity(View())
    {
      if Integrity(View()) {
        DeleteLayerKeepsIntegrity(View(), id);
      }
      if id !in layers {
        return Err(NotALayer);
      }
      if exists l | l in layers :: layers[l].parent == id {
        return Err(LayerHasChildren);
      }
      if exists i | i in images :: images[i].top == id {
        return Err(LayerUsedByImage);
      }
      var used := IsContainerLayer(id);
      if used {
        return Err(LayerUsedByContainer);
      }
      layers := layers - {id};
      RemoveMappedTopLayer(id);
      assert View() == StoreOps.DeleteLayer(old(View()), id).0;
      st := Ok;
    }

    method RemoveMappedTopLayer(id: string)
      modifies this`images
      ensures images == map i | i in old(images) :: old(images)[i].(mapped := Without(old(images)[i].mapped, id))
    {
      var todo := images.Keys;
      while todo != {}
        invariant todo <= images.Keys == old(images.Keys)
        invariant forall i :: i in images && i in todo ==> images[i] == old(images)[i]
        invariant forall i :: i in images && i !in todo ==>
          images[i] == old(images)[i].(mapped := Without(old(images)[i].mapped, id))
      {
        var i :| i in todo;
        images := images[i := images[i].(mapped := Without(images[i].mapped, id))];
        todo := todo - {i};
      }
    }

    method DeleteContainer(id: string, finished: bool) returns (st: Status)
      modifies this`layers, this`containers
      ensures (View(), st) == StoreOps.DeleteContainer(old(View()), id, finished)
      ensures id in old(containers) ==> layers == old(layers) - {old(containers)[id].layer}
      ensures containers == if finished then old(containers) - {id} else old(containers)
      ensures Integrity(old(View())) ==> (Integrity(View()) <==> finished || id !in old(containers))
    {
      if Integrity(View()) && id in containers {
        InterruptedContainerDeletion(View(), id, finished);
      }
      if id !in containers {
        return Err(NotAContainer);
      }
      layers := layers - {containers[id].layer};
      if !finished {
        return Err(Interrupted);
      }
      containers := containers - {id};
      st := Ok;
    }

    /** The children of every layer. */
    method ChildrenByParent() returns (children: map<string, set<string>>)
      ensures forall l, x :: Lists(children, l, x) <==> x in layers && layers[x].parent == l
    {
      children := map[];
      var todo := layers.Keys;
      while todo != {}
        invariant todo <= layers.Keys
        invariant forall l, x :: Lists(children, l, x) <==> x in layers && x !in todo && layers[x].parent == l
      {
        var x :| x in todo;
        var parent := layers[x].parent;
        ghost var before := children;
        children := children[parent := (if parent in children then children[parent] else {}) + {x}];
        assert forall l, y :: Lists(children, l, y) <==> Lists(before, l, y) || (l == parent && y == x);
        todo := todo - {x};
      }
    }

    method OtherImagesLayers(id: string) returns (used: set<string>)
      ensures forall x :: x in used <==> UsedByOtherImage(View(), id, x)
    {
      used := {};
      var todo := images.Keys - {id};
      while todo != {}
        invariant todo <= images.Keys - {id}
        invariant forall x :: x in used <==>
          exists i :: i in images.Keys - {id} - todo && (images[i].top == x || x in images[i].mapped)
      {
        var i :| i in todo;
        used := used + {images[i].top} + (set m | m in images[i].mapped);
        todo := todo - {i};
      }
    }

    /** Does the walk for image `id` stop at `layer`? */
    method StopsAt(id: string, layer: string, children: map<string, set<string>>, used: set<string>, slated: set<string>,
                   ghost i: nat) returns (stops: bool)
      requires id in images && layer == ChainAt(View(), id, i) != ""
      requires forall l, x :: Lists(children, l, x) <==> x in layers && layers[x].parent == l
      requires forall x :: x in used <==> UsedByOtherImage(View(), id, x)
      requires forall x :: x in slated <==> Slated(View(), id, i, x)
      ensures stops <==> !Free(View(), id, i)
    {
      ghost var s := View();
      if ContainerExists(State(layers, images, containers), layer) || layer in used {
        return true;
      }
      var toCheck := [layer] + (if layer == images[id].top then images[id].mapped else []);
      for k := 0 to |toCheck|
        invariant forall l, x :: l in toCheck[..k] && Lists(children, l, x) ==> x in slated
      {
        var l := toCheck[k];
        if l in children && exists x | x in children[l] :: x !in slated {
          var x :| x in children[l] && x !in slated;
          assert Lists(children, l, x) && !Slated(s, id, i, x);
          assert l == layer || (layer == s.images[id].top && l in s.images[id].mapped);
          return true;
        }
      }
      assert toCheck[..|toCheck|] == toCheck;
      assert forall l :: l in toCheck <==> l == layer || (layer == images[id].top && l in images[id].mapped);
      forall l, x | l in toCheck && x in s.layers && s.layers[x].parent == l
        ensures Slated(s, id, i, x)
      {
        assert Lists(children, l, x);
      }
      assert layer in toCheck && Free(s, id, i);
      stops := false;
    }

    /** The greedy walk: the image's mapped copies, then its chain as far up as nothing else needs it. */
    method LayersToRemove(id: string) returns (removed: seq<string>)
      requires id in images && Acyclic(ParentsOf(View()))
      ensures Removal(View(), id, removed)
    {
      ghost var s, p := View(), ParentsOf(View());
      ghost var rank :| Ranked(p, rank);
      var children := ChildrenByParent();
      var used := OtherImagesLayers(id);
      removed := images[id].mapped;
      var slated := set m | m in images[id].mapped;
      var layer := images[id].top;
      ghost var i: nat := 0;
      WalkStarts(s, id);
      while layer != ""
        invariant WalkedTo(s, id, i, layer, removed, slated)
        decreases Remaining(p, rank, layer)
      {
        var stops := StopsAt(id, layer, children, used, slated, i);
        if stops {
          break;
        }
        WalkGoesOn(s, id, i, layer, removed, slated);
        RemainingFalls(p, rank, layer);
        removed := removed + [layer];
        slated := slated + {layer};
        layer := if layer in layers then layers[layer].parent else "";
        i := i + 1;
      }
      WalkIsRemoval(s, id, i, layer, removed, slated);
    }

    /** The big data of image `id`, added up in whatever order the map yields it. */
    method BigDataSize(id: string) returns (size: int)
      requires id in images
      ensures size == Sum(images[id].bigData)
    {
      size := 0;
      var rest := images[id].bigData;
      while rest != map[]
        invariant size + Sum(rest) == Sum(images[id].bigData)
        decreases |rest|
      {
        var k :| k in rest;
        SumWithout(rest, k);
        size := size + rest[k];
        rest := rest - {k};
      }
    }

    /** The sizes of the layers of `ls`, recorded or measured. */
    method LayersSize(ls: seq<string>) returns (size: int)
      requires forall l :: l in ls ==> l in layers
      ensures size == SizeOf(View(), ls)
    {
      size := 0;
      for k := 0 to |ls|
        invariant size == SizeOf(View(), ls[..k])
      {
        assert ls[..k + 1][..k] == ls[..k];
        var layer := layers[ls[k]];
        var layerSize := layer.size;
        if layerSize == -1 {
          layerSize := layer.diffSize;
        }
        size := size + layerSize;
      }
      assert ls[..|ls|] == ls;
    }

    /** What deleting image `id` will free, if anyone asks. */
    method FreedSize(id: string, ls: seq<string>, withSize: bool) returns (size: int)
      requires id in images && forall l :: l in ls ==> l in layers
      ensures size == if withSize then Reported(View(), id, ls) else 0
    {
      size := 0;
      if withSize {
        var bigData := BigDataSize(id);
        var freed := LayersSize(ls);
        size := bigData + freed;
      }
    }

    /** Deletes image `id`; deleting layers fails after `deletable` of them.  `plan` is the list worked through. */
    method DeleteImage(id: string, commit: bool, withSize: bool, deletable: nat)
      returns (removed: seq<string>, size: int, st: Status, ghost plan: seq<string>)
      requires Integrity(View())
      modifies this`layers, this`images
      ensures Integrity(View())
      ensures commit ==>
        StoreOps.DeleteImage(old(View()), id, plan, if deletable < |plan| then deletable else |plan|, View(), st)
      ensures !commit ==> View() == old(View())
      ensures commit && st == Ok ==> images == old(images) - {id} && layers == old(layers) - Elements(removed)
      ensures st == Ok ==> id in old(images) && removed == plan && Removal(old(View()), id, removed)
      ensures st == Ok && withSize ==> size == Reported(old(View()), id, removed)
      ensures st != Ok ==> removed == [] && size == -1
    {
      removed, size, plan := [], -1, [];
      if id !in images {
        return [], -1, Err(NotAnImage), [];
      }
      if exists c | c in containers :: containers[c].image == id {
        return [], -1, Err(ImageUsedByContainer), [];
      }
      var toRemove := LayersToRemove(id);
      plan := toRemove;
      RemovalNamesEachOnce(View(), id, toRemove);
      var total := FreedSize(id, toRemove, withSize);
      if commit {
        var done := RemoveImage(id, toRemove, deletable);
        if done < |toRemove| {
          return [], -1, Err(Interrupted), toRemove;
        }
      }
      return toRemove, total, Ok, toRemove;
    }

    /** The image's record goes first, then its layers, as far as they can be deleted. */
    method RemoveImage(id: string, ls: seq<string>, deletable: nat) returns (done: nat)
      requires Integrity(View()) && id in images && (forall c :: c in containers ==> containers[c].image != id)
      requires Removal(View(), id, ls) && forall l :: l in ls ==> l in layers
      modifies this`layers, this`images
      ensures done == if deletable < |ls| then deletable else |ls|
      ensures Integrity(View())
      ensures StoreOps.DeleteImage(old(View()), id, ls, done, View(), if done == |ls| then Ok else Err(Interrupted))
    {
      images := images - {id};
      done := RemoveLayers(ls, deletable);
      DeleteImageKeepsIntegrity(old(View()), id, ls, done, View(), if done == |ls| then Ok else Err(Interrupted));
    }

    method RemoveLayers(ls: seq<string>, deletable: nat) returns (done: nat)
      requires forall l :: l in ls ==> l in layers
      modifies this`layers
      ensures done == if deletable < |ls| then deletable else |ls|
      ensures layers == old(layers) - Elements(ls[..done])
    {
      done := 0;
      while done < |ls|
        invariant done <= |ls| && done <= deletable
        invariant layers == old(layers) - Elements(ls[..done])
      {
        if done == deletable {
          return;
        }
        layers := layers - {ls[done]};
        assert Elements(ls[..done + 1]) == Elements(ls[..done]) + {ls[done]};
        done := done + 1;
      }
    }
  }

  ghost predicate Lists(children: map<string, set<string>>, l: string, x: string) {
    l in children && x in children[l]
  }
}
