/** Layers, images and containers of one read-write store, and the references between them. */
module StoreState {
  import opened Common
  import opened ParentChain

  /** `size` is the recorded uncompressed size, -1 when it is unknown; `diffSize` is what measuring yields. */
  datatype Layer = Layer(parent: string, uidMap: seq<IDMap>, gidMap: seq<IDMap>, size: int, diffSize: int)

  datatype Image = Image(top: string, mapped: seq<string>, bigData: map<string, int>)

  datatype Container = Container(layer: string, image: string, names: seq<string>)

  datatype State = State(
    layers: map<string, Layer>,
    images: map<string, Image>,
    containers: map<string, Container>)

  function ParentsOf(s: State): Parents {
    map l | l in s.layers :: s.layers[l].parent
  }

  ghost predicate Leaf(s: State, l: string) {
    forall x :: x in s.layers ==> s.layers[x].parent != l
  }

  ghost predicate MappedCopyOf(s: State, i: string, m: string) {
    i in s.images && m in s.images[i].mapped
  }

  ghost predicate LayerOfContainer(s: State, l: string) {
    exists c :: c in s.containers && s.containers[c].layer == l
  }

  ghost predicate ParentsExist(s: State) {
    && "" !in s.layers
    && forall l :: l in s.layers ==> s.layers[l].parent == "" || s.layers[l].parent in s.layers
  }

  ghost predicate ImageLayersExist(s: State) {
    && (forall i :: i in s.images ==> s.images[i].top == "" || s.images[i].top in s.layers)
    && (forall i, m :: MappedCopyOf(s, i, m) ==> m in s.layers)
  }

  /** A container's layer exists, has no children, and serves neither a second container nor an image. */
  ghost predicate OwnsLeaf(s: State, c: string)
    requires c in s.containers
  {
    var l := s.containers[c].layer;
    && l in s.layers
    && Leaf(s, l)
    && (forall d :: d in s.containers && s.containers[d].layer == l ==> d == c)
    && (forall i :: i in s.images ==> s.images[i].top != l)
  }

  ghost predicate ContainerLayersAreLeaves(s: State) {
    forall c :: c in s.containers ==> OwnsLeaf(s, c)
  }

  /** Layer `x` is the layer of a container made from image `i`. */
  ghost predicate StandsFor(s: State, i: string, x: string) {
    exists c :: c in s.containers && s.containers[c].layer == x && s.containers[c].image == i
  }

  /** The mapped copy `m` of image `i` serves nothing but that image and the containers made from it. */
  ghost predicate PrivateCopy(s: State, i: string, m: string) {
    && !LayerOfContainer(s, m)
    && (forall j :: j in s.images ==> s.images[j].top != m)
    && (forall j :: MappedCopyOf(s, j, m) ==> j == i)
    && (forall x :: x in s.layers && s.layers[x].parent == m ==> StandsFor(s, i, x))
  }

  ghost predicate MappedCopiesPrivate(s: State) {
    && (forall i :: i in s.images ==> Distinct(s.images[i].mapped))
    && (forall i, m :: MappedCopyOf(s, i, m) ==> PrivateCopy(s, i, m))
  }

  ghost predicate Integrity(s: State) {
    && ParentsExist(s)
    && Acyclic(ParentsOf(s))
    && ImageLayersExist(s)
    && ContainerLayersAreLeaves(s)
    && MappedCopiesPrivate(s)
  }

  /** The container store finds something under `id`: by ID, name, layer, or unambiguous prefix of an ID. */
  predicate ContainerExists(s: State, id: string) {
    || id in s.containers
    || (exists c | c in s.containers :: id in s.containers[c].names)
    || (exists c | c in s.containers :: s.containers[c].layer == id)
    || (id != "" && exists c | c in s.containers :: id <= c && forall d | d in s.containers :: id <= d ==> d == c)
  }

  function DropLayers(s: State, ls: set<string>): State {
    s.(layers := s.layers - ls)
  }

  /** A new layer on an existing one, or on nothing, cannot create a cycle. */
  lemma AddingKeepsAcyclic(s: State, id: string, layer: Layer)
    requires ParentsExist(s) && Acyclic(ParentsOf(s))
    requires id != "" && id !in s.layers && (layer.parent == "" || layer.parent in s.layers)
    ensures Acyclic(ParentsOf(s.(layers := s.layers[id := layer])))
  {
    var p := ParentsOf(s);
    var rank :| Ranked(p, rank);
    var top := if layer.parent in s.layers then rank[layer.parent] + 1 else 0;
    var q, ranks := ParentsOf(s.(layers := s.layers[id := layer])), rank[id := top];
    forall x | x in q
      ensures x in ranks && (q[x] in q ==> q[x] in ranks && ranks[q[x]] < ranks[x])
    {
      if x == id {
        assert q[x] == layer.parent != id;
      } else {
        assert x in p && q[x] == p[x] != id;
      }
    }
    assert Ranked(q, ranks);
  }
}
