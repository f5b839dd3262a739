/** The operations of the store as transitions of its state (storage/store.go). */
module StoreOps {
  import opened Common
  import opened StoreState
  import opened ImageRemoval

  datatype Error =
    | LayerUnknown | ParentIsContainer | DuplicateID | DuplicateName | InvalidMappings
    | NotALayer | LayerHasChildren | LayerUsedByImage | LayerUsedByContainer
    | ImageUnknown | NotAnImage | ImageUsedByContainer | NotAContainer | Interrupted

  datatype Status = Ok | Err(error: Error)

  /** The ID mappings a container asks for (types.IDMappingOptions). */
  datatype Mapping = Mapping(hostUID: bool, hostGID: bool, uidMap: seq<IDMap>, gidMap: seq<IDMap>)

  predicate MatchesMapping(layer: Layer, m: Mapping, shifting: bool) {
    || (shifting && layer.uidMap == [] && layer.gidMap == [])
    || (&& (m.hostUID ==> layer.uidMap == [])
        && (m.hostGID ==> layer.gidMap == [])
        && layer.uidMap == m.uidMap
        && layer.gidMap == m.gidMap)
  }

  /** The layer that stands in for an image's top layer under a mapping. */
  datatype Choice = NoLayer | Use(layer: string) | CopyOf(layer: string)

  predicate Usable(s: State, l: string) {
    l in s.layers && (s.layers[l].parent == "" || s.layers[l].parent in s.layers)
  }

  predicate Suits(s: State, l: string, m: Mapping, shifting: bool) {
    Usable(s, l) && MatchesMapping(s.layers[l], m, shifting)
  }

  ghost predicate Chosen(s: State, candidates: seq<string>, m: Mapping, shifting: bool, choice: Choice) {
    match choice
    case Use(l) =>
      exists i :: 0 <= i < |candidates| && candidates[i] == l && Suits(s, l, m, shifting)
        && forall j :: 0 <= j < i ==> !Suits(s, candidates[j], m, shifting)
    case CopyOf(l) =>
      && (forall j :: 0 <= j < |candidates| ==> !Suits(s, candidates[j], m, shifting))
      && (exists i :: 0 <= i < |candidates| && candidates[i] == l && Usable(s, l)
            && forall j :: 0 <= j < i ==> !Usable(s, candidates[j]))
    case NoLayer =>
      forall j :: 0 <= j < |candidates| ==> !Usable(s, candidates[j])
  }

  function PutLayer(s: State, id: string, layer: Layer): (State, Status) {
    if layer.parent != "" && layer.parent !in s.layers then (s, Err(LayerUnknown))
    else if layer.parent != "" && exists c | c in s.containers :: s.containers[c].layer == layer.parent then
      (s, Err(ParentIsContainer))
    else if id in s.layers then (s, Err(DuplicateID))
    else (s.(layers := s.layers[id := layer]), Ok)
  }

  function CreateImage(s: State, id: string, top: string, bigData: map<string, int>): (State, Status) {
    if top != "" && top !in s.layers then (s, Err(LayerUnknown))
    else if id in s.images then (s, Err(DuplicateID))
    else (s.(images := s.images[id := Image(top, [], bigData)]), Ok)
  }

  /** The layer and the record of a new container; a layer whose record is refused is deleted again. */
  function AddContainer(s: State, id: string, c: Container, layer: Layer, mapsConflict: bool): (State, Status) {
    if c.layer in s.layers then (s, Err(DuplicateID))
    else if id in s.containers then (s, Err(DuplicateID))
    else if exists d | d in s.containers :: exists n | n in c.names :: n in s.containers[d].names then (s, Err(DuplicateName))
    else if mapsConflict then (s, Err(InvalidMappings))
    else (s.(layers := s.layers[c.layer := layer], containers := s.containers[id := c]), Ok)
  }

  /** The image's layer `l` copied under the ID `copy` and registered with the image. */
  function AddCopy(s: State, image: string, l: string, copy: string, m: Mapping, shifting: bool): State
    requires image in s.images && l in s.layers
  {
    var img := s.images[image];
    var layer := s.layers[l].(
      uidMap := if shifting then [] else m.uidMap,
      gidMap := if shifting then [] else m.gidMap);
    s.(layers := s.layers[copy := layer],
       images := s.images[image := img.(mapped := img.mapped + [copy])])
  }

  /** Everything CreateContainer is called with, including the IDs it would generate. */
  datatype ContainerRequest = ContainerRequest(
    id: string, names: seq<string>, image: string, layer: string, copy: string,
    mapping: Mapping, shifting: bool, mapsConflict: bool, layerMaps: (seq<IDMap>, seq<IDMap>))

  function StackedOn(s: State, q: ContainerRequest, parent: string): (State, Status) {
    AddContainer(s, q.id, Container(q.layer, q.image, q.names),
                 Layer(parent, q.layerMaps.0, q.layerMaps.1, -1, 0), q.mapsConflict)
  }

  ghost predicate StandsOnChoice(s: State, q: ContainerRequest, choice: Choice, s': State, st: Status)
    requires q.image in s.images
  {
    match choice
    case NoLayer => (s', st) == (s, Err(LayerUnknown))
    case Use(l) => (s', st) == StackedOn(s, q, l)
    case CopyOf(l) =>
      l in s.layers && (s', st) == StackedOn(AddCopy(s, q.image, l, q.copy, q.mapping, q.shifting), q, q.copy)
  }

  ghost predicate CreateContainer(s: State, q: ContainerRequest, s': State, st: Status) {
    if q.image != "" && q.image !in s.images then (s', st) == (s, Err(ImageUnknown))
    else if q.image == "" || s.images[q.image].top == "" then (s', st) == StackedOn(s, q, "")
    else
      exists choice ::
        && Chosen(s, [s.images[q.image].top] + s.images[q.image].mapped, q.mapping, q.shifting, choice)
        && StandsOnChoice(s, q, choice, s', st)
  }

  function Without(ls: seq<string>, l: string): (r: seq<string>)
    ensures forall x :: x in r <==> x in ls && x != l
  {
    if ls == [] then [] else (if ls[0] == l then [] else [ls[0]]) + Without(ls[1..], l)
  }

  function DeleteLayer(s: State, id: string): (State, Status) {
    if id !in s.layers then (s, Err(NotALayer))
    else if exists l | l in s.layers :: s.layers[l].parent == id then (s, Err(LayerHasChildren))
    else if exists i | i in s.images :: s.images[i].top == id then (s, Err(LayerUsedByImage))
    else if exists c | c in s.containers :: s.containers[c].layer == id then (s, Err(LayerUsedByContainer))
    else
      (s.(layers := s.layers - {id},
          images := map i | i in s.images :: s.images[i].(mapped := Without(s.images[i].mapped, id))), Ok)
  }

  /** A committed deletion that removed the first `done` layers of its list before it ended. */
  ghost predicate DeleteImage(s: State, id: string, removed: seq<string>, done: nat, s': State, st: Status) {
    if id !in s.images then (s', st) == (s, Err(NotAnImage))
    else if exists c :: c in s.containers && s.containers[c].image == id then (s', st) == (s, Err(ImageUsedByContainer))
    else
      && Removal(s, id, removed)
      && done <= |removed|
      && s' == DropLayers(s.(images := s.images - {id}), Elements(removed[..done]))
      && (st == if done == |removed| then Ok else Err(Interrupted))
  }

  /** `finished` says whether the container's directories could be removed once its layer was gone. */
  function DeleteContainer(s: State, id: string, finished: bool): (State, Status) {
    if id !in s.containers then (s, Err(NotAContainer))
    else
      var t := s.(layers := s.layers - {s.containers[id].layer});
      if finished then (t.(containers := t.containers - {id}), Ok) else (t, Err(Interrupted))
  }

  datatype Op =
    | OpPutLayer(id: string, layer: Layer)
    | OpCreateImage(id: string, top: string, bigData: map<string, int>)
    | OpCreateContainer(q: ContainerRequest)
    | OpDeleteLayer(id: string)
    | OpDeleteImage(id: string, removed: seq<string>, done: nat)
    | OpDeleteContainer(id: string, finished: bool)

  ghost predicate Step(s: State, op: Op, s': State) {
    match op
    case OpPutLayer(id, layer) => s' == PutLayer(s, id, layer).0
    case OpCreateImage(id, top, bigData) => s' == CreateImage(s, id, top, bigData).0
    case OpCreateContainer(q) => exists st :: CreateContainer(s, q, s', st)
    case OpDeleteLayer(id) => s' == DeleteLayer(s, id).0
    case OpDeleteImage(id, removed, done) => exists st :: DeleteImage(s, id, removed, done, s', st)
    case OpDeleteContainer(id, finished) => s' == DeleteContainer(s, id, finished).0
  }

  /** Callers name layers by full ID, build on neither mapped copies nor container layers, and IDs are generated fresh. */
  ghost predicate Legal(s: State, op: Op) {
    match op
    case OpPutLayer(id, layer) =>
      id != "" && forall i :: !MappedCopyOf(s, i, layer.parent)
    case OpCreateImage(id, top, bigData) =>
      !LayerOfContainer(s, top) && forall i :: !MappedCopyOf(s, i, top)
    case OpCreateContainer(q) =>
      q.layer != "" && q.copy != "" && q.copy !in s.layers && q.copy != q.layer
    case OpDeleteLayer(id) => true
    case OpDeleteImage(id, removed, done) => true
    case OpDeleteContainer(id, finished) => finished
  }
}
