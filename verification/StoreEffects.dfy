/** What the operations of the store leave behind, and what they leave alone (storage/store.go). */
module StoreEffects {
  import opened ParentChain
  import opened StoreState
  import opened StoreOps
  import opened StoreIntegrity

  // ---- The layer a new container stands on

  /** Under the mapping, the layer can be used as it is: it has just that mapping, or none at all and the ids are shifted. */
  ghost predicate FitsMapping(layer: Layer, m: Mapping, shifting: bool) {
    (layer.uidMap == m.uidMap && layer.gidMap == m.gidMap) || (shifting && layer.uidMap == [] == layer.gidMap)
  }

  ghost predicate FirstToSuit(s: State, candidates: seq<string>, q: ContainerRequest, l: string) {
    exists i :: 0 <= i < |candidates| && candidates[i] == l && Suits(s, l, q.mapping, q.shifting)
      && forall j :: 0 <= j < i ==> !Suits(s, candidates[j], q.mapping, q.shifting)
  }

  ghost predicate FirstUsable(s: State, candidates: seq<string>, l: string) {
    exists i :: 0 <= i < |candidates| && candidates[i] == l && Usable(s, l) && forall j :: 0 <= j < i ==> !Usable(s, candidates[j])
  }

  /** `copy` is the layer `l` under the mapping that was asked for. */
  ghost predicate CopiedFor(l: Layer, q: ContainerRequest, copy: Layer) {
    && copy == l.(uidMap := copy.uidMap, gidMap := copy.gidMap)
    && copy.uidMap == (if q.shifting then [] else q.mapping.uidMap) && copy.gidMap == if q.shifting then [] else q.mapping.gidMap
  }

  /** The layer the container stands on: none, the first of the image's layers that suits, or a new copy of the first usable one. */
  ghost predicate StandsOn(s: State, q: ContainerRequest, s': State, parent: string)
    requires q.image == "" || q.image in s.images
  {
    if q.image == "" || s.images[q.image].top == "" then
      parent == "" && s'.images == s.images
    else
      var img := s.images[q.image];
      if NeedsCopy(s, q) then
        && parent == q.copy && q.copy in s'.layers
        && (exists l :: FirstUsable(s, [img.top] + img.mapped, l) && CopiedFor(s.layers[l], q, s'.layers[q.copy]))
        && s'.images == s.images[q.image := img.(mapped := img.mapped + [q.copy])]
      else
        && FirstToSuit(s, [img.top] + img.mapped, q, parent) && FitsMapping(s.layers[parent], q.mapping, q.shifting)
        && s'.images == s.images
  }

  /** The container that was asked for is there, its layer stands where it should, and nothing else has changed. */
  ghost predicate ContainerMade(s: State, q: ContainerRequest, s': State) {
    && q.id !in s.containers && s'.containers == s.containers[q.id := Container(q.layer, q.image, q.names)]
    && (q.image == "" || q.image in s.images)
    && q.layer !in s.layers && s'.layers.Keys == s.layers.Keys + {q.layer} + (if NeedsCopy(s, q) then {q.copy} else {})
    && (forall l :: l in s.layers ==> s'.layers[l] == s.layers[l])
    && (s'.layers[q.layer].uidMap, s'.layers[q.layer].gidMap) == q.layerMaps
    && StandsOn(s, q, s', s'.layers[q.layer].parent)
  }

  lemma StackedIsMade(s: State, q: ContainerRequest, parent: string)
    requires StackedOn(s, q, parent).1 == Ok
    ensures var s' := StackedOn(s, q, parent).0;
      && q.layer !in s.layers && q.id !in s.containers
      && s' == s.(layers := s.layers[q.layer := s'.layers[q.layer]], containers := s.containers[q.id := Container(q.layer, q.image, q.names)])
      && s'.layers[q.layer].parent == parent && (s'.layers[q.layer].uidMap, s'.layers[q.layer].gidMap) == q.layerMaps
  {
  }

  lemma MadeOnCopy(s: State, q: ContainerRequest, l: string, s': State)
    requires Legal(s, OpCreateContainer(q)) && q.image != "" && q.image in s.images && s.images[q.image].top != ""
    requires NeedsCopy(s, q) && l in s.layers && FirstUsable(s, [s.images[q.image].top] + s.images[q.image].mapped, l)
    requires (s', Ok) == StackedOn(AddCopy(s, q.image, l, q.copy, q.mapping, q.shifting), q, q.copy)
    ensures ContainerMade(s, q, s')
  {
    var t := AddCopy(s, q.image, l, q.copy, q.mapping, q.shifting);
    StackedIsMade(t, q, q.copy);
    assert s'.layers[q.copy] == t.layers[q.copy];
    assert CopiedFor(s.layers[l], q, s'.layers[q.copy]);
  }

  lemma MadeOnUsed(s: State, q: ContainerRequest, l: string, s': State)
    requires q.image != "" && q.image in s.images && s.images[q.image].top != "" && !NeedsCopy(s, q)
    requires FirstToSuit(s, [s.images[q.image].top] + s.images[q.image].mapped, q, l)
    requires (s', Ok) == StackedOn(s, q, l)
    ensures ContainerMade(s, q, s')
  {
    StackedIsMade(s, q, l);
  }

  /** A container that is created stands on the layer chosen for its mapping. */
  lemma CreatedIsMade(s: State, q: ContainerRequest, s': State)
    requires Legal(s, OpCreateContainer(q)) && CreateContainer(s, q, s', Ok)
    ensures ContainerMade(s, q, s')
  {
    if q.image == "" || s.images[q.image].top == "" {
      StackedIsMade(s, q, "");
    } else {
      var candidates := [s.images[q.image].top] + s.images[q.image].mapped;
      var choice :| Chosen(s, candidates, q.mapping, q.shifting, choice) && StandsOnChoice(s, q, choice, s', Ok);
      CopyIsNeeded(s, q, choice);
      match choice
      case Use(l) => MadeOnUsed(s, q, l, s');
      case CopyOf(l) => MadeOnCopy(s, q, l, s');
    }
  }

  /** A mapping that asks for host ids and lists a mapping as well suits no layer. */
  ghost predicate Satisfiable(q: ContainerRequest) {
    q.shifting || ((q.mapping.hostUID ==> q.mapping.uidMap == []) && (q.mapping.hostGID ==> q.mapping.gidMap == []))
  }

  /** The copy made for one container is found again by the next one with the same mapping, unless nothing ever suits it. */
  lemma CopyIsReused(s: State, q: ContainerRequest, s': State, next: ContainerRequest)
    requires Integrity(s) && Legal(s, OpCreateContainer(q)) && CreateContainer(s, q, s', Ok) && NeedsCopy(s, q)
    requires next.image == q.image && next.mapping == q.mapping && next.shifting == q.shifting
    ensures NeedsCopy(s', next) <==> !Satisfiable(q)
  {
    CreatedIsMade(s, q, s');
    CreateContainerKeepsIntegrity(s, q, s', Ok);
    var img := s'.images[q.image];
    assert img.mapped[|img.mapped| - 1] == q.copy;
    assert q.copy in [img.top] + img.mapped && Usable(s', q.copy);
    if Satisfiable(q) {
      assert Suits(s', q.copy, next.mapping, next.shifting);
    }
  }

  /** Layer `id` is no longer registered as a mapped copy, and otherwise the images are what they were. */
  ghost predicate CopyForgotten(images: map<string, Image>, images': map<string, Image>, id: string) {
    && images'.Keys == images.Keys
    && forall i :: i in images ==>
         && images'[i] == images[i].(mapped := images'[i].mapped)
         && forall m :: m in images'[i].mapped <==> m in images[i].mapped && m != id
  }

  // ---- What stays as it is

  /** The operation asks for container `c`, or image `i`, to go. */
  predicate DeletesContainer(op: Op, c: string) {
    op.OpDeleteContainer? && op.id == c
  }

  predicate DeletesImage(op: Op, i: string) {
    op.OpDeleteImage? && op.id == i
  }

  /** Layers that are still there are what they were. */
  ghost predicate LayersStay(s: State, s': State) {
    forall l :: l in s.layers && l in s'.layers ==> s'.layers[l] == s.layers[l]
  }

  ghost predicate ContainerStays(s: State, s': State, c: string) {
    c in s.containers ==> c in s'.containers && s'.containers[c] == s.containers[c]
  }

  /** The image is what it was; only its list of mapped copies may have changed. */
  ghost predicate ImageStays(s: State, s': State, i: string) {
    i in s.images ==> i in s'.images && s'.images[i] == s.images[i].(mapped := s'.images[i].mapped)
  }

  lemma StackLeaves(s: State, q: ContainerRequest, parent: string, c: string, i: string)
    ensures var s' := StackedOn(s, q, parent).0; LayersStay(s, s') && ContainerStays(s, s', c) && ImageStays(s, s', i)
    ensures forall l :: l in s.layers ==> l in StackedOn(s, q, parent).0.layers
  {
  }

  lemma CopyLeaves(s: State, q: ContainerRequest, l: string, i: string)
    requires q.image in s.images && l in s.layers && q.copy !in s.layers
    ensures var t := AddCopy(s, q.image, l, q.copy, q.mapping, q.shifting);
      && t.containers == s.containers && ImageStays(s, t, i) && forall x :: x in s.layers ==> x in t.layers && t.layers[x] == s.layers[x]
  {
  }

  lemma CreateContainerLeaves(s: State, q: ContainerRequest, s': State, st: Status, c: string, i: string)
    requires Legal(s, OpCreateContainer(q)) && CreateContainer(s, q, s', st)
    ensures LayersStay(s, s') && ContainerStays(s, s', c) && ImageStays(s, s', i)
  {
    if q.image != "" && q.image !in s.images {
    } else if q.image == "" || s.images[q.image].top == "" {
      StackLeaves(s, q, "", c, i);
    } else {
      var candidates := [s.images[q.image].top] + s.images[q.image].mapped;
      var choice :| Chosen(s, candidates, q.mapping, q.shifting, choice) && StandsOnChoice(s, q, choice, s', st);
      match choice
      case NoLayer =>
      case Use(l) => StackLeaves(s, q, l, c, i);
      case CopyOf(l) =>
        CopyLeaves(s, q, l, i);
        StackLeaves(AddCopy(s, q.image, l, q.copy, q.mapping, q.shifting), q, q.copy, c, i);
    }
  }

  lemma DeletionLeaves(s: State, op: Op, s': State, c: string, i: string)
    requires (op.OpDeleteLayer? || op.OpDeleteContainer?) && Step(s, op, s')
    ensures LayersStay(s, s') && ImageStays(s, s', i) && (DeletesContainer(op, c) || ContainerStays(s, s', c))
  {
  }

  lemma DeleteImageLeaves(s: State, id: string, removed: seq<string>, done: nat, s': State, st: Status, c: string, i: string)
    requires DeleteImage(s, id, removed, done, s', st)
    ensures LayersStay(s, s') && ContainerStays(s, s', c) && (i == id || ImageStays(s, s', i))
  {
  }

  /** No operation touches what it was not asked to touch. */
  lemma StepLeaves(s: State, op: Op, s': State, c: string, i: string)
    requires Legal(s, op) && Step(s, op, s')
    ensures LayersStay(s, s')
    ensures DeletesContainer(op, c) || ContainerStays(s, s', c)
    ensures DeletesImage(op, i) || ImageStays(s, s', i)
  {
    match op
    case OpCreateContainer(q) =>
      var st :| CreateContainer(s, q, s', st);
      CreateContainerLeaves(s, q, s', st, c, i);
    case OpDeleteImage(id, removed, done) =>
      var st :| DeleteImage(s, id, removed, done, s', st);
      DeleteImageLeaves(s, id, removed, done, s', st, c, i);
    case OpDeleteLayer(_) => DeletionLeaves(s, op, s', c, i);
    case OpDeleteContainer(_, _) => DeletionLeaves(s, op, s', c, i);
    case _ =>
  }

  lemma {:induction false} SameChain(s: State, s': State, l: string, n: nat)
    requires ParentsExist(s) && ParentsExist(s') && LayersStay(s, s')
    requires l == "" || (l in s.layers && l in s'.layers)
    ensures Climb(ParentsOf(s'), l, n) == Climb(ParentsOf(s), l, n)
    decreases n
  {
    if n > 0 {
      SameChain(s, s', Parent(ParentsOf(s), l), n - 1);
    }
  }

  /** Container `c` has the same record and stands on the same chain of layers. */
  ghost predicate SameContainer(s: State, s': State, c: string) {
    && c in s.containers && c in s'.containers && s'.containers[c] == s.containers[c]
    && forall n: nat :: Climb(ParentsOf(s'), s.containers[c].layer, n) == Climb(ParentsOf(s), s.containers[c].layer, n)
  }

  /** Image `i` has the same top layer, the same chain below it and the same big data. */
  ghost predicate SameImage(s: State, s': State, i: string) {
    && i in s.images && i in s'.images && s'.images[i].top == s.images[i].top && s'.images[i].bigData == s.images[i].bigData
    && forall n: nat :: Climb(ParentsOf(s'), s.images[i].top, n) == Climb(ParentsOf(s), s.images[i].top, n)
  }

  lemma StepLeavesContainer(s: State, op: Op, s': State, c: string)
    requires Integrity(s) && Legal(s, op) && Step(s, op, s') && c in s.containers && !DeletesContainer(op, c)
    ensures SameContainer(s, s', c)
  {
    StepKeepsIntegrity(s, op, s');
    StepLeaves(s, op, s', c, "");
    assert OwnsLeaf(s, c) && OwnsLeaf(s', c);
    forall n: nat {
      SameChain(s, s', s.containers[c].layer, n);
    }
  }

  lemma StepLeavesImage(s: State, op: Op, s': State, i: string)
    requires Integrity(s) && Legal(s, op) && Step(s, op, s') && i in s.images && !DeletesImage(op, i)
    ensures SameImage(s, s', i)
  {
    StepKeepsIntegrity(s, op, s');
    StepLeaves(s, op, s', "", i);
    forall n: nat {
      SameChain(s, s', s.images[i].top, n);
    }
  }

  lemma SameContainerTwice(s: State, t: State, u: State, c: string)
    requires SameContainer(s, t, c) && SameContainer(t, u, c)
    ensures SameContainer(s, u, c)
  {
  }

  lemma SameImageTwice(s: State, t: State, u: State, i: string)
    requires SameImage(s, t, i) && SameImage(t, u, i)
    ensures SameImage(s, u, i)
  {
  }

  lemma RunStep(states: seq<State>, ops: seq<Op>, k: nat)
    requires IsRun(states, ops) && Integrity(states[0]) && k < |ops|
    ensures Integrity(states[k]) && Legal(states[k], ops[k]) && Step(states[k], ops[k], states[k + 1])
  {
    RunKeepsIntegrity(states, ops, k);
    assert StepsAt(states, ops, k);
  }

  /**
   * In every run of the store, whatever else is created and deleted: a container keeps its record and the whole chain
   * of layers it stands on, link by link, until somebody deletes the container.
   */
  lemma {:induction false} ContainerKeepsItsLayers(states: seq<State>, ops: seq<Op>, j: nat, k: nat, c: string)
    requires IsRun(states, ops) && Integrity(states[0]) && j <= k < |states| && c in states[j].containers
    requires forall i :: j <= i < k ==> !DeletesContainer(ops[i], c)
    ensures SameContainer(states[j], states[k], c)
  {
    if j < k {
      ContainerKeepsItsLayers(states, ops, j, k - 1, c);
      RunStep(states, ops, k - 1);
      StepLeavesContainer(states[k - 1], ops[k - 1], states[k], c);
      SameContainerTwice(states[j], states[k - 1], states[k], c);
    }
  }

  /** The same for an image: its top layer, the chain below it and its big data stay until somebody deletes the image. */
  lemma {:induction false} ImageKeepsItsLayers(states: seq<State>, ops: seq<Op>, j: nat, k: nat, i: string)
    requires IsRun(states, ops) && Integrity(states[0]) && j <= k < |states| && i in states[j].images
    requires forall n :: j <= n < k ==> !DeletesImage(ops[n], i)
    ensures SameImage(states[j], states[k], i)
  {
    if j < k {
      ImageKeepsItsLayers(states, ops, j, k - 1, i);
      RunStep(states, ops, k - 1);
      StepLeavesImage(states[k - 1], ops[k - 1], states[k], i);
      SameImageTwice(states[j], states[k - 1], states[k], i);
    }
  }
}
