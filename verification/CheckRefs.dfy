/** How Check finds layers that nothing refers to, and passes errors on from layers to images (storage/check.go). */
module CheckRefs {
  import opened ParentChain

  datatype Problem =
    | LayerMissing(layer: string)          // a layer's parent
    | ImageLayerMissing(layer: string)
    | LayerUnreferenced(layer: string)
    | ContainerImageMissing(image: string)
    | Damaged(what: string)                // anything found by looking at contents

  /** `damage` is what looking at the image's own data finds. */
  datatype Image = Image(id: string, topLayer: string, mappedTopLayers: seq<string>, readWrite: bool, damage: seq<Problem>)

  /** `image` is "" for a container without a base image. */
  datatype Container = Container(id: string, layer: string, image: string, damage: seq<Problem>)

  /** A layer of the read-write store, and whether it is so old that whatever needs it should have shown up. */
  datatype Layer = Layer(id: string, old_: bool)

  type Errors = map<string, seq<Problem>>

  function ErrorsOf(m: Errors, id: string): seq<Problem> {
    if id in m then m[id] else []
  }

  function Recorded(m: Errors, id: string, more: seq<Problem>): Errors {
    if more == [] then m else m[id := ErrorsOf(m, id) + more]
  }

  // ---- References

  function Tops(image: Image): seq<string> {
    [image.topLayer] + image.mappedTopLayers
  }

  /** The image uses layer `x`, directly or through layers above it. */
  ghost predicate Uses(p: Parents, image: Image, x: string) {
    exists top :: top in Tops(image) && OnChain(p, top, x)
  }

  /** Image `i` of `images` is the first with its ID. */
  ghost predicate First(images: seq<Image>, i: nat) {
    i < |images| && forall j :: 0 <= j < i ==> images[j].id != images[i].id
  }

  /** One of the first `k` images has the ID. */
  ghost predicate Seen(images: seq<Image>, k: nat, id: string)
    requires k <= |images|
  {
    exists i :: 0 <= i < k && images[i].id == id
  }

  ghost predicate UsedByImages(p: Parents, images: seq<Image>, x: string) {
    exists i: nat :: First(images, i) && Uses(p, images[i], x)
  }

  ghost predicate UsedByContainers(containers: seq<Container>, x: string) {
    x != "" && exists c :: c in containers && c.layer == x
  }

  lemma ChainSplits(p: Parents, id: string, x: string)
    requires id != ""
    ensures OnChain(p, id, x) <==> x == id || OnChain(p, Parent(p, id), x)
  {
    if OnChain(p, id, x) && x != id {
      var n: nat :| Climb(p, id, n) == x;
      assert Climb(p, Parent(p, id), n - 1) == x;
    }
    if x == id {
      ChainOfSelf(p, id);
    }
    if OnChain(p, Parent(p, id), x) {
      var n: nat :| Climb(p, Parent(p, id), n) == x;
      assert Climb(p, id, n + 1) == x;
    }
  }

  lemma NothingOnChain(p: Parents, x: string)
    requires "" !in p
    ensures !OnChain(p, "", x)
  {
    forall n: nat
      ensures Climb(p, "", n) == ""
    {
      ClimbFromNothing(p, n);
    }
  }

  /** `after` marks what `before` marked and the known layers of `visited`. */
  ghost predicate MarkedBy(before: map<string, bool>, after: map<string, bool>, visited: set<string>) {
    after.Keys == before.Keys && forall x :: x in after ==> (after[x] <==> before[x] || x in visited)
  }

  lemma MarkedAgain(a: map<string, bool>, b: map<string, bool>, c: map<string, bool>, v: set<string>, w: set<string>)
    requires MarkedBy(a, b, v) && MarkedBy(b, c, w)
    ensures MarkedBy(a, c, v + w)
  {
  }

  /** Error `e` is recorded for layer `x`, or says that there is no such layer. */
  ghost predicate Blamed(known: set<string>, errors: Errors, roErrors: Errors, x: string, e: Problem) {
    (e == ImageLayerMissing(x) && x !in known) || e in ErrorsOf(errors, x) || e in ErrorsOf(roErrors, x)
  }

  /** What is wrong with an image: its own damage, and all that is wrong with the layers it uses. */
  ghost predicate WrongWith(p: Parents, known: set<string>, errors: Errors, roErrors: Errors, image: Image, e: Problem) {
    e in image.damage || exists x :: Uses(p, image, x) && Blamed(known, errors, roErrors, x, e)
  }

  ghost predicate Dangling(p: Parents, known: set<string>, id: string) {
    id in p && p[id] != "" && p[id] !in known
  }

  /** `after` has, besides the errors of `before`, one about the missing parent of each of the layers `ids`. */
  ghost predicate Noted(p: Parents, before: Errors, after: Errors, ids: set<string>) {
    && (forall id :: id in ids ==> id in p)
    && forall id, e :: e in ErrorsOf(after, id) <==> e in ErrorsOf(before, id) || (id in ids && e == LayerMissing(p[id]))
  }

  lemma NotedOneMore(p: Parents, before: Errors, after: Errors, ids: set<string>, id: string)
    requires Noted(p, before, after, ids) && id in p
    ensures Noted(p, before, Recorded(after, id, [LayerMissing(p[id])]), ids + {id})
  {
    var more := Recorded(after, id, [LayerMissing(p[id])]);
    forall x, e
      ensures e in ErrorsOf(more, x) <==> e in ErrorsOf(before, x) || (x in ids + {id} && e == LayerMissing(p[x]))
    {
      assert e in ErrorsOf(after, x) <==> e in ErrorsOf(before, x) || (x in ids && e == LayerMissing(p[x]));
    }
  }

  /** The errors recorded for an image. */
  function ErrorsOfImage(imageErrors: Errors, roImageErrors: Errors, image: Image): seq<Problem> {
    ErrorsOf(if image.readWrite then imageErrors else roImageErrors, image.id)
  }

  ghost predicate Complete(p: Parents, known: set<string>, errors: Errors, roErrors: Errors, image: Image, found: seq<Problem>) {
    forall e :: e in found <==> WrongWith(p, known, errors, roErrors, image, e)
  }

  /** The image has its errors, and in the records of its kind only. */
  ghost predicate Settled(p: Parents, known: set<string>, errors: Errors, roErrors: Errors, image: Image,
                          imageErrors: Errors, roImageErrors: Errors) {
    && Complete(p, known, errors, roErrors, image, ErrorsOfImage(imageErrors, roImageErrors, image))
    && ErrorsOfImage(roImageErrors, imageErrors, image) == []
  }

  /** The first `k` images have been examined: those that are the first with their ID have their errors, and nothing else has. */
  ghost predicate Examined(p: Parents, known: set<string>, errors: Errors, roErrors: Errors, images: seq<Image>, k: nat,
                           examined: set<string>, imageErrors: Errors, roImageErrors: Errors)
    requires k <= |images|
  {
    && (forall id :: id in examined <==> Seen(images, k, id))
    && (forall id :: id !in examined ==> ErrorsOf(imageErrors, id) == ErrorsOf(roImageErrors, id) == [])
    && AllSettled(p, known, errors, roErrors, images, k, imageErrors, roImageErrors)
  }

  lemma SeenOneMore(images: seq<Image>, k: nat, id: string)
    requires k < |images|
    ensures Seen(images, k + 1, id) <==> Seen(images, k, id) || images[k].id == id
  {
  }

  lemma FirstIsUnseen(images: seq<Image>, k: nat)
    requires k < |images|
    ensures First(images, k) <==> !Seen(images, k, images[k].id)
  {
  }

  /** The first `k` images, as far as they are the first with their ID, have their errors. */
  ghost predicate AllSettled(p: Parents, known: set<string>, errors: Errors, roErrors: Errors, images: seq<Image>, k: nat, ie: Errors, roie: Errors)
    requires k <= |images|
  {
    forall i: nat :: i < k && First(images, i) ==> Settled(p, known, errors, roErrors, images[i], ie, roie)
  }

  lemma AllSettledSkip(p: Parents, known: set<string>, errors: Errors, roErrors: Errors, images: seq<Image>, k: nat, ie: Errors, roie: Errors)
    requires k < |images| && !First(images, k) && AllSettled(p, known, errors, roErrors, images, k, ie, roie)
    ensures AllSettled(p, known, errors, roErrors, images, k + 1, ie, roie)
  {
    forall i: nat | i < k + 1 && First(images, i)
      ensures Settled(p, known, errors, roErrors, images[i], ie, roie)
    {
      assert i < k;
    }
  }

  lemma SeenSkip(images: seq<Image>, k: nat, examined: set<string>)
    requires k < |images| && images[k].id in examined && forall id :: id in examined <==> Seen(images, k, id)
    ensures !First(images, k) && forall id :: id in examined <==> Seen(images, k + 1, id)
  {
    FirstIsUnseen(images, k);
    forall id
      ensures id in examined <==> Seen(images, k + 1, id)
    {
      SeenOneMore(images, k, id);
    }
  }

  lemma ExaminedSkip(p: Parents, known: set<string>, errors: Errors, roErrors: Errors, images: seq<Image>, k: nat,
                     examined: set<string>, ie: Errors, roie: Errors)
    requires k < |images| && Examined(p, known, errors, roErrors, images, k, examined, ie, roie) && images[k].id in examined
    ensures !First(images, k) && Examined(p, known, errors, roErrors, images, k + 1, examined, ie, roie)
  {
    SeenSkip(images, k, examined);
    AllSettledSkip(p, known, errors, roErrors, images, k, ie, roie);
  }

  lemma AllSettledOneMore(p: Parents, known: set<string>, errors: Errors, roErrors: Errors, images: seq<Image>, k: nat,
                          ie: Errors, roie: Errors, ie': Errors, roie': Errors)
    requires k < |images| && First(images, k) && AllSettled(p, known, errors, roErrors, images, k, ie, roie)
    requires Settled(p, known, errors, roErrors, images[k], ie', roie')
    requires forall id :: id != images[k].id ==> ErrorsOf(ie', id) == ErrorsOf(ie, id) && ErrorsOf(roie', id) == ErrorsOf(roie, id)
    ensures AllSettled(p, known, errors, roErrors, images, k + 1, ie', roie')
  {
    forall i: nat | i < k + 1 && First(images, i)
      ensures Settled(p, known, errors, roErrors, images[i], ie', roie')
    {
      if i < k {
        assert Settled(p, known, errors, roErrors, images[i], ie, roie);
      }
    }
  }

  lemma ExaminedOneMore(p: Parents, known: set<string>, errors: Errors, roErrors: Errors, images: seq<Image>, k: nat,
                        examined: set<string>, ie: Errors, roie: Errors, ie': Errors, roie': Errors)
    requires k < |images| && Examined(p, known, errors, roErrors, images, k, examined, ie, roie) && images[k].id !in examined
    requires Settled(p, known, errors, roErrors, images[k], ie', roie')
    requires forall id :: id != images[k].id ==> ErrorsOf(ie', id) == ErrorsOf(ie, id) && ErrorsOf(roie', id) == ErrorsOf(roie, id)
    ensures First(images, k) && Examined(p, known, errors, roErrors, images, k + 1, examined + {images[k].id}, ie', roie')
  {
    FirstIsUnseen(images, k);
    AllSettledOneMore(p, known, errors, roErrors, images, k, ie, roie, ie', roie');
    forall id
      ensures id in examined + {images[k].id} <==> Seen(images, k + 1, id)
    {
      SeenOneMore(images, k, id);
    }
  }

  /** The first `k` images use exactly the layers `visited`. */
  ghost predicate UsedByFirst(p: Parents, images: seq<Image>, k: nat, visited: set<string>)
    requires k <= |images|
  {
    forall x :: x in visited <==> exists i: nat :: i < k && First(images, i) && Uses(p, images[i], x)
  }

  lemma UsedByOneMore(p: Parents, images: seq<Image>, k: nat, visited: set<string>, more: set<string>)
    requires k < |images| && UsedByFirst(p, images, k, visited)
    requires forall x :: x in more <==> First(images, k) && Uses(p, images[k], x)
    ensures UsedByFirst(p, images, k + 1, visited + more)
  {
    forall x
      ensures x in visited + more <==> exists i: nat :: i < k + 1 && First(images, i) && Uses(p, images[i], x)
    {
    }
  }

  /** What is wrong with a container: its own damage, and that its image is missing or what is wrong with that. */
  ghost predicate WrongWithContainer(examined: set<string>, imageErrors: Errors, roImageErrors: Errors, c: Container, e: Problem) {
    || e in c.damage
    || (c.image != ""
        && ((c.image !in examined && e == ContainerImageMissing(c.image))
            || e in ErrorsOf(imageErrors, c.image) || e in ErrorsOf(roImageErrors, c.image)))
  }

  /** The same without the records: what is wrong with the first image that has the ID, or that there is none. */
  ghost predicate Inherits(p: Parents, known: set<string>, errors: Errors, roErrors: Errors, images: seq<Image>, c: Container, e: Problem) {
    || e in c.damage
    || (c.image != "" && !Seen(images, |images|, c.image) && e == ContainerImageMissing(c.image))
    || (c.image != "" && exists i: nat :: First(images, i) && images[i].id == c.image && WrongWith(p, known, errors, roErrors, images[i], e))
  }

  lemma FirstExists(images: seq<Image>, id: string) returns (i: nat)
    requires Seen(images, |images|, id)
    ensures First(images, i) && images[i].id == id
  {
    i :| i < |images| && images[i].id == id;
    while exists j :: 0 <= j < i && images[j].id == id
      invariant i < |images| && images[i].id == id
      decreases i
    {
      var j :| 0 <= j < i && images[j].id == id;
      i := j;
    }
  }

  ghost predicate DistinctContainers(containers: seq<Container>) {
    forall i, j :: 0 <= i < j < |containers| ==> containers[i].id != containers[j].id
  }

  /** The first `k` containers have their errors, and the others none yet. */
  ghost predicate ContainersDone(examined: set<string>, imageErrors: Errors, roImageErrors: Errors, containers: seq<Container>, k: nat,
                                 errors: Errors)
    requires k <= |containers|
  {
    && (forall i: nat, e :: i < k ==>
          (e in ErrorsOf(errors, containers[i].id) <==> WrongWithContainer(examined, imageErrors, roImageErrors, containers[i], e)))
    && (forall i: nat :: k <= i < |containers| ==> ErrorsOf(errors, containers[i].id) == [])
  }

  lemma ContainerOneMore(examined: set<string>, imageErrors: Errors, roImageErrors: Errors, containers: seq<Container>, k: nat, errors: Errors,
                         more: seq<Problem>)
    requires DistinctContainers(containers) && k < |containers|
    requires ContainersDone(examined, imageErrors, roImageErrors, containers, k, errors)
    requires forall e :: e in more <==> WrongWithContainer(examined, imageErrors, roImageErrors, containers[k], e)
    ensures ContainersDone(examined, imageErrors, roImageErrors, containers, k + 1, Recorded(errors, containers[k].id, more))
  {
    var after := Recorded(errors, containers[k].id, more);
    assert ErrorsOf(after, containers[k].id) == more;
    forall i: nat | i < |containers| && i != k
      ensures ErrorsOf(after, containers[i].id) == ErrorsOf(errors, containers[i].id)
    {
      assert containers[i].id != containers[k].id;
    }
  }

  /** `after` marks what `before` marked and the layers of the containers. */
  ghost predicate MarksToo(before: map<string, bool>, after: map<string, bool>, containers: seq<Container>) {
    forall x :: Marks(after, x) <==> Marks(before, x) || UsedByContainers(containers, x)
  }

  lemma MarksOneMore(before: map<string, bool>, after: map<string, bool>, containers: seq<Container>, k: nat)
    requires k < |containers| && MarksToo(before, after, containers[..k])
    ensures MarksToo(before, if containers[k].layer != "" then after[containers[k].layer := true] else after, containers[..k + 1])
  {
    var next := if containers[k].layer != "" then after[containers[k].layer := true] else after;
    assert containers[..k + 1] == containers[..k] + [containers[k]];
    forall x
      ensures Marks(next, x) <==> Marks(before, x) || UsedByContainers(containers[..k + 1], x)
    {
      assert UsedByContainers(containers[..k + 1], x) <==> UsedByContainers(containers[..k], x) || (x != "" && containers[k].layer == x);
    }
  }

  class Checker {
    /** The layers of all stores and their parents. */
    const parents: Parents
    var referenced: map<string, bool>
    var referencedRO: map<string, bool>
    var layerErrors: Errors
    var roLayerErrors: Errors
    var imageErrors: Errors
    var roImageErrors: Errors
    var containerErrors: Errors
    var examined: set<string>

    ghost function Known(): set<string>
      reads this`referenced, this`referencedRO
    {
      referenced.Keys + referencedRO.Keys
    }

    ghost predicate Blames(x: string, e: Problem)
      reads this`referenced, this`referencedRO, this`layerErrors, this`roLayerErrors
    {
      Blamed(Known(), layerErrors, roLayerErrors, x, e)
    }

    /** Marks the chain that starts at `top`, and collects what is wrong with its layers. */
    method WalkChain(top: string, ghost rank: map<string, nat>) returns (errors: seq<Problem>, ghost visited: set<string>)
      requires Ranked(parents, rank)
      modifies this`referenced, this`referencedRO
      ensures MarkedBy(old(referenced), referenced, visited) && MarkedBy(old(referencedRO), referencedRO, visited)
      ensures forall x :: x in visited <==> OnChain(parents, top, x)
      ensures forall e :: e in errors <==> exists x :: x in visited && Blames(x, e)
    {
      errors, visited := [], {};
      var layer := top;
      while layer != ""
        invariant MarkedBy(old(referenced), referenced, visited) && MarkedBy(old(referencedRO), referencedRO, visited)
        invariant forall x :: OnChain(parents, top, x) <==> x in visited || OnChain(parents, layer, x)
        invariant forall e :: e in errors <==> exists x :: x in visited && Blames(x, e)
        decreases Remaining(parents, rank, layer)
      {
        RemainingFalls(parents, rank, layer);
        forall x
          ensures OnChain(parents, layer, x) <==> x == layer || OnChain(parents, Parent(parents, layer), x)
        {
          ChainSplits(parents, layer, x);
        }
        var found := VisitLayer(layer);
        errors := errors + found;
        visited := visited + {layer};
        layer := Parent(parents, layer);
      }
      forall x
        ensures !OnChain(parents, "", x)
      {
        NothingOnChain(parents, x);
      }
    }

    method VisitLayer(layer: string) returns (found: seq<Problem>)
      modifies this`referenced, this`referencedRO
      ensures MarkedBy(old(referenced), referenced, {layer}) && MarkedBy(old(referencedRO), referencedRO, {layer})
      ensures forall e :: e in found <==> Blames(layer, e)
    {
      found := [];
      if layer !in referenced && layer !in referencedRO {
        found := [ImageLayerMissing(layer)];
      } else {
        if layer in referenced {
          referenced := referenced[layer := true];
        }
        if layer in referencedRO {
          referencedRO := referencedRO[layer := true];
        }
      }
      found := found + ErrorsOf(layerErrors, layer) + ErrorsOf(roLayerErrors, layer);
    }

    /** Walks all chains of an image; a top layer that was listed before is not walked again. */
    method WalkImage(image: Image, ghost rank: map<string, nat>) returns (errors: seq<Problem>, ghost visited: set<string>)
      requires Ranked(parents, rank)
      modifies this`referenced, this`referencedRO
      ensures MarkedBy(old(referenced), referenced, visited) && MarkedBy(old(referencedRO), referencedRO, visited)
      ensures forall x :: x in visited <==> Uses(parents, image, x)
      ensures forall e :: e in errors <==> exists x :: x in visited && Blames(x, e)
    {
      errors, visited := [], {};
      var seen := {};
      var tops := Tops(image);
      for k := 0 to |tops|
        invariant MarkedBy(old(referenced), referenced, visited) && MarkedBy(old(referencedRO), referencedRO, visited)
        invariant forall x :: x in visited <==> exists top :: top in tops[..k] && OnChain(parents, top, x)
        invariant forall top :: top in seen ==> top in tops[..k]
        invariant forall e :: e in errors <==> exists x :: x in visited && Blames(x, e)
      {
        var top := tops[k];
        assert tops[..k + 1] == tops[..k] + [top];
        if top == "" {
          forall x
            ensures !OnChain(parents, top, x)
          {
            NothingOnChain(parents, x);
          }
        } else if top !in seen {
          seen := seen + {top};
          ghost var referenced0, referencedRO0 := referenced, referencedRO;
          ghost var chain;
          var found;
          found, chain := WalkChain(top, rank);
          MarkedAgain(old(referenced), referenced0, referenced, visited, chain);
          MarkedAgain(old(referencedRO), referencedRO0, referencedRO, visited, chain);
          errors, visited := errors + found, visited + chain;
        }
      }
      assert tops[..|tops|] == tops;
    }

    method ExamineImage(image: Image, ghost rank: map<string, nat>) returns (ghost visited: set<string>)
      requires Ranked(parents, rank)
      requires ErrorsOf(imageErrors, image.id) == ErrorsOf(roImageErrors, image.id) == []
      modifies this`referenced, this`referencedRO, this`imageErrors, this`roImageErrors
      ensures MarkedBy(old(referenced), referenced, visited) && MarkedBy(old(referencedRO), referencedRO, visited)
      ensures forall x :: x in visited <==> Uses(parents, image, x)
      ensures Settled(parents, Known(), layerErrors, roLayerErrors, image, imageErrors, roImageErrors)
      ensures forall id :: id != image.id ==>
        ErrorsOf(imageErrors, id) == ErrorsOf(old(imageErrors), id) && ErrorsOf(roImageErrors, id) == ErrorsOf(old(roImageErrors), id)
    {
      var errors;
      errors, visited := WalkImage(image, rank);
      errors := image.damage + errors;
      if image.readWrite {
        imageErrors := Recorded(imageErrors, image.id, errors);
      } else {
        roImageErrors := Recorded(roImageErrors, image.id, errors);
      }
      assert ErrorsOfImage(imageErrors, roImageErrors, image) == errors;
    }

    ghost predicate Done(images: seq<Image>, k: nat)
      requires k <= |images|
      reads this
    {
      Examined(parents, Known(), layerErrors, roLayerErrors, images, k, examined, imageErrors, roImageErrors)
    }

    /** Examines the images in turn; one whose ID was seen before is skipped. */
    method ExamineImages(images: seq<Image>, ghost rank: map<string, nat>) returns (ghost visited: set<string>)
      requires Ranked(parents, rank) && examined == {} && imageErrors == map[] && roImageErrors == map[]
      modifies this`referenced, this`referencedRO, this`imageErrors, this`roImageErrors, this`examined
      ensures MarkedBy(old(referenced), referenced, visited) && MarkedBy(old(referencedRO), referencedRO, visited)
      ensures forall x :: x in visited <==> UsedByImages(parents, images, x)
      ensures Done(images, |images|)
    {
      visited := {};
      for k := 0 to |images|
        invariant MarkedBy(old(referenced), referenced, visited) && MarkedBy(old(referencedRO), referencedRO, visited)
        invariant UsedByFirst(parents, images, k, visited) && Done(images, k)
      {
        ghost var referenced0, referencedRO0 := referenced, referencedRO;
        ghost var more := ExamineNext(images, k, rank);
        MarkedAgain(old(referenced), referenced0, referenced, visited, more);
        MarkedAgain(old(referencedRO), referencedRO0, referencedRO, visited, more);
        UsedByOneMore(parents, images, k, visited, more);
        visited := visited + more;
      }
    }

    method ExamineNext(images: seq<Image>, k: nat, ghost rank: map<string, nat>) returns (ghost more: set<string>)
      requires Ranked(parents, rank) && k < |images| && Done(images, k)
      modifies this`referenced, this`referencedRO, this`imageErrors, this`roImageErrors, this`examined
      ensures MarkedBy(old(referenced), referenced, more) && MarkedBy(old(referencedRO), referencedRO, more)
      ensures forall x :: x in more <==> First(images, k) && Uses(parents, images[k], x)
      ensures Done(images, k + 1)
    {
      more := {};
      if images[k].id in examined {
        ExaminedSkip(parents, Known(), layerErrors, roLayerErrors, images, k, examined, imageErrors, roImageErrors);
        return;
      }
      ghost var known := Known();
      more := ExamineImage(images[k], rank);
      assert Known() == known;
      ExaminedOneMore(parents, known, layerErrors, roLayerErrors, images, k, examined, old(imageErrors), old(roImageErrors),
                      imageErrors, roImageErrors);
      examined := examined + {images[k].id};
    }

    /** Notes layers whose parent no store has. */
    method CheckParents()
      modifies this`layerErrors, this`roLayerErrors
      ensures Noted(parents, old(layerErrors), layerErrors, set id | id in parents && Dangling(parents, Known(), id) && id !in referencedRO)
      ensures Noted(parents, old(roLayerErrors), roLayerErrors, set id | id in parents && Dangling(parents, Known(), id) && id in referencedRO)
    {
      var todo := parents.Keys;
      ghost var rw, ro: set<string> := {}, {};
      while todo != {}
        invariant todo <= parents.Keys && rw <= parents.Keys && ro <= parents.Keys
        invariant forall id :: id in rw <==> id in parents && id !in todo && Dangling(parents, Known(), id) && id !in referencedRO
        invariant forall id :: id in ro <==> id in parents && id !in todo && Dangling(parents, Known(), id) && id in referencedRO
        invariant Noted(parents, old(layerErrors), layerErrors, rw) && Noted(parents, old(roLayerErrors), roLayerErrors, ro)
      {
        var id :| id in todo;
        todo := todo - {id};
        if parents[id] != "" && parents[id] !in referenced && parents[id] !in referencedRO {
          if id in referencedRO {
            NotedOneMore(parents, old(roLayerErrors), roLayerErrors, ro, id);
            ro := ro + {id};
            roLayerErrors := Recorded(roLayerErrors, id, [LayerMissing(parents[id])]);
          } else {
            NotedOneMore(parents, old(layerErrors), layerErrors, rw, id);
            rw := rw + {id};
            layerErrors := Recorded(layerErrors, id, [LayerMissing(parents[id])]);
          }
        }
      }
      assert rw == set id | id in parents && Dangling(parents, Known(), id) && id !in referencedRO;
      assert ro == set id | id in parents && Dangling(parents, Known(), id) && id in referencedRO;
    }

    /** Passes the errors of images on to their containers, and marks the containers' layers. */
    method ExamineContainers(containers: seq<Container>)
      requires DistinctContainers(containers) && containerErrors == map[]
      modifies this`referenced, this`containerErrors
      ensures MarksToo(old(referenced), referenced, containers)
      ensures forall k: nat, e :: k < |containers| ==>
        (e in ErrorsOf(containerErrors, containers[k].id) <==> WrongWithContainer(examined, imageErrors, roImageErrors, containers[k], e))
    {
      for k := 0 to |containers|
        invariant MarksToo(old(referenced), referenced, containers[..k])
        invariant ContainersDone(examined, imageErrors, roImageErrors, containers, k, containerErrors)
      {
        MarksOneMore(old(referenced), referenced, containers, k);
        var errors := ErrorsOfContainer(containers[k]);
        ContainerOneMore(examined, imageErrors, roImageErrors, containers, k, containerErrors, errors);
        containerErrors := Recorded(containerErrors, containers[k].id, errors);
        if containers[k].layer != "" {
          referenced := referenced[containers[k].layer := true];
        }
      }
      assert containers[..|containers|] == containers;
    }

    method ErrorsOfContainer(c: Container) returns (errors: seq<Problem>)
      ensures forall e :: e in errors <==> WrongWithContainer(examined, imageErrors, roImageErrors, c, e)
    {
      errors := c.damage;
      if c.image != "" {
        if c.image !in examined {
          errors := errors + [ContainerImageMissing(c.image)];
        }
        errors := errors + ErrorsOf(imageErrors, c.image) + ErrorsOf(roImageErrors, c.image);
      }
    }

    method FlagUnreferenced(layers: seq<Layer>)
      modifies this`layerErrors
      ensures forall id, e :: e in ErrorsOf(layerErrors, id) <==>
        e in ErrorsOf(old(layerErrors), id) || (e == LayerUnreferenced(id) && !Marks(referenced, id) && Old(layers, id))
    {
      for k := 0 to |layers|
        invariant forall id, e :: e in ErrorsOf(layerErrors, id) <==>
          e in ErrorsOf(old(layerErrors), id) || (e == LayerUnreferenced(id) && !Marks(referenced, id) && Old(layers[..k], id))
      {
        assert layers[..k + 1] == layers[..k] + [layers[k]];
        if !Marks(referenced, layers[k].id) && layers[k].old_ {
          layerErrors := Recorded(layerErrors, layers[k].id, [LayerUnreferenced(layers[k].id)]);
        }
      }
      assert layers[..|layers|] == layers;
    }

    /**
     * Check, after the layers were listed and looked at. A layer of the read-write store is reported as unreferenced
     * exactly if it is old enough, is no container's layer and is used by no examined image; an examined image has all
     * errors of the layers it uses.
     */
    method Check(images: seq<Image>, containers: seq<Container>, layers: seq<Layer>) returns (ghost errors: Errors, ghost roErrors: Errors)
      requires Acyclic(parents) && examined == {} && imageErrors == map[] && roImageErrors == map[] && containerErrors == map[]
      requires DistinctContainers(containers)
      requires forall x :: !Marks(referenced, x)
      requires forall l :: l in layers ==> l.id in referenced && LayerUnreferenced(l.id) !in ErrorsOf(layerErrors, l.id)
      modifies this
      ensures Noted(parents, old(layerErrors), errors, set id | id in parents && Dangling(parents, old(Known()), id) && id !in old(referencedRO))
      ensures Noted(parents, old(roLayerErrors), roErrors, set id | id in parents && Dangling(parents, old(Known()), id) && id in old(referencedRO))
      ensures forall i: nat, e :: First(images, i) ==>
        (e in ErrorsOfImage(imageErrors, roImageErrors, images[i]) <==> WrongWith(parents, old(Known()), errors, roErrors, images[i], e))
      ensures forall k: nat, e :: k < |containers| ==>
        (e in ErrorsOf(containerErrors, containers[k].id) <==> Inherits(parents, old(Known()), errors, roErrors, images, containers[k], e))
      ensures forall l :: l in layers ==>
        (LayerUnreferenced(l.id) in ErrorsOf(layerErrors, l.id) <==>
          Old(layers, l.id) && !UsedByContainers(containers, l.id) && !UsedByImages(parents, images, l.id))
    {
      ghost var rank :| Ranked(parents, rank);
      ghost var known := Known();
      CheckParents();
      errors, roErrors := layerErrors, roLayerErrors;
      ghost var visited := ExamineImages(images, rank);
      assert Known() == known;
      ImagesComplete(parents, known, errors, roErrors, images, examined, imageErrors, roImageErrors);
      forall c: Container, e
        ensures WrongWithContainer(examined, imageErrors, roImageErrors, c, e) <==> Inherits(parents, known, errors, roErrors, images, c, e)
      {
        ContainerInherits(parents, known, errors, roErrors, images, examined, imageErrors, roImageErrors, c, e);
      }
      forall x | x in referenced
        ensures Marks(referenced, x) <==> UsedByImages(parents, images, x)
      {
        assert !Marks(old(referenced), x);
      }
      ExamineContainers(containers);
      FlagUnreferenced(layers);
    }
  }

  predicate Marks(referenced: map<string, bool>, x: string) {
    x in referenced && referenced[x]
  }

  predicate Old(layers: seq<Layer>, id: string) {
    exists l | l in layers :: l.id == id && l.old_
  }

  lemma ContainerInherits(p: Parents, known: set<string>, errors: Errors, roErrors: Errors, images: seq<Image>,
                          examined: set<string>, ie: Errors, roie: Errors, c: Container, e: Problem)
    requires Examined(p, known, errors, roErrors, images, |images|, examined, ie, roie)
    ensures WrongWithContainer(examined, ie, roie, c, e) <==> Inherits(p, known, errors, roErrors, images, c, e)
  {
    assert c.image in examined <==> Seen(images, |images|, c.image);
    forall i: nat | First(images, i) && images[i].id == c.image
      ensures WrongWith(p, known, errors, roErrors, images[i], e) <==> e in ErrorsOf(ie, c.image) || e in ErrorsOf(roie, c.image)
    {
      assert Settled(p, known, errors, roErrors, images[i], ie, roie);
    }
    if c.image in examined {
      var i := FirstExists(images, c.image);
    } else {
      forall i: nat | First(images, i)
        ensures images[i].id != c.image
      {
      }
    }
  }

  lemma ImagesComplete(p: Parents, known: set<string>, errors: Errors, roErrors: Errors, images: seq<Image>,
                       examined: set<string>, ie: Errors, roie: Errors)
    requires Examined(p, known, errors, roErrors, images, |images|, examined, ie, roie)
    ensures forall i: nat, e :: First(images, i) ==>
      (e in ErrorsOfImage(ie, roie, images[i]) <==> WrongWith(p, known, errors, roErrors, images[i], e))
  {
    forall i: nat, e | First(images, i)
      ensures e in ErrorsOfImage(ie, roie, images[i]) <==> WrongWith(p, known, errors, roErrors, images[i], e)
    {
      assert Settled(p, known, errors, roErrors, images[i], ie, roie);
    }
  }
}
