/**
 * Several processes share images.json (storage/images.go). Each keeps the images in memory and remembers the token
 * it last saw in the lock file; a change records a new token first and replaces the file afterwards. The steps of
 * different processes interleave wherever the file lock lets them, and a process can die between any two of its steps.
 */
module ImageCoherence {
  import opened Common
  import opened NameClaims
  import opened Images
  import opened ImageIndexes
  import opened ImageStore

  type Token = nat
  type Process = nat

  datatype Memory = Memory(
    ids: seq<string>, byid: map<string, Image>, byname: map<string, string>, bydigest: map<string, seq<string>>)

  datatype Lock = Unlocked | Shared | Exclusive

  /** Where a process is. The names in the comments are those of the original routines. */
  datatype Stage =
    | Idle
    | Opening                                          // newImageStore, before load
    | Checking                                         // startReading, first reloadIfChanged
    | Upgrading                                        // startReading gave up the shared lock to get the exclusive one
    | Repairing                                        // startReading, reloadIfChanged under the exclusive lock
    | Mended                                           // ... which worked
    | Downgrading                                      // startReading gave up the exclusive lock
    | Rechecking                                       // startReading, last reloadIfChanged
    | Entering                                         // startWriting, reloadIfChanged
    | Saving(next: Stage, restored: Option<Token>)     // Save, after recording the token and before replacing the file
    | Reading
    | Writing(changed: bool)

  datatype State = State(lastWrite: Token, memory: Memory, stage: Stage)

  datatype System = System(token: Token, issued: set<Token>, file: seq<Image>, processes: map<Process, State>)

  function Held(stage: Stage): Lock {
    match stage
    case Idle | Upgrading | Downgrading => Unlocked
    case Checking | Rechecking | Reading => Shared
    case _ => Exclusive
  }

  ghost predicate Sound(m: Memory) {
    ListsAll(m.ids, m.byid) && NamesAgree(m.byname, m.byid) && DigestsAgree(m.bydigest, m.byid) && Settled(m.byid)
  }

  /** A load of `file` can build `m`. */
  ghost predicate Loaded(file: seq<Image>, m: Memory) {
    Loads(file, m.ids, m.byid) && NamesAgree(m.byname, m.byid) && DigestsAgree(m.bydigest, m.byid)
  }

  /** `m` is what a fresh load of `file` builds, and that load has nothing to repair. */
  ghost predicate Coherent(file: seq<Image>, m: Memory) {
    !Clash(file) && Loaded(file, m)
  }

  function SavedForm(m: Memory): (r: seq<Image>)
    requires forall i :: 0 <= i < |m.ids| ==> m.ids[i] in m.byid
  {
    seq(|m.ids|, i requires 0 <= i < |m.ids| => OnDisk(m.byid[m.ids[i]]))
  }

  const EMPTY := Memory([], map[], map[], map[])

  // ---- Steps

  datatype Outcome = Fine | Failed

  datatype Event =
    | Open(p: Process)
    | StartReading(p: Process)
    | StartWriting(p: Process)
    | Reload(p: Process, outcome: Outcome, memory: Memory, token: Token)
    | Relock(p: Process)
    | Release(p: Process)
    | Change(p: Process, memory: Memory)
    | Record(p: Process, token: Token)
    | Replace(p: Process)
    | Stop(p: Process)
    | Die(p: Process)

  ghost predicate Grants(s: System, p: Process, lock: Lock) {
    forall q :: q in s.processes && q != p ==>
      match lock
      case Unlocked => true
      case Shared => Held(s.processes[q].stage) != Exclusive
      case Exclusive => Held(s.processes[q].stage) == Unlocked
  }

  predicate Loading(stage: Stage) {
    stage.Opening? || stage.Checking? || stage.Repairing? || stage.Rechecking? || stage.Entering?
  }

  /** Where a process goes once it is up to date. */
  function UpToDate(stage: Stage): Stage
    requires Loading(stage)
  {
    match stage
    case Checking | Rechecking => Reading
    case Repairing => Mended
    case Opening | Entering => Writing(false)
  }

  /** Where a process waits for the lock, and what it waits for. */
  function Waits(stage: Stage): Option<Stage> {
    match stage
    case Upgrading => Some(Repairing)
    case Downgrading => Some(Rechecking)
    case _ => None
  }

  predicate MustLoad(s: System, p: Process)
    requires p in s.processes
  {
    s.processes[p].stage.Opening? || s.processes[p].lastWrite != s.token
  }

  ghost predicate Enabled(s: System, e: Event) {
    match e
    case Open(p) => p !in s.processes && Grants(s, p, Exclusive)
    case StartReading(p) => p in s.processes && s.processes[p].stage.Idle? && Grants(s, p, Shared)
    case StartWriting(p) => p in s.processes && s.processes[p].stage.Idle? && Grants(s, p, Exclusive)
    case Reload(p, outcome, memory, token) =>
      && p in s.processes && Loading(s.processes[p].stage)
      && (outcome.Fine? && MustLoad(s, p) ==> Loaded(s.file, memory) && token !in s.issued)
    case Relock(p) =>
      && p in s.processes && Waits(s.processes[p].stage).Some?
      && Grants(s, p, Held(Waits(s.processes[p].stage).value))
    case Release(p) => p in s.processes && s.processes[p].stage.Mended?
    case Change(p, memory) => p in s.processes && s.processes[p].stage.Writing? && Sound(memory)
    case Record(p, token) => p in s.processes && s.processes[p].stage.Writing? && token !in s.issued
    case Replace(p) =>
      && p in s.processes && s.processes[p].stage.Saving?
      && forall i :: 0 <= i < |s.processes[p].memory.ids| ==> s.processes[p].memory.ids[i] in s.processes[p].memory.byid
    case Stop(p) => p in s.processes && (s.processes[p].stage.Reading? || s.processes[p].stage == Writing(false))
    case Die(p) => p in s.processes
  }

  function Moved(s: System, p: Process, stage: Stage): System
    requires p in s.processes
  {
    s.(processes := s.processes[p := s.processes[p].(stage := stage)])
  }

  /**
   * reloadIfChanged, and what its caller makes of the result. A load that takes names away saves the images; the
   * token that was current before is then put back over the one that saving recorded, except when opening the store.
   */
  ghost function Reloaded(s: System, p: Process, outcome: Outcome, memory: Memory, token: Token): System
    requires p in s.processes && Loading(s.processes[p].stage)
  {
    var state := s.processes[p];
    if outcome.Failed? then
      if state.stage.Opening? then s.(processes := s.processes - {p}) else Moved(s, p, Idle)
    else if !MustLoad(s, p) then
      Moved(s, p, UpToDate(state.stage))
    else if !Clash(s.file) then
      s.(processes := s.processes[p := State(s.token, memory, UpToDate(state.stage))])
    else if Held(state.stage) == Shared then
      Moved(s, p, if state.stage.Checking? then Upgrading else Idle)
    else
      var restored := if state.stage.Opening? then None else Some(s.token);
      s.(token := token, issued := s.issued + {token},
         processes := s.processes[p := State(token, memory, Saving(UpToDate(state.stage), restored))])
  }

  ghost function Apply(s: System, e: Event): System
    requires Enabled(s, e)
  {
    match e
    case Open(p) => s.(processes := s.processes[p := State(s.token, EMPTY, Opening)])
    case StartReading(p) => Moved(s, p, Checking)
    case StartWriting(p) => Moved(s, p, Entering)
    case Reload(p, outcome, memory, token) => Reloaded(s, p, outcome, memory, token)
    case Relock(p) => Moved(s, p, Waits(s.processes[p].stage).value)
    case Release(p) => Moved(s, p, Downgrading)
    case Change(p, memory) => s.(processes := s.processes[p := s.processes[p].(memory := memory, stage := Writing(true))])
    case Record(p, token) =>
      s.(token := token, issued := s.issued + {token},
         processes := s.processes[p := s.processes[p].(lastWrite := token, stage := Saving(Writing(false), None))])
    case Replace(p) =>
      var state := s.processes[p];
      var lastWrite := if state.stage.restored.Some? then state.stage.restored.value else state.lastWrite;
      s.(file := SavedForm(state.memory),
         processes := s.processes[p := State(lastWrite, state.memory, state.stage.next)])
    case Stop(p) => Moved(s, p, Idle)
    case Die(p) => s.(processes := s.processes - {p})
  }

  // ---- What every step keeps

  /** The process may hold images that are not what the file says. */
  predicate Unsettled(stage: Stage) {
    stage.Opening? || stage.Saving? || stage == Writing(true)
  }

  predicate Started(stage: Stage) {
    stage.Reading? || stage == Writing(false)
  }

  /** What is known of one process, given the token and the file. */
  ghost predicate Good(token: Token, issued: set<Token>, file: seq<Image>, state: State) {
    && state.lastWrite in issued && Sound(state.memory)
    && (state.lastWrite == token && !Unsettled(state.stage) ==> Coherent(file, state.memory))
    && (Started(state.stage) ==> Coherent(file, state.memory))
    && (state.stage.Saving? ==>
          && state.lastWrite == token && (state.stage.next.Mended? || state.stage.next == Writing(false))
          && (state.stage.restored.Some? ==> state.stage.restored.value in issued && state.stage.restored.value != token))
  }

  /** What is known of two processes: an exclusive lock is exclusive, and a token being saved is known to its owner only. */
  ghost predicate Compatible(token: Token, a: State, b: State) {
    && (Held(a.stage) == Exclusive ==> Held(b.stage) == Unlocked)
    && (a.stage.Saving? ==> b.lastWrite != token)
  }

  ghost predicate Inv(s: System) {
    && s.token in s.issued
    && (forall p :: p in s.processes ==> Good(s.token, s.issued, s.file, s.processes[p]))
    && (forall p, q :: p in s.processes && q in s.processes && p != q ==> Compatible(s.token, s.processes[p], s.processes[q]))
  }

  lemma LoadedIsSound(file: seq<Image>, m: Memory)
    requires Loaded(file, m)
    ensures Sound(m)
  {
    LoadsSettle(file, m.ids, m.byid);
  }

  lemma SavedIsCoherent(m: Memory)
    requires Sound(m)
    ensures (forall i :: 0 <= i < |m.ids| ==> m.ids[i] in m.byid) && Coherent(SavedForm(m), m)
  {
    SavedReloads(SavedForm(m), m.ids, m.byid, m.byname);
  }

  lemma EmptyIsSound()
    ensures Sound(EMPTY)
  {
  }

  /** One process takes a step that changes neither the token nor the file. */
  lemma MoveKeeps(s: System, p: Process, state: State)
    requires Inv(s) && Good(s.token, s.issued, s.file, state) && !state.stage.Saving?
    requires Grants(s, p, Held(state.stage))
    requires forall q :: q in s.processes && q != p && s.processes[q].stage.Saving? ==> state.lastWrite != s.token
    ensures Inv(s.(processes := s.processes[p := state]))
  {
    var s' := s.(processes := s.processes[p := state]);
    forall a, b | a in s'.processes && b in s'.processes && a != b
      ensures Compatible(s'.token, s'.processes[a], s'.processes[b])
    {
      if a != p && b != p {
        assert Compatible(s.token, s.processes[a], s.processes[b]);
      }
    }
  }

  /** A process that holds a lock keeps the others from what its lock excludes. */
  lemma HoldsOn(s: System, p: Process, lock: Lock)
    requires Inv(s) && p in s.processes
    requires lock == Unlocked || lock == Held(s.processes[p].stage)
    ensures Grants(s, p, lock)
  {
    forall q | q in s.processes && q != p
      ensures lock == Shared ==> Held(s.processes[q].stage) != Exclusive
      ensures lock == Exclusive ==> Held(s.processes[q].stage) == Unlocked
    {
      assert Compatible(s.token, s.processes[p], s.processes[q]);
      assert Compatible(s.token, s.processes[q], s.processes[p]);
    }
  }

  /** The process goes on with what it has. */
  lemma GoOnKeeps(s: System, p: Process, stage: Stage)
    requires Inv(s) && p in s.processes && !stage.Saving? && Grants(s, p, Held(stage))
    requires Unsettled(s.processes[p].stage) ==> Unsettled(stage)
    requires Started(stage) ==> Coherent(s.file, s.processes[p].memory)
    ensures Inv(Moved(s, p, stage))
  {
    assert Good(s.token, s.issued, s.file, s.processes[p]);
    forall q | q in s.processes && q != p && s.processes[q].stage.Saving?
      ensures s.processes[p].lastWrite != s.token
    {
      assert Compatible(s.token, s.processes[q], s.processes[p]);
    }
    MoveKeeps(s, p, s.processes[p].(stage := stage));
  }

  /** Recording a new token makes every other process look outdated. */
  lemma RecordKeeps(s: System, p: Process, memory: Memory, stage: Stage, token: Token)
    requires Inv(s) && p in s.processes && Held(s.processes[p].stage) == Exclusive && Sound(memory) && token !in s.issued
    requires stage.Saving? && (stage.next.Mended? || stage.next == Writing(false))
    requires stage.restored.Some? ==> stage.restored.value in s.issued
    ensures Inv(s.(token := token, issued := s.issued + {token}, processes := s.processes[p := State(token, memory, stage)]))
  {
    var s' := s.(token := token, issued := s.issued + {token}, processes := s.processes[p := State(token, memory, stage)]);
    forall a | a in s'.processes
      ensures Good(s'.token, s'.issued, s'.file, s'.processes[a])
    {
      if a != p {
        assert Good(s.token, s.issued, s.file, s.processes[a]);
        assert Compatible(s.token, s.processes[p], s.processes[a]);
      }
    }
    forall a, b | a in s'.processes && b in s'.processes && a != b
      ensures Compatible(s'.token, s'.processes[a], s'.processes[b])
    {
      assert b != p ==> Good(s.token, s.issued, s.file, s.processes[b]);
      assert Compatible(s.token, s.processes[a], s.processes[b]);
    }
  }

  /** Replacing the file leaves the other processes outdated and this one up to date. */
  lemma ReplaceKeeps(s: System, p: Process)
    requires Inv(s) && Enabled(s, Replace(p))
    ensures Inv(Apply(s, Replace(p)))
  {
    var s' := Apply(s, Replace(p));
    assert Good(s.token, s.issued, s.file, s.processes[p]);
    SavedIsCoherent(s.processes[p].memory);
    forall a | a in s'.processes
      ensures Good(s'.token, s'.issued, s'.file, s'.processes[a])
    {
      if a != p {
        assert Good(s.token, s.issued, s.file, s.processes[a]);
        assert Compatible(s.token, s.processes[p], s.processes[a]);
      }
    }
    forall a, b | a in s'.processes && b in s'.processes && a != b
      ensures Compatible(s'.token, s'.processes[a], s'.processes[b])
    {
      assert Compatible(s.token, s.processes[a], s.processes[b]);
    }
  }

  /** The process loads the file into its memory. */
  lemma LoadKeeps(s: System, p: Process, memory: Memory)
    requires Inv(s) && p in s.processes && Loading(s.processes[p].stage) && Loaded(s.file, memory) && !Clash(s.file)
    ensures Inv(s.(processes := s.processes[p := State(s.token, memory, UpToDate(s.processes[p].stage))]))
  {
    LoadedIsSound(s.file, memory);
    HoldsOn(s, p, Held(s.processes[p].stage));
    forall q | q in s.processes && q != p
      ensures !s.processes[q].stage.Saving?
    {
      assert Compatible(s.token, s.processes[q], s.processes[p]);
    }
    MoveKeeps(s, p, State(s.token, memory, UpToDate(s.processes[p].stage)));
  }

  /** The process gives up its lock or keeps it. */
  lemma StayKeeps(s: System, p: Process, stage: Stage)
    requires Inv(s) && p in s.processes && !stage.Saving?
    requires Held(stage) == Unlocked || Held(stage) == Held(s.processes[p].stage)
    requires Unsettled(s.processes[p].stage) ==> Unsettled(stage)
    requires Started(stage) ==> Coherent(s.file, s.processes[p].memory)
    ensures Inv(Moved(s, p, stage))
  {
    HoldsOn(s, p, Held(stage));
    GoOnKeeps(s, p, stage);
  }

  /** The process saves what it has repaired. */
  lemma MendKeeps(s: System, p: Process, memory: Memory, token: Token)
    requires Inv(s) && p in s.processes && Loading(s.processes[p].stage) && Held(s.processes[p].stage) == Exclusive
    requires Loaded(s.file, memory) && token !in s.issued
    ensures var stage := s.processes[p].stage;
      var restored := if stage.Opening? then None else Some(s.token);
      Inv(s.(token := token, issued := s.issued + {token},
             processes := s.processes[p := State(token, memory, Saving(UpToDate(stage), restored))]))
  {
    var stage := s.processes[p].stage;
    LoadedIsSound(s.file, memory);
    RecordKeeps(s, p, memory, Saving(UpToDate(stage), if stage.Opening? then None else Some(s.token)), token);
  }

  lemma ReloadKeeps(s: System, p: Process, outcome: Outcome, memory: Memory, token: Token)
    requires Inv(s) && Enabled(s, Reload(p, outcome, memory, token))
    ensures Inv(Reloaded(s, p, outcome, memory, token))
  {
    var state := s.processes[p];
    assert Good(s.token, s.issued, s.file, state);
    if outcome.Failed? {
      if !state.stage.Opening? {
        StayKeeps(s, p, Idle);
      }
    } else if !MustLoad(s, p) {
      StayKeeps(s, p, UpToDate(state.stage));
    } else if !Clash(s.file) {
      LoadKeeps(s, p, memory);
    } else if Held(state.stage) == Shared {
      StayKeeps(s, p, if state.stage.Checking? then Upgrading else Idle);
    } else {
      MendKeeps(s, p, memory, token);
    }
  }

  lemma OpenKeeps(s: System, p: Process)
    requires Inv(s) && Enabled(s, Open(p))
    ensures Inv(Apply(s, Open(p)))
  {
    EmptyIsSound();
    MoveKeeps(s, p, State(s.token, EMPTY, Opening));
  }

  lemma ChangeKeeps(s: System, p: Process, memory: Memory)
    requires Inv(s) && Enabled(s, Change(p, memory))
    ensures Inv(Apply(s, Change(p, memory)))
  {
    assert Good(s.token, s.issued, s.file, s.processes[p]);
    HoldsOn(s, p, Exclusive);
    MoveKeeps(s, p, s.processes[p].(memory := memory, stage := Writing(true)));
  }

  lemma StepKeepsInv(s: System, e: Event)
    requires Inv(s) && Enabled(s, e)
    ensures Inv(Apply(s, e))
  {
    if e.Open? {
      OpenKeeps(s, e.p);
    } else if e.Die? {
    } else {
      var state := s.processes[e.p];
      assert Good(s.token, s.issued, s.file, state);
      HoldsOn(s, e.p, Unlocked);
      match e
      case StartReading(p) => GoOnKeeps(s, p, Checking);
      case StartWriting(p) => GoOnKeeps(s, p, Entering);
      case Reload(p, outcome, memory, token) => ReloadKeeps(s, p, outcome, memory, token);
      case Relock(p) => GoOnKeeps(s, p, Waits(state.stage).value);
      case Release(p) => GoOnKeeps(s, p, Downgrading);
      case Change(p, memory) => ChangeKeeps(s, p, memory);
      case Record(p, token) => RecordKeeps(s, p, state.memory, Saving(Writing(false), None), token);
      case Replace(p) => ReplaceKeeps(s, p);
      case Stop(p) => GoOnKeeps(s, p, Idle);
    }
  }

  // ---- Runs

  ghost predicate Legal(s: System, es: seq<Event>)
    decreases |es|
  {
    es == [] || (Enabled(s, es[0]) && Legal(Apply(s, es[0]), es[1..]))
  }

  ghost function Run(s: System, es: seq<Event>): System
    requires Legal(s, es)
    decreases |es|
  {
    if es == [] then s else Run(Apply(s, es[0]), es[1..])
  }

  /** Any file and any token to begin with, and no process. */
  function Begin(file: seq<Image>, token: Token): System {
    System(token, {token}, file, map[])
  }

  lemma {:induction false} RunKeepsInv(s: System, es: seq<Event>)
    requires Inv(s) && Legal(s, es)
    ensures Inv(Run(s, es))
    decreases |es|
  {
    if es != [] {
      StepKeepsInv(s, es[0]);
      RunKeepsInv(Apply(s, es[0]), es[1..]);
    }
  }

  /** In every run, whoever has started reading or writing holds what a fresh load of images.json builds. */
  lemma WhoeverStartedIsCoherent(file: seq<Image>, token: Token, es: seq<Event>, p: Process)
    requires Legal(Begin(file, token), es)
    requires var s := Run(Begin(file, token), es); p in s.processes && Started(s.processes[p].stage)
    ensures var s := Run(Begin(file, token), es); Coherent(s.file, s.processes[p].memory)
  {
    RunKeepsInv(Begin(file, token), es);
    var s := Run(Begin(file, token), es);
    assert Good(s.token, s.issued, s.file, s.processes[p]);
  }

  // ---- A failed write that the process survives

  /** `i` is the image on file, but for a digest that the file leaves to be chosen among those of the manifests. */
  ghost predicate Unaltered(onFile: Image, i: Image) {
    && SameData(i, onFile)
    && if onFile.digest != "" then i.digest == onFile.digest
       else i.digest == "" || exists k :: k in i.bigDigests && IsManifest(k) && i.bigDigests[k] == i.digest
  }

  lemma UnalteredIsRecomputed(onFile: Image, i: Image)
    requires Recomputed(i, i)
    ensures Recomputed(onFile, i) <==> Unaltered(onFile, i)
  {
    if Unaltered(onFile, i) {
      forall d
        ensures d in i.digests <==> Identifies(onFile.digest, onFile.bigDigests, d)
      {
        assert d in i.digests <==> Identifies(i.digest, i.bigDigests, d);
      }
    }
    if Recomputed(onFile, i) && onFile.digest == "" && i.digest != "" {
      assert i.digest in i.digests;
      assert Identifies(onFile.digest, onFile.bigDigests, i.digest);
    }
  }

  /** The images of memory are those of the file. */
  ghost predicate SameImages(file: seq<Image>, m: Memory) {
    |m.ids| == |file| && forall i :: 0 <= i < |file| ==> m.ids[i] in m.byid && Unaltered(file[i], m.byid[m.ids[i]])
  }

  lemma CoherentMeansSame(file: seq<Image>, m: Memory)
    requires Sound(m) && !Clash(file)
    ensures Coherent(file, m) <==> SameImages(file, m)
  {
    if |m.ids| == |file| {
      forall i | 0 <= i < |file|
        ensures m.ids[i] in m.byid && Recomputed(m.byid[m.ids[i]], m.byid[m.ids[i]])
        ensures Recomputed(file[i], m.byid[m.ids[i]]) <==> Unaltered(file[i], m.byid[m.ids[i]])
        ensures file[i].(names := Resolved(NamesIn(file))[i]) == file[i]
      {
        assert m.ids[i] in m.byid;
        UnalteredIsRecomputed(file[i], m.byid[m.ids[i]]);
        assert NamesIn(file)[i] == file[i].names;
      }
    }
  }

  /** Image `j` is image `i` of the file; only a digest that the file leaves open may have been chosen anew. */
  ghost predicate LeftAlone(onFile: Image, i: Image, j: Image) {
    && SameData(j, i)
    && (j.digest == i.digest
        || (onFile.digest == "" && exists k :: k in j.bigDigests && IsManifest(k) && j.bigDigests[k] == j.digest))
  }

  /** Position `i` holds the image of the file in both memories. */
  ghost predicate LeftAloneAt(file: seq<Image>, m: Memory, m': Memory, i: nat)
    requires i < |file| && i < |m.ids|
  {
    m.ids[i] in m.byid && m.ids[i] in m'.byid && LeftAlone(file[i], m.byid[m.ids[i]], m'.byid[m.ids[i]])
  }

  /** The change from `m`, which was loaded from `file`, to `m'` is none. */
  ghost predicate NoChange(file: seq<Image>, m: Memory, m': Memory)
    requires |m.ids| == |file|
  {
    m'.ids == m.ids && forall i: nat :: i < |m.ids| ==> LeftAloneAt(file, m, m', i)
  }

  lemma LeftAloneMeansUnaltered(onFile: Image, i: Image, j: Image)
    requires Recomputed(i, i) && Recomputed(j, j) && Unaltered(onFile, i)
    ensures LeftAlone(onFile, i, j) <==> Unaltered(onFile, j)
  {
    if Unaltered(onFile, j) && j.digest != i.digest && j.digest == "" {
      assert i.bigDigests == j.bigDigests;
      var k :| k in i.bigDigests && IsManifest(k) && i.bigDigests[k] == i.digest;
      assert Identifies(j.digest, j.bigDigests, i.digest);
      assert j.digest in j.digests;
      assert Identifies(j.digest, j.bigDigests, j.digest);
    }
  }

  /** What a change leaves behind agrees with the file exactly if it is no change. */
  lemma OnlyNoChangeIsCoherent(file: seq<Image>, m: Memory, m': Memory)
    requires Coherent(file, m) && Sound(m) && Sound(m')
    ensures |m.ids| == |file| && (Coherent(file, m') <==> NoChange(file, m, m'))
  {
    CoherentMeansSame(file, m);
    CoherentMeansSame(file, m');
    if SameImages(file, m') {
      SameIsNoChange(file, m, m');
    }
    if NoChange(file, m, m') {
      NoChangeIsSame(file, m, m');
    }
  }

  lemma SameIsNoChange(file: seq<Image>, m: Memory, m': Memory)
    requires Settled(m.byid) && Settled(m'.byid) && ListsAll(m.ids, m.byid) && ListsAll(m'.ids, m'.byid)
    requires SameImages(file, m) && SameImages(file, m')
    ensures NoChange(file, m, m')
  {
    forall i: nat | i < |m.ids|
      ensures m'.ids[i] == m.ids[i] && LeftAloneAt(file, m, m', i)
    {
      assert m.byid[m.ids[i]].id == file[i].id == m'.byid[m'.ids[i]].id;
      LeftAloneMeansUnaltered(file[i], m.byid[m.ids[i]], m'.byid[m'.ids[i]]);
    }
  }

  lemma NoChangeIsSame(file: seq<Image>, m: Memory, m': Memory)
    requires Settled(m.byid) && Settled(m'.byid) && SameImages(file, m) && NoChange(file, m, m')
    ensures SameImages(file, m')
  {
    forall i: nat | i < |file|
      ensures m'.ids[i] in m'.byid && Unaltered(file[i], m'.byid[m'.ids[i]])
    {
      assert LeftAloneAt(file, m, m', i);
      LeftAloneMeansUnaltered(file[i], m.byid[m.ids[i]], m'.byid[m'.ids[i]]);
    }
  }

  /** From `s`, process `p` changes its memory, gives the change up, perhaps after recording the token, and starts reading. */
  ghost predicate GivesUpThenReads(s: System, p: Process, memory: Memory, recorded: bool, token: Token, reading: System) {
    && Enabled(s, Change(p, memory))
    && var changed := Apply(s, Change(p, memory));
    && Enabled(changed, Record(p, token))
    && var given := Moved(if recorded then Apply(changed, Record(p, token)) else changed, p, Idle);
    && Enabled(given, StartReading(p))
    && var checking := Apply(given, StartReading(p));
    && Enabled(checking, Reload(p, Fine, EMPTY, token))
    && reading == Apply(checking, Reload(p, Fine, EMPTY, token))
  }

  lemma IdleReads(s: System, p: Process, token: Token)
    requires p in s.processes && s.processes[p].stage == Idle && s.processes[p].lastWrite == s.token && Grants(s, p, Shared)
    ensures Enabled(s, StartReading(p))
    ensures var checking := Apply(s, StartReading(p));
      && Enabled(checking, Reload(p, Fine, EMPTY, token))
      && Apply(checking, Reload(p, Fine, EMPTY, token)) == Moved(s, p, Reading)
  {
  }

  lemma GivenUpIsNotReloaded(s: System, p: Process, memory: Memory, recorded: bool, token: Token) returns (reading: System)
    requires Inv(s) && p in s.processes && s.processes[p].stage == Writing(false) && s.processes[p].lastWrite == s.token
    requires Enabled(s, Change(p, memory)) && token !in s.issued
    ensures GivesUpThenReads(s, p, memory, recorded, token, reading)
    ensures reading.file == s.file && p in reading.processes && reading.processes[p].stage.Reading?
    ensures reading.processes[p].memory == memory
  {
    var changed := Apply(s, Change(p, memory));
    var given := Moved(if recorded then Apply(changed, Record(p, token)) else changed, p, Idle);
    HoldsOn(s, p, Exclusive);
    assert Grants(given, p, Shared);
    IdleReads(given, p, token);
    reading := Moved(given, p, Reading);
  }

  /**
   * A process that gives up a change without saving it, or after recording the token, keeps a token that looks current.
   * Its next startReading does not reload and serves the abandoned change, which is right exactly if the change, judged
   * against the images that were loaded before, is none.
   */
  lemma AbandonedChangeIsServed(s: System, p: Process, memory: Memory, recorded: bool, token: Token) returns (reading: System)
    requires Inv(s) && p in s.processes && s.processes[p].stage == Writing(false) && s.processes[p].lastWrite == s.token
    requires Enabled(s, Change(p, memory)) && token !in s.issued
    ensures GivesUpThenReads(s, p, memory, recorded, token, reading) && p in reading.processes && reading.processes[p].stage.Reading?
    ensures |s.processes[p].memory.ids| == |s.file|
    ensures Coherent(reading.file, reading.processes[p].memory) <==> NoChange(s.file, s.processes[p].memory, memory)
  {
    reading := GivenUpIsNotReloaded(s, p, memory, recorded, token);
    assert Good(s.token, s.issued, s.file, s.processes[p]);
    OnlyNoChangeIsCoherent(s.file, s.processes[p].memory, memory);
  }

  /** Opening an empty store, changing it to `memory` and recording the token, but not writing the file. */
  function Unsaved(memory: Memory): seq<Event> {
    [Open(0), Reload(0, Fine, EMPTY, 1), Change(0, memory), Record(0, 1)]
  }

  lemma UnsavedRuns(memory: Memory)
    requires Sound(memory)
    ensures Legal(Begin([], 0), Unsaved(memory))
    ensures Run(Begin([], 0), Unsaved(memory)) == System(1, {0, 1}, [], map[0 := State(1, memory, Saving(Writing(false), None))])
  {
    EmptyLoads();
    var s1 := System(0, {0}, [], map[0 := State(0, EMPTY, Opening)]);
    var s2 := System(0, {0}, [], map[0 := State(0, EMPTY, Writing(false))]);
    var s3 := System(0, {0}, [], map[0 := State(0, memory, Writing(true))]);
    var s4 := System(1, {0, 1}, [], map[0 := State(1, memory, Saving(Writing(false), None))]);
    Goes(s3, Record(0, 1), s4, []);
    Goes(s2, Change(0, memory), s3, [Record(0, 1)]);
    Goes(s1, Reload(0, Fine, EMPTY, 1), s2, [Change(0, memory), Record(0, 1)]);
    Goes(Begin([], 0), Open(0), s1, [Reload(0, Fine, EMPTY, 1), Change(0, memory), Record(0, 1)]);
    assert Unsaved(memory) == [Open(0)] + [Reload(0, Fine, EMPTY, 1), Change(0, memory), Record(0, 1)];
    assert [Reload(0, Fine, EMPTY, 1), Change(0, memory), Record(0, 1)] == [Reload(0, Fine, EMPTY, 1)] + [Change(0, memory), Record(0, 1)];
    assert [Change(0, memory), Record(0, 1)] == [Change(0, memory)] + [Record(0, 1)];
    assert [Record(0, 1)] == [Record(0, 1)] + [];
  }

  lemma GivenUpReads(memory: Memory)
    ensures var idle := System(1, {0, 1}, [], map[0 := State(1, memory, Idle)]);
      && Legal(idle, [StartReading(0), Reload(0, Fine, EMPTY, 2)])
      && Run(idle, [StartReading(0), Reload(0, Fine, EMPTY, 2)]) == System(1, {0, 1}, [], map[0 := State(1, memory, Reading)])
  {
    var s5 := System(1, {0, 1}, [], map[0 := State(1, memory, Idle)]);
    var s6 := System(1, {0, 1}, [], map[0 := State(1, memory, Checking)]);
    var s7 := System(1, {0, 1}, [], map[0 := State(1, memory, Reading)]);
    Goes(s6, Reload(0, Fine, EMPTY, 2), s7, []);
    Goes(s5, StartReading(0), s6, [Reload(0, Fine, EMPTY, 2)]);
    assert [Reload(0, Fine, EMPTY, 2)] == [Reload(0, Fine, EMPTY, 2)] + [];
    assert [StartReading(0), Reload(0, Fine, EMPTY, 2)] == [StartReading(0)] + [Reload(0, Fine, EMPTY, 2)];
  }

  /** In particular: an image that was added, and whose record was never written, is served. */
  lemma UnsavedImageIsServed(image: Image)
    requires Recomputed(image, image) && image.names == [] && image.digests == []
    ensures var memory := Memory([image.id], map[image.id := image], map[], map[]);
      && Legal(Begin([], 0), Unsaved(memory)) && 0 in Run(Begin([], 0), Unsaved(memory)).processes
      && var idle := Moved(Run(Begin([], 0), Unsaved(memory)), 0, Idle);
      && Legal(idle, [StartReading(0), Reload(0, Fine, EMPTY, 2)])
      && var reading := Run(idle, [StartReading(0), Reload(0, Fine, EMPTY, 2)]);
      && 0 in reading.processes && reading.processes[0].stage.Reading?
      && !Coherent(reading.file, reading.processes[0].memory)
  {
    var memory := Memory([image.id], map[image.id := image], map[], map[]);
    assert forall n, id :: !Named(memory.byid, id, n);
    assert Sound(memory);
    UnsavedRuns(memory);
    GivenUpReads(memory);
    assert Moved(Run(Begin([], 0), Unsaved(memory)), 0, Idle) == System(1, {0, 1}, [], map[0 := State(1, memory, Idle)]);
  }

  lemma EmptyLoads()
    ensures !Clash([]) && Loaded([], EMPTY)
  {
    assert Resolved(NamesIn([])) == NamesIn([]);
    EmptyIsSound();
  }

  /** One step in front of a run. */
  lemma Goes(s: System, e: Event, t: System, es: seq<Event>)
    requires Enabled(s, e) && Apply(s, e) == t && Legal(t, es)
    ensures Legal(s, [e] + es) && Run(s, [e] + es) == Run(t, es)
  {
    assert ([e] + es)[1..] == es;
  }
}
