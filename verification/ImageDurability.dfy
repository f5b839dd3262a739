/** What was saved is what is read: over every run, images.json holds the images of the last completed save (storage/images.go). */
module ImageDurability {
  import opened Common
  import opened Images
  import opened ImageIndexes
  import opened ImageCoherence

  /** The file holds the images of `m`, in order, each without its list of digests. */
  ghost predicate FileHolds(file: seq<Image>, m: Memory) {
    |file| == |m.ids| && forall i :: 0 <= i < |m.ids| ==> m.ids[i] in m.byid && file[i] == m.byid[m.ids[i]].(digests := [])
  }

  /** The two images are the same, but for the order in which their digests are listed; "" is no valid digest. */
  ghost predicate SameImage(a: Image, b: Image) {
    && b == a.(digest := b.digest, digests := b.digests)
    && (forall d :: d in a.digests <==> d in b.digests) && ("" !in a.digests ==> b.digest == a.digest)
  }

  /** The two processes have the same images, in the same order. */
  ghost predicate SameAsSaved(m: Memory, m': Memory) {
    m'.ids == m.ids && forall id :: id in m.ids ==> id in m.byid && id in m'.byid && SameImage(m.byid[id], m'.byid[id])
  }

  lemma ReadBack(i: Image, r: Image)
    requires Recomputed(i, i) && Recomputed(i.(digests := []), r)
    ensures SameImage(i, r)
  {
    forall d
      ensures d in i.digests <==> d in r.digests
    {
      assert d in i.digests <==> Identifies(i.digest, i.bigDigests, d);
    }
    assert r.digests != [] ==> r.digests[0] in r.digests;
    if "" !in i.digests && i.digest == "" {
      assert i.digests == [];
    }
  }

  /** Whoever loads a file that needs no repair has the images that were saved in it. */
  lemma LoadedIsSaved(file: seq<Image>, m: Memory, m': Memory)
    requires FileHolds(file, m) && Sound(m) && Coherent(file, m')
    ensures SameAsSaved(m, m')
  {
    forall i | 0 <= i < |m.ids|
      ensures m'.ids[i] == m.ids[i] && m.ids[i] in m'.byid && SameImage(m.byid[m.ids[i]], m'.byid[m.ids[i]])
    {
      assert NamesIn(file)[i] == file[i].names;
      assert m.byid[m.ids[i]].id == m.ids[i];
      ReadBack(m.byid[m.ids[i]], m'.byid[m.ids[i]]);
    }
  }

  // ---- Steps

  /** A save writes the images of the process that saves, which keeps them. */
  lemma ReplaceWrites(s: System, p: Process)
    requires Enabled(s, Replace(p))
    ensures var s' := Apply(s, Replace(p));
      && FileHolds(s'.file, s.processes[p].memory)
      && p in s'.processes && s'.processes[p].memory == s.processes[p].memory && s'.processes[p].stage == s.processes[p].stage.next
  {
  }

  /** Nothing but a save changes the file. */
  lemma OnlySavesWrite(s: System, e: Event)
    requires Enabled(s, e) && !e.Replace?
    ensures Apply(s, e).file == s.file
  {
  }

  /** What a process has and where it is, is its own business. */
  lemma OthersLeave(s: System, e: Event, p: Process)
    requires Enabled(s, e) && e.p != p && p in s.processes
    ensures p in Apply(s, e).processes && Apply(s, e).processes[p] == s.processes[p]
  {
  }

  // ---- Runs

  ghost predicate ByOthers(es: seq<Event>, p: Process) {
    forall e :: e in es ==> e.p != p
  }

  ghost predicate WithoutSaves(es: seq<Event>) {
    forall e :: e in es ==> !e.Replace?
  }

  lemma {:induction false} RunInTwo(s: System, a: seq<Event>, b: seq<Event>)
    requires Legal(s, a + b)
    ensures Legal(s, a) && Legal(Run(s, a), b) && Run(s, a + b) == Run(Run(s, a), b)
    decreases |a|
  {
    if a == [] {
      assert a + b == b;
    } else {
      assert (a + b)[1..] == a[1..] + b;
      RunInTwo(Apply(s, a[0]), a[1..], b);
    }
  }

  lemma {:induction false} RunLeavesFile(s: System, es: seq<Event>)
    requires Legal(s, es) && WithoutSaves(es)
    ensures Run(s, es).file == s.file
    decreases |es|
  {
    if es != [] {
      assert es[0] in es && forall e :: e in es[1..] ==> e in es;
      OnlySavesWrite(s, es[0]);
      RunLeavesFile(Apply(s, es[0]), es[1..]);
    }
  }

  lemma {:induction false} OthersRunLeaves(s: System, es: seq<Event>, p: Process)
    requires Legal(s, es) && ByOthers(es, p) && p in s.processes
    ensures p in Run(s, es).processes && Run(s, es).processes[p] == s.processes[p]
    decreases |es|
  {
    if es != [] {
      assert es[0] in es && forall e :: e in es[1..] ==> e in es;
      OthersLeave(s, es[0], p);
      OthersRunLeaves(Apply(s, es[0]), es[1..], p);
    }
  }

  /** Process `p` does `e`, after events of others. */
  lemma OwnStep(s: System, others: seq<Event>, e: Event, rest: seq<Event>)
    requires Legal(s, others + [e] + rest) && ByOthers(others, e.p) && e.p in s.processes
    ensures Legal(s, others) && Enabled(Run(s, others), e) && Legal(Apply(Run(s, others), e), rest)
    ensures Run(s, others + [e] + rest) == Run(Apply(Run(s, others), e), rest)
    ensures e.p in Run(s, others).processes && Run(s, others).processes[e.p] == s.processes[e.p]
  {
    Regroup(others, [e], rest);
    RunInTwo(s, others, [e] + rest);
    assert ([e] + rest)[1..] == rest;
    OthersRunLeaves(s, others, e.p);
  }

  /** In every run the file holds what the last process to save held, and whoever has started since then has the same images. */
  lemma LastSaveIsRead(s: System, before: seq<Event>, p: Process, after: seq<Event>)
    requires Inv(s) && Legal(s, before + [Replace(p)] + after) && WithoutSaves(after)
    ensures Legal(s, before) && p in Run(s, before).processes
    ensures var saved, s' := Run(s, before).processes[p].memory, Run(s, before + [Replace(p)] + after);
      FileHolds(s'.file, saved) && forall q :: q in s'.processes && Started(s'.processes[q].stage) ==> SameAsSaved(saved, s'.processes[q].memory)
  {
    Regroup(before, [Replace(p)], after);
    RunInTwo(s, before, [Replace(p)] + after);
    assert ([Replace(p)] + after)[1..] == after;
    var s1 := Run(s, before);
    ReplaceWrites(s1, p);
    RunLeavesFile(Apply(s1, Replace(p)), after);
    RunKeepsInv(s, before);
    RunKeepsInv(s, before + [Replace(p)] + after);
    assert Good(s1.token, s1.issued, s1.file, s1.processes[p]);
    var s' := Run(s, before + [Replace(p)] + after);
    forall q | q in s'.processes && Started(s'.processes[q].stage)
      ensures SameAsSaved(s1.processes[p].memory, s'.processes[q].memory)
    {
      assert Good(s'.token, s'.issued, s'.file, s'.processes[q]);
      LoadedIsSaved(s'.file, s1.processes[p].memory, s'.processes[q].memory);
    }
  }

  lemma JustSaved(s: System, before: seq<Event>, p: Process)
    requires Legal(s, before + [Replace(p)])
    ensures Legal(s, before) && Enabled(Run(s, before), Replace(p))
    ensures Run(s, before + [Replace(p)]) == Apply(Run(s, before), Replace(p))
  {
    RunInTwo(s, before, [Replace(p)]);
    assert [Replace(p)][1..] == [];
  }

  /** Process `p` changes its images to `m` and saves them, while others do what they like. */
  function Saves(p: Process, m: Memory, t: Token, e1: seq<Event>, e2: seq<Event>): seq<Event> {
    [Change(p, m)] + e1 + [Record(p, t)] + e2
  }

  lemma SavesHoldsOn(s: System, p: Process, m: Memory, t: Token, e1: seq<Event>, e2: seq<Event>)
    requires Legal(s, Saves(p, m, t, e1, e2)) && ByOthers(e1, p) && ByOthers(e2, p)
    ensures var s' := Run(s, Saves(p, m, t, e1, e2));
      p in s'.processes && s'.processes[p] == State(t, m, Saving(Writing(false), None))
  {
    Regroup([Change(p, m)] + e1, [Record(p, t)], e2);
    Regroup([Change(p, m)], e1, [Record(p, t)] + e2);
    assert ([Change(p, m)] + (e1 + ([Record(p, t)] + e2)))[1..] == e1 + ([Record(p, t)] + e2);
    Regroup(e1, [Record(p, t)], e2);
    var s1 := Apply(s, Change(p, m));
    OwnStep(s1, e1, Record(p, t), e2);
    OthersRunLeaves(Apply(Run(s1, e1), Record(p, t)), e2, p);
  }

  /** A change that is saved is what everybody reads who starts afterwards, until the next save. */
  lemma SavedChangeIsRead(s: System, p: Process, m: Memory, t: Token, e1: seq<Event>, e2: seq<Event>, after: seq<Event>)
    requires Inv(s) && Legal(s, Saves(p, m, t, e1, e2) + [Replace(p)] + after)
    requires ByOthers(e1, p) && ByOthers(e2, p) && WithoutSaves(after)
    ensures var s' := Run(s, Saves(p, m, t, e1, e2) + [Replace(p)] + after);
      && FileHolds(s'.file, m)
      && (forall q :: q in s'.processes && Started(s'.processes[q].stage) ==> SameAsSaved(m, s'.processes[q].memory))
      && (after == [] ==> p in s'.processes && s'.processes[p] == State(t, m, Writing(false)))
  {
    var before := Saves(p, m, t, e1, e2);
    LastSaveIsRead(s, before, p, after);
    SavesHoldsOn(s, p, m, t, e1, e2);
    if after == [] {
      assert before + [Replace(p)] + after == before + [Replace(p)];
      JustSaved(s, before, p);
    }
  }
}
