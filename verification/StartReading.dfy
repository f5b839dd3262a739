/** How a reader of the layer store gets its locks, reloading and cleaning up on the way (storage/layers.go). */
module StartReading {

  const MAX_CLEANUPS := 3

  /** What the caller holds of a lock. */
  datatype Lock = Free | Shared | Exclusive

  /** What a reload under the shared lock, and one under the exclusive lock, can say. */
  datatype Reload = Fresh | NeedsWriteLock | Broken

  /** What the deferred cleanup would release. */
  datatype Unlock = Nothing | FileLock | BothLocks

  /** What the store will answer: whether it changed, and the results of the reloads, in turn. */
  datatype Answers = Answers(modified: bool, unreadable: bool, shared: nat -> Reload, cleaned: nat -> bool)

  /** After `n` cleanups that worked, each because the reload before asked for it, a reload works. */
  predicate SucceedsAfter(a: Answers, n: nat) {
    (forall i | 0 <= i < n :: a.shared(i) == NeedsWriteLock && a.cleaned(i)) && a.shared(n) == Fresh
  }

  ghost predicate Succeeds(canReload: bool, a: Answers) {
    !canReload || (!a.unreadable && (!a.modified || exists n: nat :: n <= MAX_CLEANUPS && SucceedsAfter(a, n)))
  }

  class LayerStoreLocks {
    var file: Lock
    var inProcess: Lock
    /** How often the store was reloaded under the exclusive lock. */
    var cleanups: nat

    method RLockFile()
      requires file == Free
      modifies this`file
      ensures file == Shared
    {
      file := Shared;
    }

    method LockFile()
      requires file == Free
      modifies this`file
      ensures file == Exclusive
    {
      file := Exclusive;
    }

    method UnlockFile()
      requires file != Free
      modifies this`file
      ensures file == Free
    {
      file := Free;
    }

    method RLockInProcess()
      requires inProcess == Free
      modifies this`inProcess
      ensures inProcess == Shared
    {
      inProcess := Shared;
    }

    method RUnlockInProcess()
      requires inProcess == Shared
      modifies this`inProcess
      ensures inProcess == Free
    {
      inProcess := Free;
    }

    /** Reloads with the in-process lock held for writing, and says what came of it. */
    method ReloadLocked(shared: Reload, cleaned: bool) returns (r: Reload)
      requires inProcess == Free && file != Free
      modifies this`inProcess, this`cleanups
      ensures inProcess == Free && cleanups == old(cleanups) + (if file == Exclusive then 1 else 0)
      ensures r == if file == Exclusive then (if cleaned then Fresh else Broken) else shared
    {
      inProcess := Exclusive;
      if file == Exclusive {
        cleanups := cleanups + 1;
        r := if cleaned then Fresh else Broken;
      } else {
        r := shared;
      }
      inProcess := Free;
    }

    ghost predicate Holds(u: Unlock)
      reads this
    {
      match u
      case Nothing => file == Free && inProcess == Free
      case FileLock => file != Free && inProcess == Free
      case BothLocks => file == Shared && inProcess == Shared
    }

    method Release(u: Unlock)
      requires Holds(u)
      modifies this`file, this`inProcess
      ensures file == Free && inProcess == Free
    {
      if u == BothLocks {
        RUnlockInProcess();
      }
      if u != Nothing {
        UnlockFile();
      }
    }

    /**
     * Succeeds with both locks held for reading, or fails holding neither; no lock is taken twice or given up without
     * being held, and the store is cleaned up at most three times. It succeeds if and only if nothing was to be
     * reloaded or one of the first four reloads worked, with clean-ups in between.
     */
    method StartReadingWithReload(canReload: bool, a: Answers) returns (ok: bool)
      requires file == Free && inProcess == Free && cleanups == 0
      modifies this
      ensures if ok then file == Shared && inProcess == Shared else file == Free && inProcess == Free
      ensures cleanups <= MAX_CLEANUPS
      ensures ok <==> Succeeds(canReload, a)
    {
      RLockFile();
      RLockInProcess();
      if !canReload {
        return true;
      }
      if a.unreadable {
        Release(BothLocks);
        return false;
      }
      if !a.modified {
        assert Succeeds(canReload, a);
        return true;
      }
      RUnlockInProcess();
      ok := ReloadUntilFresh(a);
      if ok {
        RLockInProcess();
      }
    }

    method ReloadUntilFresh(a: Answers) returns (ok: bool)
      requires file == Shared && inProcess == Free && cleanups == 0
      modifies this
      ensures if ok then file == Shared && inProcess == Free else file == Free && inProcess == Free
      ensures cleanups <= MAX_CLEANUPS
      ensures ok <==> exists n: nat :: n <= MAX_CLEANUPS && SucceedsAfter(a, n)
    {
      var unlock := FileLock;
      ok := false;
      while true
        invariant file == Shared && inProcess == Free && unlock == FileLock && cleanups <= MAX_CLEANUPS
        invariant forall i | 0 <= i < cleanups :: a.shared(i) == NeedsWriteLock && a.cleaned(i)
        decreases MAX_CLEANUPS - cleanups
      {
        var r := ReloadLocked(a.shared(cleanups), false);
        if r == Fresh {
          assert SucceedsAfter(a, cleanups);
          return true;
        }
        if r == Broken || cleanups >= MAX_CLEANUPS {
          NoOther(a, cleanups);
          break;
        }
        Release(unlock);
        unlock := Nothing;
        LockFile();
        unlock := FileLock;
        ghost var done := cleanups;
        var cleaned := ReloadLocked(Fresh, a.cleaned(cleanups));
        if cleaned != Fresh {
          NoOther(a, done);
          break;
        }
        Release(unlock);
        unlock := Nothing;
        RLockFile();
        unlock := FileLock;
      }
      Release(unlock);
    }
  }

  /** If a round neither works nor is cleaned up, or is the last one, no other number of rounds would have worked. */
  lemma NoOther(a: Answers, k: nat)
    requires k <= MAX_CLEANUPS && (forall i | 0 <= i < k :: a.shared(i) == NeedsWriteLock && a.cleaned(i))
    requires a.shared(k) == Broken || (a.shared(k) == NeedsWriteLock && (!a.cleaned(k) || k == MAX_CLEANUPS))
    ensures forall n: nat :: n <= MAX_CLEANUPS ==> !SucceedsAfter(a, n)
  {
    forall n: nat | n <= MAX_CLEANUPS
      ensures !SucceedsAfter(a, n)
    {
      if n < k {
        assert a.shared(n) == NeedsWriteLock;
      } else if n > k {
        assert SucceedsAfter(a, n) ==> a.shared(k) == NeedsWriteLock && a.cleaned(k);
      }
    }
  }
}
