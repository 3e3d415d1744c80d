/** pkg/runtime/lock.go as its callers run it: Acquire and Release as sequences of system calls that branch on what
    these return, with the steps of all other processes between any two of them. Each system call is one step of the
    model in FileLock, so everything that happens is one of its runs. */
module FileLockCalls {
  import opened Common
  import opened Decimal
  import opened FileLock

  /** What Acquire returns: true, false, or an error. */
  datatype Answer = Acquired | Refused | Failed

  datatype LinkResult = Linked | Exists | LinkError

  /** Owner() on what reading the lock's path returned. */
  function ScannedPid(content: Option<string>): (pid: int) {
    if content.None? then -1
    else if content.value == "" then -1
    else OwnerOf(content.value)
  }

  class Machine {
    var state: State
    ghost const start: State
    ghost var run: seq<Action>

    ghost predicate Valid()
      reads this
    {
      Init(start) && PossibleRun(start, run) && Run(start, run) == state
    }

    /** Process p is alive and stands at the given place. */
    predicate Stands(p: Pid, phase: Phase)
      reads this
    {
      p in state.procs && state.procs[p].alive && state.procs[p].phase == phase
    }

    /** Process p is alive and has the given pid to check. */
    predicate Judging(p: Pid, owner: int)
      reads this
    {
      p in state.procs && state.procs[p].alive && state.procs[p].phase.CheckingOwner?
          && state.procs[p].phase.owner == owner
    }

    /** Process p is alive and has found the owner dead. */
    predicate MayRemove(p: Pid)
      reads this
    {
      p in state.procs && state.procs[p].alive && state.procs[p].phase.Removing?
    }

    function Flags(p: Pid): (bool, bool)
      requires p in state.procs
      reads this
    {
      (state.procs[p].acquired, state.procs[p].released)
    }

    /** Exactly this step was taken. */
    twostate predicate Stepped(a: Action)
      reads this
    {
      Enabled(old(state), a) && state == Next(old(state), a) && run == old(run) + [a]
    }

    /** The run has gone on by one step; with Valid, this says what the state is. */
    twostate predicate Took(a: Action)
      reads this
    {
      run == old(run) + [a]
    }

    /** The run so far has gone on. */
    twostate predicate RunOn()
      reads this
    {
      old(run) <= run
    }

    /** From the given step on p has not removed the lock. */
    ghost predicate NoRelease(first: nat, p: Pid)
      reads this
    {
      forall i :: first <= i < |run| ==> run[i] != Release(p)
    }

    lemma Consistent()
      requires Valid()
      ensures Inv(state)
    {
      InitInv(start);
      RunInv(start, run);
    }

    lemma Known(p: Pid)
      requires Valid() && p in state.procs
      ensures ProcessInv(state, p) && WholePids(state, p)
    {
      Consistent();
      InvShowsWholePids(state, p);
    }

    lemma NotYetReleased(p: Pid)
      requires Valid() && p in state.procs && state.procs[p].phase != Stopped
      ensures !state.procs[p].released
    {
      Known(p);
    }

    /** If nobody linked into the free path while a victim lived, a holder is the only one. */
    lemma SoleHolder(p: Pid)
      requires Valid() && NoLinkOverVictim(start, run, {}) && Holds(state, p)
      ensures forall q :: Holds(state, q) <==> q == p
    {
      ExclusiveIff(start, run);
      ExclusiveAtEnd(start, run);
    }

    constructor (start: State)
      requires Init(start)
      ensures Valid() && state == start == this.start
    {
      this.start := start;
      state := start;
      run := [];
    }

    method Take(a: Action)
      requires Valid() && Enabled(state, a)
      modifies this
      ensures Valid() && Stepped(a)
    {
      RunAppend(start, run, a);
      state := Next(state, a);
      run := run + [a];
    }

    /** Any steps of any other processes, their deaths included. */
    method Others(p: Pid)
      requires Valid() && p in state.procs
      modifies this
      ensures Valid() && p in state.procs && state.procs[p] == old(state.procs[p])
      ensures NamedFile(state, Temp(p)) == NamedFile(old(state), Temp(p))
      ensures old(run) <= run && forall i :: |old(run)| <= i < |run| ==> run[i].p != p
    {
      var n: nat := *;
      while n > 0
        invariant Valid() && p in state.procs && state.procs[p] == old(state.procs[p])
        invariant NamedFile(state, Temp(p)) == NamedFile(old(state), Temp(p))
        invariant old(run) <= run && forall i :: |old(run)| <= i < |run| ==> run[i].p != p
      {
        var a: Action := *;
        if Enabled(state, a) && a.p != p {
          TempStays(state, a, p);
          Take(a);
        }
        n := n - 1;
      }
    }

    // ---- System calls

    /** os.Create of p's temporary file. */
    method CreateFile(p: Pid) returns (ok: bool)
      requires Valid() && Stands(p, NotStarted)
      modifies this
      ensures Valid() && Stands(p, if ok then Writing(0) else Returned)
      ensures state.procs[p].acquired == old(state.procs[p].acquired)
    {
      Known(p);
      ok := *;
      if ok {
        var file := FreshFile();
        Take(Create(p, file));
      } else {
        Take(CreateFails(p));
      }
    }

    method FreshFile() returns (file: nat)
      ensures file !in state.files
    {
      file := 0;
      var left := state.files.Keys;
      while file in state.files
        invariant left <= state.files.Keys
        invariant forall f :: f in state.files && f >= file ==> f in left
        decreases |left|
      {
        left := left - {file};
        file := file + 1;
      }
    }

    /** One character of io.WriteString; when it fails, the temporary file is removed. */
    method WriteChar(p: Pid, written: nat) returns (ok: bool)
      requires Valid() && Stands(p, Writing(written)) && written < |Text(p)|
      modifies this
      ensures Valid() && Took(if ok then Write(p) else WriteFails(p))
      ensures Stands(p, if ok then Writing(written + 1) else Returned)
      ensures state.procs[p].acquired == old(state.procs[p].acquired)
    {
      Known(p);
      ok := *;
      if ok {
        Take(Write(p));
      } else {
        Take(WriteFails(p));
      }
    }

    /** os.Link of the temporary file to the lock's path. */
    method LinkTemp(p: Pid) returns (result: LinkResult)
      requires Valid() && (Stands(p, Writing(|Text(p)|)) || Stands(p, Relinking))
      modifies this
      ensures Valid() && Took(if result == LinkError then LinkFails(p) else Link(p))
      ensures result == Exists ==> LockPath in old(state.names)
      ensures result == Linked ==> LockPath !in old(state.names) && Temp(p) in old(state.names)
      ensures Stands(p, if result == Exists && old(state.procs[p].phase).Writing? then ReadingOwner else Comparing)
      ensures state.procs[p].acquired == (old(state.procs[p].acquired) || result == Linked)
    {
      var works: bool := *;
      if !works || Temp(p) !in state.names {
        Take(LinkFails(p));
        return LinkError;
      }
      result := if LockPath in state.names then Exists else Linked;
      Take(Link(p));
    }

    /** os.ReadFile of the lock's path, in Acquire or in Release. */
    method ReadFile(p: Pid) returns (content: Option<string>)
      requires Valid() && (Stands(p, ReadingOwner) || Stands(p, Stopping))
      modifies this
      ensures Valid()
      ensures content.Some? ==> LockPath in old(state.names) && old(state.names[LockPath]) in old(state.files)
      ensures content.Some? ==> content.value == old(state.files[state.names[LockPath]])
      ensures old(Stands(p, Stopping)) ==> Took(if content.Some? then ReadOwnPid(p) else ReadOwnPidFails(p))
      ensures old(Stands(p, ReadingOwner)) ==> Took(if content.Some? then ReadOwner(p) else ReadOwnerFails(p))
      ensures p in state.procs
      ensures old(Stands(p, Stopping)) ==> Stands(p, if ScannedPid(content) == p then Releasing else Stopped)
      ensures old(Stands(p, ReadingOwner)) ==> Judging(p, ScannedPid(content))
      ensures Flags(p) == old(Flags(p))
    {
      Consistent();
      assert OwnerOf("") == -1;
      var readable: bool := *;
      if LockPath in state.names && readable {
        content := Some(state.files[state.names[LockPath]]);
        if Stands(p, Stopping) {
          Take(ReadOwnPid(p));
        } else {
          Take(ReadOwner(p));
        }
      } else {
        content := None;
        if Stands(p, Stopping) {
          Take(ReadOwnPidFails(p));
        } else {
          Take(ReadOwnerFails(p));
        }
      }
    }

    /** The signal 0 of isAlive. */
    method Signal(p: Pid, owner: int) returns (delivered: bool)
      requires Valid() && Judging(p, owner) && owner != p
      modifies this
      ensures Valid() && Took(CheckOwner(p))
      ensures delivered == IsAlive(old(state), owner)
      ensures if delivered then Stands(p, Comparing) else MayRemove(p)
      ensures Flags(p) == old(Flags(p))
    {
      delivered := IsAlive(state, owner);
      Take(CheckOwner(p));
    }

    /** os.Remove of the lock's path, in Acquire or in Release. */
    method RemoveLock(p: Pid) returns (ok: bool)
      requires Valid() && (MayRemove(p) || Stands(p, Releasing))
      modifies this
      ensures Valid()
      ensures ok ==> LockPath in old(state.names) && LockPath !in state.names
      ensures old(Stands(p, Releasing)) ==> Took(if ok then Release(p) else ReleaseFails(p))
      ensures old(MayRemove(p)) ==> Took(if ok then Remove(p) else RemoveFails(p))
      ensures Stands(p, if old(Stands(p, Releasing)) then Stopped else if ok then Relinking else Comparing)
      ensures state.procs[p].acquired == old(state.procs[p].acquired)
      ensures state.procs[p].released == (old(state.procs[p].released) || (old(Stands(p, Releasing)) && ok))
    {
      var works: bool := *;
      ok := works && LockPath in state.names;
      if Stands(p, Releasing) {
        if ok { Take(Release(p)); } else { Take(ReleaseFails(p)); }
      } else {
        if ok { Take(Remove(p)); } else { Take(RemoveFails(p)); }
      }
    }

    /** os.Stat of the lock's path; the temporary file was looked at before. */
    method StatLock(p: Pid) returns (file: Option<nat>)
      requires Valid() && Stands(p, Comparing)
      modifies this
      ensures Valid() && Took(Compare(p)) && file == LockFile(old(state))
      ensures Stands(p, if old(NamedFile(state, Temp(p))).Some? && file != old(NamedFile(state, Temp(p)))
                        then RemovingTemp else Returned)
      ensures state.names == old(state.names)
      ensures Flags(p) == old(Flags(p))
    {
      file := LockFile(state);
      Take(Compare(p));
    }

    // ---- createTempLock, Owner, Acquire and Release

    method CreateTempLock(p: Pid) returns (created: bool)
      requires Valid() && Stands(p, NotStarted)
      modifies this
      ensures Valid() && Stands(p, if created then Writing(|Text(p)|) else Returned)
      ensures !state.procs[p].acquired
    {
      Known(p);
      created := CreateFile(p);
      if !created {
        return;
      }
      var written := 0;
      while written < |Text(p)|
        invariant written <= |Text(p)|
        invariant Valid() && Stands(p, Writing(written)) && !state.procs[p].acquired
      {
        Others(p);
        created := WriteChar(p, written);
        if !created {
          return;
        }
        written := written + 1;
      }
    }

    method OwnerPid(p: Pid) returns (owner: int)
      requires Valid() && (Stands(p, ReadingOwner) || Stands(p, Stopping))
      modifies this
      ensures Valid() && p in state.procs && Flags(p) == old(Flags(p))
      ensures old(Stands(p, ReadingOwner)) ==> Judging(p, owner)
      ensures old(Stands(p, Stopping)) ==> Stands(p, if owner == p then Releasing else Stopped)
      ensures RunOn() && NoRelease(|old(run)|, p)
    {
      var content := ReadFile(p);
      owner := ScannedPid(content);
    }

    /** Acquire. Its answer is true exactly if the model has the process acquire the lock; and if nobody linked into the
        free path while a victim lived, which is when the lock excludes at all, the process is the only live holder. */
    method Acquire(p: Pid) returns (answer: Answer)
      requires Valid() && Stands(p, NotStarted)
      modifies this
      ensures Valid() && Stands(p, Returned)
      ensures answer == Acquired <==> state.procs[p].acquired
      ensures WholePids(state, p)
      ensures answer == Acquired && NoLinkOverVictim(start, run, {}) ==> forall q :: Holds(state, q) <==> q == p
    {
      var created := CreateTempLock(p);
      if created {
        Others(p);
        answer := TryLink(p);
        Others(p);
        CleanUp(p);
      } else {
        answer := Failed;
      }
      Known(p);
      if answer == Acquired && NoLinkOverVictim(start, run, {}) {
        SoleHolder(p);
      }
    }

    method TryLink(p: Pid) returns (answer: Answer)
      requires Valid() && Stands(p, Writing(|Text(p)|)) && !state.procs[p].acquired
      modifies this
      ensures Valid() && Stands(p, Comparing)
      ensures answer == Acquired <==> state.procs[p].acquired
    {
      var linked := LinkTemp(p);
      if linked == Exists {
        // some other process already owns the lock
        Others(p);
        answer := ChallengeOwner(p);
        return;
      }
      return if linked == Linked then Acquired else Failed;
    }

    /** The way on when the lock's path exists. */
    method ChallengeOwner(p: Pid) returns (answer: Answer)
      requires Valid() && Stands(p, ReadingOwner) && !state.procs[p].acquired
      modifies this
      ensures Valid() && Stands(p, Comparing)
      ensures answer == Acquired <==> state.procs[p].acquired
    {
      var owner := OwnerPid(p);
      if owner == p {
        Take(CheckOwner(p));
        return Acquired;
      }
      Others(p);
      var alive := Signal(p, owner);
      if alive {
        return Refused;
      }
      Others(p);
      answer := TakeOver(p);
    }

    /** The owner is not alive: remove the file and try again. */
    method TakeOver(p: Pid) returns (answer: Answer)
      requires Valid() && MayRemove(p) && !state.procs[p].acquired
      modifies this
      ensures Valid() && Stands(p, Comparing)
      ensures answer == Acquired <==> state.procs[p].acquired
    {
      var removed := RemoveLock(p);
      if !removed {
        return Failed;
      }
      Others(p);
      var linked := LinkTemp(p);
      return if linked == Linked then Acquired else Failed;
    }

    /** The deferred clean-up: the temporary file is removed unless it is the lock file. */
    method CleanUp(p: Pid)
      requires Valid() && Stands(p, Comparing)
      modifies this
      ensures Valid() && Stands(p, Returned)
      ensures state.procs[p].acquired == old(state.procs[p].acquired)
      ensures Temp(p) in state.names ==> LockFile(state) == NamedFile(state, Temp(p))
    {
      var temp := NamedFile(state, Temp(p));
      if temp.None? {
        Take(Compare(p));
        return;
      }
      Others(p);
      var lock := StatLock(p);
      if lock.None? || lock != temp {
        Others(p);
        Take(RemoveTemp(p));
      }
    }

    /** The owner check of Release. */
    method OwnsLock(p: Pid) returns (owns: bool)
      requires Valid() && Stands(p, Stopping)
      modifies this
      ensures Valid() && Stands(p, if owns then Releasing else Stopped)
      ensures Flags(p) == old(Flags(p))
      ensures owns ==> state.procs[p].acquired
      ensures RunOn() && NoRelease(|old(run)|, p)
    {
      var owner := OwnerPid(p);
      Known(p);
      owns := owner == p;
    }

    method BeginStop(p: Pid)
      requires Valid() && Stands(p, Returned)
      modifies this
      ensures Valid() && Stands(p, Stopping)
      ensures state.procs[p].acquired == old(state.procs[p].acquired) && !state.procs[p].released
      ensures RunOn() && NoRelease(|old(run)|, p)
    {
      NotYetReleased(p);
      Take(Stop(p));
      Others(p);
    }

    /** Release as Stop calls it: the lock is removed only by the process whose pid it shows, and true means that this
        process has released it. */
    method ReleaseLock(p: Pid) returns (ok: bool)
      requires Valid() && Stands(p, Returned)
      modifies this
      ensures Valid() && Stands(p, Stopped)
      ensures ok <==> state.procs[p].released
      ensures ok ==> old(state.procs[p].acquired)
      ensures RunOn() && (!old(state.procs[p].acquired) ==> NoRelease(|old(run)|, p))
    {
      BeginStop(p);
      var owns := OwnsLock(p);
      if !owns {
        return false;
      }
      Others(p);
      ok := RemoveLock(p);
    }

    /** Agent.Start: whatever was initialized is stopped again if the lock is not acquired or the profiler fails. A
        started agent holds the lock, alone if nobody linked into the free path while a victim lived. */
    method StartAgent(p: Pid) returns (started: bool)
      requires Valid() && Stands(p, NotStarted)
      modifies this
      ensures Valid() && Stands(p, if started then Returned else Stopped)
      ensures started ==> Holds(state, p)
      ensures started && NoLinkOverVictim(start, run, {}) ==> forall q :: Holds(state, q) <==> q == p
      ensures p in state.procs && (state.procs[p].released ==> state.procs[p].acquired)
    {
      var answer := Acquire(p);
      Known(p);
      var profiling: bool := *;
      if answer != Acquired || !profiling {
        var _ := ReleaseLock(p);
        Known(p);
        return false;
      }
      return true;
    }
  }

  function NamedFile(s: State, n: Name): Option<nat> {
    if n in s.names then Some(s.names[n]) else None
  }

  /** Only a process itself touches its temporary name. */
  lemma TempStays(s: State, a: Action, p: Pid)
    requires Enabled(s, a) && a.p != p
    ensures NamedFile(Next(s, a), Temp(p)) == NamedFile(s, Temp(p))
  {
  }
}
