/** pkg/runtime/lock.go and its use by pkg/agent/agent.go: a process lock made of a file that holds its owner's pid.
    Any number of processes take atomic file-system steps in any order, may fail at any of them and may die at
    any time. Each acquires the lock at most once, and no pid is used twice. */
module FileLock {
  import opened Decimal
  import opened Common

  type Pid = p: int | 0 < p < 0x8000_0000_0000_0000 witness 1

  /** The lock's path, and the path followed by a dot and a pid. */
  datatype Name = LockPath | Temp(pid: Pid)

  /** Where a process stands in Acquire and Stop. `seen` is the file Owner() read, None if it could not read one. */
  datatype Phase =
    | NotStarted
    | Writing(written: nat)                          // the temporary file holds this many digits of the pid
    | ReadingOwner
    | CheckingOwner(owner: int, seen: Option<nat>)
    | Removing(seen: Option<nat>)
    | Relinking
    | Comparing                                      // deferred clean-up of the temporary file
    | RemovingTemp
    | Returned
    | Stopping
    | Releasing
    | Stopped

  datatype Process = Process(
    alive: bool,
    phase: Phase,
    file: Option<nat>,     // its temporary file, once created
    linked: bool,          // it has put its file at the lock's path
    acquired: bool,        // Acquire returns, or is going to return, true
    released: bool)

  /** Directory entries name files (inodes); files have contents. */
  datatype State = State(names: map<Name, nat>, files: map<nat, string>, procs: map<Pid, Process>)

  datatype Action =
    | Create(p: Pid, file: nat)
    | CreateFails(p: Pid)
    | Write(p: Pid)
    | WriteFails(p: Pid)
    | Link(p: Pid)
    | LinkFails(p: Pid)
    | ReadOwner(p: Pid)
    | ReadOwnerFails(p: Pid)
    | CheckOwner(p: Pid)
    | Remove(p: Pid)
    | RemoveFails(p: Pid)
    | Compare(p: Pid)
    | RemoveTemp(p: Pid)
    | Stop(p: Pid)
    | ReadOwnPid(p: Pid)
    | ReadOwnPidFails(p: Pid)
    | Release(p: Pid)
    | ReleaseFails(p: Pid)
    | Crash(p: Pid)

  // ---- Reading a pid

  predicate IsBlank(c: char) { c == ' ' || c == '\t' || '\U{b}' <= c <= '\r' || c == '\U{85}' || c == '\U{a0}' }

  function SkipBlanks(s: string): string {
    if s != "" && IsBlank(s[0]) then SkipBlanks(s[1..]) else s
  }

  /** The pid `%d` scans from the content, -1 if there is none. */
  function OwnerOf(content: string): int {
    var s := SkipBlanks(content);
    var negative := s != "" && s[0] == '-';
    var digits := DigitPrefix(if s != "" && s[0] in {'+', '-'} then s[1..] else s);
    if digits == "" || Value(digits) >= 0x8000_0000_0000_0000 then -1
    else if negative then -(Value(digits) as int) else Value(digits)
  }

  lemma OwnerOfPid(p: Pid)
    ensures OwnerOf(Text(p)) == p
  {
    ValueOfText(p);
    assert IsDigit(Text(p)[0]);
  }

  // ---- Steps

  function LockFile(s: State): Option<nat> {
    if LockPath in s.names then Some(s.names[LockPath]) else None
  }

  /** What Owner() returns when it reads the lock file. */
  function Owner(s: State): int {
    if LockPath in s.names && s.names[LockPath] in s.files then OwnerOf(s.files[s.names[LockPath]]) else -1
  }

  predicate IsAlive(s: State, owner: int) {
    0 < owner < 0x8000_0000_0000_0000 && owner in s.procs && s.procs[owner].alive
  }

  predicate Enabled(s: State, a: Action) {
    a.p in s.procs && s.procs[a.p].alive &&
    var proc := s.procs[a.p];
    var phase := proc.phase;
    match a
    case Create(p, file) =>
      phase.NotStarted? && (if Temp(p) in s.names then file == s.names[Temp(p)] else file !in s.files)
    case CreateFails(_) => phase.NotStarted?
    case Write(p) => phase.Writing? && phase.written < |Text(p)| && proc.file.Some?
    case WriteFails(_) => phase.Writing?
    case Link(p) => (phase == Writing(|Text(p)|) || phase.Relinking?) && Temp(p) in s.names
    case LinkFails(p) => phase == Writing(|Text(p)|) || phase.Relinking?
    case ReadOwner(_) => phase.ReadingOwner?
    case ReadOwnerFails(_) => phase.ReadingOwner?
    case CheckOwner(_) => phase.CheckingOwner?
    case Remove(_) => phase.Removing?
    case RemoveFails(_) => phase.Removing?
    case Compare(_) => phase.Comparing?
    case RemoveTemp(_) => phase.RemovingTemp?
    case Stop(_) => phase.Returned?
    case ReadOwnPid(_) => phase.Stopping?
    case ReadOwnPidFails(_) => phase.Stopping?
    case Release(_) => phase.Releasing?
    case ReleaseFails(_) => phase.Releasing?
    case Crash(_) => true
  }

  /** A live process can die at any point, and any of its file-system steps can fail. */
  lemma AnyStepCanFail(s: State, p: Pid)
    requires p in s.procs && s.procs[p].alive
    ensures Enabled(s, Crash(p))
    ensures match s.procs[p].phase
            case NotStarted => Enabled(s, CreateFails(p))
            case Writing(n) => Enabled(s, WriteFails(p)) && (n == |Text(p)| ==> Enabled(s, LinkFails(p)))
            case ReadingOwner => Enabled(s, ReadOwnerFails(p))
            case Removing(_) => Enabled(s, RemoveFails(p))
            case Relinking => Enabled(s, LinkFails(p))
            case Stopping => Enabled(s, ReadOwnPidFails(p))
            case Releasing => Enabled(s, ReleaseFails(p))
            case _ => true
  {
  }

  function At(s: State, p: Pid, phase: Phase): State
    requires p in s.procs
  {
    s.(procs := s.procs[p := s.procs[p].(phase := phase)])
  }

  function Without(names: map<Name, nat>, n: Name): map<Name, nat> { names - {n} }

  function Next(s: State, a: Action): State
    requires Enabled(s, a)
  {
    var proc := s.procs[a.p];
    match a
    case Create(p, file) =>
      State(s.names[Temp(p) := file], s.files[file := ""], s.procs[p := proc.(phase := Writing(0), file := Some(file))])
    case CreateFails(p) => At(s, p, Returned)
    case Write(p) =>
      var written := proc.phase.written + 1;
      At(s, p, Writing(written)).(files := s.files[proc.file.value := Text(p)[..written]])
    case WriteFails(p) =>
      State(Without(s.names, Temp(p)), s.files, s.procs[p := proc.(phase := Returned, file := None)])
    case Link(p) =>
      if LockPath in s.names then At(s, p, if proc.phase.Relinking? then Comparing else ReadingOwner)
      else State(s.names[LockPath := s.names[Temp(p)]], s.files,
                 s.procs[p := proc.(phase := Comparing, linked := true, acquired := true)])
    case LinkFails(p) => At(s, p, Comparing)
    case ReadOwner(p) => At(s, p, CheckingOwner(Owner(s), LockFile(s)))
    case ReadOwnerFails(p) => At(s, p, CheckingOwner(-1, None))
    case CheckOwner(p) =>
      if proc.phase.owner == p then s.(procs := s.procs[p := proc.(phase := Comparing, acquired := true)])
      else At(s, p, if IsAlive(s, proc.phase.owner) then Comparing else Removing(proc.phase.seen))
    case Remove(p) =>
      if LockPath in s.names then At(s, p, Relinking).(names := Without(s.names, LockPath)) else At(s, p, Comparing)
    case RemoveFails(p) => At(s, p, Comparing)
    case Compare(p) =>
      At(s, p, if Temp(p) in s.names && LockFile(s) != Some(s.names[Temp(p)]) then RemovingTemp else Returned)
    case RemoveTemp(p) => At(s, p, Returned).(names := Without(s.names, Temp(p)))
    case Stop(p) => At(s, p, Stopping)
    case ReadOwnPid(p) => At(s, p, if Owner(s) == p then Releasing else Stopped)
    case ReadOwnPidFails(p) => At(s, p, Stopped)
    case Release(p) =>
      s.(names := Without(s.names, LockPath),
         procs := s.procs[p := proc.(phase := Stopped, released := proc.released || LockPath in s.names)])
    case ReleaseFails(p) => At(s, p, Stopped)
    case Crash(p) => s.(procs := s.procs[p := proc.(alive := false)])
  }

  ghost predicate PossibleRun(s: State, run: seq<Action>)
    decreases |run|
  {
    run == [] || (Enabled(s, run[0]) && PossibleRun(Next(s, run[0]), run[1..]))
  }

  ghost function Run(s: State, run: seq<Action>): State
    requires PossibleRun(s, run)
    decreases |run|
  {
    if run == [] then s else Run(Next(s, run[0]), run[1..])
  }

  /** All processes are about to call Acquire. A lock file may be left from a process of the past; its content is
      arbitrary, but not a pid of the processes to come. */
  ghost predicate Init(s: State) {
    && (forall p :: p in s.procs ==>
        s.procs[p] == Process(true, NotStarted, None, false, false, false) && Temp(p) !in s.names)
    && (forall n :: n in s.names ==> s.names[n] in s.files)
    && (Owner(s) > 0 ==> Owner(s) !in s.procs)
  }

  // ---- What holds whatever the interleaving

  ghost predicate ProcessInv(s: State, p: Pid)
    requires p in s.procs
  {
    var proc := s.procs[p];
    && (proc.phase.NotStarted? ==> Temp(p) !in s.names && proc.file.None?)
    && (proc.linked <==> proc.acquired)
    && (proc.linked ==>
        proc.file.Some? && proc.phase in {Comparing, RemovingTemp, Returned, Stopping, Releasing, Stopped})
    && (proc.phase.Releasing? ==> proc.linked)
    && (proc.phase.CheckingOwner? ==> proc.phase.owner != p)
    && (proc.released ==> proc.linked && proc.phase == Stopped)
    && (proc.file.None? ==> Temp(p) !in s.names && proc.phase in {NotStarted, Returned, Stopping, Stopped})
    && (proc.file.Some? ==>
          && proc.file.value in s.files
          && (Temp(p) in s.names ==> s.names[Temp(p)] == proc.file.value)
          && (proc.phase.Writing? ==> proc.phase.written <= |Text(p)|)
          && s.files[proc.file.value] == if proc.phase.Writing? then Text(p)[..proc.phase.written] else Text(p))
    && (proc.phase in {Returned, Stopping, Releasing, Stopped} && !proc.linked ==> Temp(p) !in s.names)
    && (proc.phase.ReadingOwner? || proc.phase.CheckingOwner? || proc.phase.Removing? || proc.phase.Relinking? ==>
        Temp(p) in s.names)
  }

  ghost predicate NamesExist(s: State) {
    forall n :: n in s.names ==> s.names[n] in s.files
  }

  ghost predicate FilesDiffer(s: State) {
    forall p, q :: p in s.procs && q in s.procs && p != q && s.procs[p].file.Some? ==>
        s.procs[p].file != s.procs[q].file
  }

  /** A process's file is only found under its temporary name and, once linked, at the lock's path. */
  ghost predicate FilesNamed(s: State) {
    forall p, n :: p in s.procs && n in s.names && s.procs[p].file == Some(s.names[n]) ==>
      n == Temp(p) || (n == LockPath && s.procs[p].linked)
  }

  /** A process whose pid the lock shows has linked this very file. */
  ghost predicate OwnerLinked(s: State) {
    var owner := Owner(s);
    LockPath in s.names && 0 < owner < 0x8000_0000_0000_0000 && owner in s.procs ==>
      s.procs[owner].linked && s.procs[owner].file == Some(s.names[LockPath])
  }

  ghost predicate Inv(s: State) {
    && NamesExist(s)
    && (forall p :: p in s.procs ==> ProcessInv(s, p))
    && FilesDiffer(s)
    && FilesNamed(s)
    && OwnerLinked(s)
  }

  lemma InitInv(s: State)
    requires Init(s)
    ensures Inv(s)
  {
  }

  /** A step that changes only where one process stands. */
  lemma OwnStep(s: State, p: Pid, proc: Process)
    requires Inv(s) && p in s.procs
    requires proc.file == s.procs[p].file && proc.linked == s.procs[p].linked
    requires var t := s.(procs := s.procs[p := proc]); ProcessInv(t, p)
    ensures Inv(s.(procs := s.procs[p := proc]))
  {
    var t := s.(procs := s.procs[p := proc]);
    forall q | q in t.procs ensures ProcessInv(t, q) {
      assert ProcessInv(s, q);
    }
  }

  lemma RemoveName(s: State, n: Name)
    requires Inv(s)
    requires n.Temp? && n.pid in s.procs ==> s.procs[n.pid].phase.Writing? || s.procs[n.pid].phase.RemovingTemp?
    ensures Inv(s.(names := Without(s.names, n)))
  {
    var t := s.(names := Without(s.names, n));
    forall q | q in t.procs ensures ProcessInv(t, q) {
      assert ProcessInv(s, q);
    }
  }

  lemma CreateStep(s: State, p: Pid, file: nat)
    requires Inv(s) && Enabled(s, Create(p, file))
    ensures Inv(Next(s, Create(p, file)))
  {
    var t := Next(s, Create(p, file));
    assert ProcessInv(s, p);
    forall q | q in t.procs ensures ProcessInv(t, q) {
      assert ProcessInv(s, q);
    }
  }

  lemma WriteStep(s: State, p: Pid)
    requires Inv(s) && Enabled(s, Write(p))
    ensures Inv(Next(s, Write(p)))
  {
    var t := Next(s, Write(p));
    assert ProcessInv(s, p);
    forall q | q in t.procs ensures ProcessInv(t, q) {
      assert ProcessInv(s, q);
    }
  }

  lemma LinkStep(s: State, p: Pid)
    requires Inv(s) && Enabled(s, Link(p)) && LockPath !in s.names
    ensures Inv(Next(s, Link(p)))
  {
    var t := Next(s, Link(p));
    assert ProcessInv(s, p);
    OwnerOfPid(p);
    forall q | q in t.procs ensures ProcessInv(t, q) {
      assert ProcessInv(s, q);
    }
  }

  /** Steps that change no file and no name. */
  predicate OnlyMoves(s: State, a: Action) {
    && !a.Create? && !a.Write? && !a.WriteFails? && !a.Remove? && !a.RemoveTemp? && !a.Release?
    && (a.Link? ==> LockPath in s.names)
  }

  lemma MoveStep(s: State, a: Action)
    requires Inv(s) && Enabled(s, a) && OnlyMoves(s, a)
    ensures Inv(Next(s, a))
  {
    assert ProcessInv(s, a.p);
    OwnStep(s, a.p, Next(s, a).procs[a.p]);
  }

  lemma WriteFailsStep(s: State, p: Pid)
    requires Inv(s) && Enabled(s, WriteFails(p))
    ensures Inv(Next(s, WriteFails(p)))
  {
    var t := Next(s, WriteFails(p));
    RemoveName(s, Temp(p));
    forall q | q in t.procs ensures ProcessInv(t, q) {
      assert ProcessInv(s, q);
    }
  }

  lemma RemoveTempStep(s: State, p: Pid)
    requires Inv(s) && Enabled(s, RemoveTemp(p))
    ensures Inv(Next(s, RemoveTemp(p)))
  {
    assert ProcessInv(s, p);
    RemoveName(s, Temp(p));
    OwnStep(s.(names := Without(s.names, Temp(p))), p, Next(s, RemoveTemp(p)).procs[p]);
  }

  lemma RemoveLockStep(s: State, a: Action)
    requires Inv(s) && Enabled(s, a) && (a.Remove? || a.Release?)
    ensures Inv(Next(s, a))
  {
    var p, t := a.p, Next(s, a);
    assert ProcessInv(s, p);
    RemoveName(s, LockPath);
    assert t.names == Without(s.names, LockPath);
    OwnStep(s.(names := t.names), p, t.procs[p]);
  }

  lemma InvStep(s: State, a: Action)
    requires Inv(s) && Enabled(s, a)
    ensures Inv(Next(s, a))
  {
    if OnlyMoves(s, a) {
      MoveStep(s, a);
    } else if a.Create? {
      CreateStep(s, a.p, a.file);
    } else if a.Write? {
      WriteStep(s, a.p);
    } else if a.Link? {
      LinkStep(s, a.p);
    } else if a.WriteFails? {
      WriteFailsStep(s, a.p);
    } else if a.RemoveTemp? {
      RemoveTempStep(s, a.p);
    } else {
      RemoveLockStep(s, a);
    }
  }

  // ---- Mutual exclusion

  /** A live process whose Acquire succeeded and that has not released the lock. */
  predicate Holds(s: State, p: Pid) {
    p in s.procs && s.procs[p].alive && s.procs[p].acquired && !s.procs[p].released
  }

  ghost predicate MutualExclusion(s: State) {
    forall p, q :: Holds(s, p) && Holds(s, q) ==> p == q
  }

  /** The file of every live holder is the lock file. */
  ghost predicate Safe(s: State) {
    forall p :: Holds(s, p) ==> LockPath in s.names && s.procs[p].file == Some(s.names[LockPath])
  }

  lemma SafeExcludes(s: State)
    requires Inv(s) && Safe(s)
    ensures MutualExclusion(s)
  {
  }

  /** A recovery that is about to remove the lock file of a live holder. */
  predicate Steals(s: State, a: Action) {
    a.Remove? && LockPath in s.names && Owner(s) > 0 && Owner(s) < 0x8000_0000_0000_0000 && Holds(s, Owner(s))
  }

  predicate ChangesLockPath(s: State, a: Action) {
    (a.Link? && LockPath !in s.names) || a.Remove? || a.Release?
  }

  /** A step is one process's own, and nobody comes back to life. */
  lemma StepKeepsProcesses(s: State, a: Action)
    requires Enabled(s, a)
    ensures Next(s, a).procs.Keys == s.procs.Keys
    ensures forall p :: p in s.procs && p != a.p ==> Next(s, a).procs[p] == s.procs[p]
    ensures forall owner :: IsAlive(Next(s, a), owner) ==> IsAlive(s, owner)
  {
  }

  /** Without a change of the lock's path nobody gets the lock, and nobody gives it up but by dying. */
  lemma KeptProcess(s: State, a: Action)
    requires Inv(s) && Enabled(s, a) && !ChangesLockPath(s, a)
    ensures LockFile(Next(s, a)) == LockFile(s)
    ensures a.p in Next(s, a).procs && Next(s, a).procs[a.p].acquired == s.procs[a.p].acquired
    ensures Next(s, a).procs[a.p].released == s.procs[a.p].released
    ensures s.procs[a.p].acquired ==> Next(s, a).procs[a.p].file == s.procs[a.p].file
  {
    assert ProcessInv(s, a.p);
  }

  lemma SafeKept(s: State, a: Action)
    requires Inv(s) && Safe(s) && Enabled(s, a) && !ChangesLockPath(s, a)
    ensures Safe(Next(s, a))
  {
    KeptProcess(s, a);
    StepKeepsProcesses(s, a);
    assert forall p :: Holds(Next(s, a), p) ==> Holds(s, p) && Next(s, a).procs[p].file == s.procs[p].file;
  }

  lemma SafeStep(s: State, a: Action)
    requires Inv(s) && Safe(s) && Enabled(s, a) && !Steals(s, a)
    ensures Safe(Next(s, a))
  {
    if !ChangesLockPath(s, a) {
      SafeKept(s, a);
    } else {
      var t := Next(s, a);
      assert ProcessInv(s, a.p);
      forall p | Holds(t, p) ensures LockPath in t.names && t.procs[p].file == Some(t.names[LockPath]) {
        assert ProcessInv(s, p);
        if Holds(s, p) {
          OwnerOfPid(p);
        }
      }
    }
  }

  /** The state after a recovery removes the lock file and links its own. */
  function Recovered(s: State, p: Pid): State
    requires Enabled(s, Remove(p)) && LockPath in s.names && Temp(p) in s.names
  {
    Next(Next(s, Remove(p)), Link(p))
  }

  lemma StealShares(s: State, p: Pid)
    requires Inv(s) && Enabled(s, Remove(p)) && LockPath in s.names && Temp(p) in s.names
    requires Steals(s, Remove(p))
    ensures Holds(Recovered(s, p), p) && Holds(Recovered(s, p), Owner(s)) && p != Owner(s)
  {
    assert ProcessInv(s, p);
    assert ProcessInv(s, Owner(s));
  }

  // ---- Runs in which a recovery removes only the file it read

  /** A recovery that finds a lock file to remove finds the one whose owner it read. */
  predicate RemovesWhatItRead(s: State, a: Action)
    requires Enabled(s, a)
  {
    a.Remove? && LockPath in s.names ==> s.procs[a.p].phase.seen == LockFile(s)
  }

  /** A file that was once at the lock's path: nobody writes to it any more. */
  predicate Settled(s: State, file: nat) {
    file in s.files && forall q :: q in s.procs && s.procs[q].file == Some(file) ==> !s.procs[q].phase.Writing?
  }

  /** What p knows of the file it read: its owner, and once p goes on to remove it, that this owner is dead. */
  predicate ReadWell(s: State, p: Pid)
    requires p in s.procs
  {
    match s.procs[p].phase
    case CheckingOwner(owner, Some(file)) => Settled(s, file) && owner == OwnerOf(s.files[file])
    case Removing(Some(file)) => Settled(s, file) && !IsAlive(s, OwnerOf(s.files[file]))
    case _ => true
  }

  ghost predicate AllReadWell(s: State) {
    forall p :: p in s.procs ==> ReadWell(s, p)
  }

  lemma ReadsWellNeverSteals(s: State, a: Action)
    requires Inv(s) && AllReadWell(s) && Enabled(s, a) && RemovesWhatItRead(s, a)
    ensures !Steals(s, a)
  {
    if a.Remove? {
      assert ReadWell(s, a.p);
    }
  }

  lemma SettledStays(s: State, a: Action, file: nat)
    requires Inv(s) && Enabled(s, a) && Settled(s, file)
    ensures Settled(Next(s, a), file) && Next(s, a).files[file] == s.files[file]
  {
    assert ProcessInv(s, a.p);
    StepKeepsProcesses(s, a);
  }

  lemma LockFileSettled(s: State)
    requires Inv(s) && LockPath in s.names
    ensures Settled(s, s.names[LockPath])
  {
    forall q | q in s.procs && s.procs[q].file == Some(s.names[LockPath]) ensures !s.procs[q].phase.Writing? {
      assert ProcessInv(s, q);
    }
  }

  lemma ReadWellOthers(s: State, a: Action, p: Pid)
    requires Inv(s) && Enabled(s, a) && p in s.procs && p != a.p && ReadWell(s, p)
    ensures p in Next(s, a).procs && ReadWell(Next(s, a), p)
  {
    StepKeepsProcesses(s, a);
    match s.procs[p].phase
    case CheckingOwner(_, Some(file)) => SettledStays(s, a, file);
    case Removing(Some(file)) => SettledStays(s, a, file);
    case _ =>
  }

  lemma ReadWellRead(s: State, p: Pid)
    requires Inv(s) && Enabled(s, ReadOwner(p))
    ensures ReadWell(Next(s, ReadOwner(p)), p)
  {
    if LockPath in s.names {
      LockFileSettled(s);
      SettledStays(s, ReadOwner(p), s.names[LockPath]);
    }
  }

  lemma ReadWellChecked(s: State, p: Pid)
    requires Inv(s) && Enabled(s, CheckOwner(p)) && ReadWell(s, p)
    ensures ReadWell(Next(s, CheckOwner(p)), p)
  {
    if s.procs[p].phase.seen.Some? {
      SettledStays(s, CheckOwner(p), s.procs[p].phase.seen.value);
    }
  }

  lemma ReadWellCrashed(s: State, p: Pid)
    requires Inv(s) && Enabled(s, Crash(p)) && ReadWell(s, p)
    ensures ReadWell(Next(s, Crash(p)), p)
  {
    if s.procs[p].phase.CheckingOwner? || s.procs[p].phase.Removing? {
      if s.procs[p].phase.seen.Some? {
        SettledStays(s, Crash(p), s.procs[p].phase.seen.value);
      }
    }
  }

  lemma ReadWellOwn(s: State, a: Action)
    requires Inv(s) && Enabled(s, a) && ReadWell(s, a.p)
    ensures a.p in Next(s, a).procs && ReadWell(Next(s, a), a.p)
  {
    if a.ReadOwner? {
      ReadWellRead(s, a.p);
    } else if a.CheckOwner? {
      ReadWellChecked(s, a.p);
    } else if a.Crash? {
      ReadWellCrashed(s, a.p);
    }
  }

  lemma ReadWellStep(s: State, a: Action)
    requires Inv(s) && AllReadWell(s) && Enabled(s, a)
    ensures AllReadWell(Next(s, a))
  {
    StepKeepsProcesses(s, a);
    forall p | p in Next(s, a).procs ensures ReadWell(Next(s, a), p) {
      assert ReadWell(s, p);
      if p == a.p {
        ReadWellOwn(s, a);
      } else {
        ReadWellOthers(s, a, p);
      }
    }
  }

  /** The steps of the run one after the other: each is taken in the state the previous ones led to. */
  ghost predicate Throughout(s: State, run: seq<Action>, good: (State, Action) -> bool)
    requires PossibleRun(s, run)
    decreases |run|
  {
    run == [] || (good(s, run[0]) && Throughout(Next(s, run[0]), run[1..], good))
  }

  lemma {:induction false} RunInv(s: State, run: seq<Action>)
    requires Inv(s) && PossibleRun(s, run)
    ensures Inv(Run(s, run))
    decreases |run|
  {
    if run != [] {
      InvStep(s, run[0]);
      RunInv(Next(s, run[0]), run[1..]);
    }
  }

  /** Any number of processes, any interleaving, failures and deaths: as long as no recovery removes a live holder's
      file, at most one live process holds the lock, and its file is the lock file. */
  lemma {:induction false} NoStealNoSharing(s: State, run: seq<Action>)
    requires Inv(s) && Safe(s) && PossibleRun(s, run)
    requires Throughout(s, run, (t, a) => !Steals(t, a))
    ensures Safe(Run(s, run)) && MutualExclusion(Run(s, run))
    decreases |run|
  {
    if run == [] {
      SafeExcludes(s);
    } else {
      InvStep(s, run[0]);
      SafeStep(s, run[0]);
      NoStealNoSharing(Next(s, run[0]), run[1..]);
    }
  }

  // ---- The exact condition

  /** In the whole run, nobody links into the free path while a victim is alive: a process whose lock file was removed
      by a recovery while it held the lock. */
  ghost predicate NoLinkOverVictim(s: State, run: seq<Action>, victims: set<Pid>)
    requires PossibleRun(s, run)
    decreases |run|
  {
    run == [] ||
    (&& (run[0].Link? && LockPath !in s.names ==> forall v :: v in victims ==> !IsAlive(s, v))
     && NoLinkOverVictim(Next(s, run[0]), run[1..], Victims(s, run[0], victims)))
  }

  function Victims(s: State, a: Action, victims: set<Pid>): set<Pid> {
    if Steals(s, a) then victims + {Owner(s)} else victims
  }

  /** At most one live holder at every moment of the run. */
  ghost predicate AlwaysExclusive(s: State, run: seq<Action>)
    requires PossibleRun(s, run)
    decreases |run|
  {
    MutualExclusion(s) && (run == [] || AlwaysExclusive(Next(s, run[0]), run[1..]))
  }

  /** A living victim still holds the lock, and nobody has linked since; the file of every other holder is the lock
      file. */
  ghost predicate VictimInv(s: State, victims: set<Pid>) {
    && MutualExclusion(s)
    && (forall v :: v in victims && IsAlive(s, v) ==> Holds(s, v) && LockPath !in s.names)
    && (forall p :: Holds(s, p) && p !in victims ==> LockPath in s.names && s.procs[p].file == Some(s.names[LockPath]))
  }

  lemma VictimsKept(s: State, a: Action, victims: set<Pid>)
    requires Inv(s) && VictimInv(s, victims) && Enabled(s, a) && !ChangesLockPath(s, a)
    ensures VictimInv(Next(s, a), victims)
  {
    KeptProcess(s, a);
    StepKeepsProcesses(s, a);
    var t := Next(s, a);
    assert forall p :: Holds(t, p) ==> Holds(s, p) && t.procs[p].file == s.procs[p].file;
  }

  /** While the path has a file, the only holder there can be is the one this file shows. */
  lemma HolderShown(s: State, victims: set<Pid>, p: Pid)
    requires Inv(s) && VictimInv(s, victims) && LockPath in s.names && Holds(s, p)
    ensures Owner(s) == p && p !in victims && s.procs[p].file == Some(s.names[LockPath])
  {
    assert ProcessInv(s, p);
    OwnerOfPid(p);
  }

  lemma VictimsOfRemove(s: State, p: Pid, victims: set<Pid>)
    requires Inv(s) && VictimInv(s, victims) && Enabled(s, Remove(p))
    ensures VictimInv(Next(s, Remove(p)), Victims(s, Remove(p), victims))
  {
    var t := Next(s, Remove(p));
    StepKeepsProcesses(s, Remove(p));
    assert forall q :: Holds(t, q) <==> Holds(s, q);
    if LockPath in s.names {
      forall q | Holds(s, q) ensures Owner(s) == q && q !in victims {
        HolderShown(s, victims, q);
      }
    }
  }

  lemma VictimsOfRelease(s: State, p: Pid, victims: set<Pid>)
    requires Inv(s) && VictimInv(s, victims) && Enabled(s, Release(p))
    ensures VictimInv(Next(s, Release(p)), victims)
  {
    var t := Next(s, Release(p));
    assert ProcessInv(s, p);
    StepKeepsProcesses(s, Release(p));
    assert Holds(s, p);
    assert forall q :: Holds(t, q) ==> Holds(s, q);
    if LockPath in s.names {
      HolderShown(s, victims, p);
    }
  }

  /** A link into the free path adds a holder, so it is harmless exactly if no victim lives. */
  lemma VictimsOfLink(s: State, p: Pid, victims: set<Pid>)
    requires Inv(s) && VictimInv(s, victims) && Enabled(s, Link(p)) && LockPath !in s.names
    ensures (forall v :: v in victims ==> !IsAlive(s, v)) <==> MutualExclusion(Next(s, Link(p)))
    ensures MutualExclusion(Next(s, Link(p))) ==> VictimInv(Next(s, Link(p)), victims)
  {
    var t := Next(s, Link(p));
    assert ProcessInv(s, p);
    StepKeepsProcesses(s, Link(p));
    assert Holds(t, p) && !Holds(s, p);
    assert forall q :: q != p ==> (Holds(t, q) <==> Holds(s, q));
    forall v | v in victims && IsAlive(s, v) ensures Holds(t, v) && v != p {
    }
  }

  lemma VictimStep(s: State, a: Action, victims: set<Pid>)
    requires Inv(s) && VictimInv(s, victims) && Enabled(s, a) && !(a.Link? && LockPath !in s.names)
    ensures VictimInv(Next(s, a), Victims(s, a, victims))
  {
    if a.Remove? {
      VictimsOfRemove(s, a.p, victims);
    } else if a.Release? {
      VictimsOfRelease(s, a.p, victims);
    } else {
      VictimsKept(s, a, victims);
    }
  }

  lemma {:induction false} ExclusiveFrom(s: State, run: seq<Action>, victims: set<Pid>)
    requires Inv(s) && VictimInv(s, victims) && PossibleRun(s, run)
    ensures AlwaysExclusive(s, run) <==> NoLinkOverVictim(s, run, victims)
    decreases |run|
  {
    if run != [] {
      var a := run[0];
      InvStep(s, a);
      if a.Link? && LockPath !in s.names {
        VictimsOfLink(s, a.p, victims);
        if MutualExclusion(Next(s, a)) {
          ExclusiveFrom(Next(s, a), run[1..], victims);
        } else {
          assert !AlwaysExclusive(Next(s, a), run[1..]);
        }
      } else {
        VictimStep(s, a, victims);
        ExclusiveFrom(Next(s, a), run[1..], Victims(s, a, victims));
      }
    }
  }

  /** When the lock excludes, for any number of processes, any interleaving, failures and deaths: there is at most one
      live holder at every moment exactly if nobody links into the free path while a process lives whose lock a
      recovery has removed under it. */
  lemma ExclusiveIff(s: State, run: seq<Action>)
    requires Init(s) && PossibleRun(s, run)
    ensures AlwaysExclusive(s, run) <==> NoLinkOverVictim(s, run, {})
  {
    InitInv(s);
    ExclusiveFrom(s, run, {});
  }

  lemma {:induction false} ExclusiveAtEnd(s: State, run: seq<Action>)
    requires PossibleRun(s, run) && AlwaysExclusive(s, run)
    ensures MutualExclusion(Run(s, run))
    decreases |run|
  {
    if run != [] {
      ExclusiveAtEnd(Next(s, run[0]), run[1..]);
    }
  }

  /** Runs without victims are among these. */
  lemma {:induction false} NoStealNoVictim(s: State, run: seq<Action>)
    requires PossibleRun(s, run)
    requires Throughout(s, run, (t, a) => !Steals(t, a))
    ensures NoLinkOverVictim(s, run, {})
    decreases |run|
  {
    if run != [] {
      NoStealNoVictim(Next(s, run[0]), run[1..]);
    }
  }

  // ---- Recoveries that remove what they read

  /** Recoveries never remove a file other than the one they read, in the whole run. */
  ghost predicate GoodRecoveries(s: State, run: seq<Action>)
    requires PossibleRun(s, run)
    decreases |run|
  {
    run == [] || (RemovesWhatItRead(s, run[0]) && GoodRecoveries(Next(s, run[0]), run[1..]))
  }

  lemma {:induction false} GoodRecoveriesNeverSteal(s: State, run: seq<Action>)
    requires Inv(s) && AllReadWell(s) && PossibleRun(s, run) && GoodRecoveries(s, run)
    ensures Throughout(s, run, (t, a) => !Steals(t, a))
    decreases |run|
  {
    if run != [] {
      ReadsWellNeverSteals(s, run[0]);
      InvStep(s, run[0]);
      ReadWellStep(s, run[0]);
      GoodRecoveriesNeverSteal(Next(s, run[0]), run[1..]);
    }
  }

  /** So it is enough that no recovery removes another lock file than the one it read: then at most one live process
      holds the lock at every moment. Owners may release, die or be replaced at any time, and any read may fail. */
  lemma AtMostOneHolder(s: State, run: seq<Action>)
    requires Init(s) && PossibleRun(s, run) && GoodRecoveries(s, run)
    ensures NoLinkOverVictim(s, run, {}) && AlwaysExclusive(s, run) && MutualExclusion(Run(s, run))
  {
    InitInv(s);
    GoodRecoveriesNeverSteal(s, run);
    NoStealNoVictim(s, run);
    ExclusiveIff(s, run);
    ExclusiveAtEnd(s, run);
  }

  // ---- A sufficient condition: recoveries are not disturbed

  /** From reading the owner to removing the file of an owner found dead. */
  predicate Recovering(s: State, p: Pid) {
    p in s.procs && s.procs[p].alive && (s.procs[p].phase.CheckingOwner? || s.procs[p].phase.Removing?)
  }

  /** No failing read, and no change of the lock's path while another process is between its read and its removal. */
  ghost predicate Calm(s: State, a: Action) {
    && !a.ReadOwnerFails?
    && (ChangesLockPath(s, a) ==> forall q :: q != a.p ==> !Recovering(s, q))
  }

  /** What is at the lock's path is still what the recovering processes have read. */
  ghost predicate Fresh(s: State) {
    forall p :: Recovering(s, p) ==> s.procs[p].phase.seen == LockFile(s)
  }

  lemma OnlyReadsBeginRecovery(s: State, a: Action)
    requires Enabled(s, a) && Calm(s, a) && Recovering(Next(s, a), a.p)
    ensures a.ReadOwner? || (a.CheckOwner? && s.procs[a.p].phase.seen == Next(s, a).procs[a.p].phase.seen)
    ensures a.ReadOwner? ==> Next(s, a).procs[a.p].phase.seen == LockFile(s)
    ensures LockFile(Next(s, a)) == LockFile(s)
  {
  }

  lemma FreshStep(s: State, a: Action)
    requires Fresh(s) && Enabled(s, a) && Calm(s, a)
    ensures Fresh(Next(s, a)) && RemovesWhatItRead(s, a)
  {
    var t := Next(s, a);
    StepKeepsProcesses(s, a);
    forall p | Recovering(t, p) ensures t.procs[p].phase.seen == LockFile(t) {
      if p == a.p {
        OnlyReadsBeginRecovery(s, a);
      } else {
        assert Recovering(s, p);
      }
    }
    assert a.Remove? ==> Recovering(s, a.p);
  }

  /** When nothing changes the lock's path between another process's read and removal, and no read fails, recoveries
      remove what they read. */
  lemma {:induction false} CalmRunRecoversWell(s: State, run: seq<Action>)
    requires Fresh(s) && PossibleRun(s, run)
    requires Throughout(s, run, (t, a) => Calm(t, a))
    ensures GoodRecoveries(s, run)
    decreases |run|
  {
    if run != [] {
      FreshStep(s, run[0]);
      CalmRunRecoversWell(Next(s, run[0]), run[1..]);
    }
  }

  /** What Inv says to an observer of the directory. */
  ghost predicate WholePids(s: State, p: Pid)
    requires p in s.procs
  {
    var proc := s.procs[p];
    // a lock file written by p shows p's whole pid, and p has acquired the lock
    && (LockPath in s.names && proc.file == Some(s.names[LockPath]) ==>
          proc.acquired && proc.file.value in s.files && s.files[proc.file.value] == Text(p) && Owner(s) == p)
    // only a process that acquired the lock gets as far as removing it in Stop
    && (Enabled(s, Release(p)) ==> proc.acquired)
    // a refused process leaves no temporary file
    && (proc.phase.Returned? && !proc.acquired ==> Temp(p) !in s.names)
  }

  lemma InvShowsWholePids(s: State, p: Pid)
    requires Inv(s) && p in s.procs
    ensures WholePids(s, p)
  {
    assert ProcessInv(s, p);
    OwnerOfPid(p);
  }

  /** In any run at all, overlapping recoveries and failing reads included, the lock path never shows a part of a pid,
      and a process that failed to acquire never removes the lock through Stop. */
  lemma LockShowsWholePids(s: State, run: seq<Action>, p: Pid)
    requires Init(s) && PossibleRun(s, run) && p in s.procs
    ensures p in Run(s, run).procs && WholePids(Run(s, run), p)
  {
    InitInv(s);
    RunInv(s, run);
    RunKeepsProcesses(s, run);
    InvShowsWholePids(Run(s, run), p);
  }

  lemma {:induction false} RunKeepsProcesses(s: State, run: seq<Action>)
    requires PossibleRun(s, run)
    ensures Run(s, run).procs.Keys == s.procs.Keys
    decreases |run|
  {
    if run != [] {
      StepKeepsProcesses(s, run[0]);
      RunKeepsProcesses(Next(s, run[0]), run[1..]);
    }
  }

  // ---- Why the conditions are needed

  /** A recovery that read an owner which is not alive goes on to share the lock with any live holder there is by
      then, be it another recovery or a process that found the path free in the meantime. */
  lemma StaleReadShares(s: State, p: Pid, holder: Pid)
    requires Inv(s) && Safe(s) && Holds(s, holder)
    requires p in s.procs && s.procs[p].alive && s.procs[p].phase.CheckingOwner? && !IsAlive(s, s.procs[p].phase.owner)
    ensures var run := [CheckOwner(p), Remove(p), Link(p)];
            PossibleRun(s, run) && Holds(Run(s, run), p) && Holds(Run(s, run), holder) && p != holder
  {
    assert ProcessInv(s, p) && ProcessInv(s, holder);
    OwnerOfPid(holder);
    var t := Next(s, CheckOwner(p));
    InvStep(s, CheckOwner(p));
    StealShares(t, p);
    RunThree(s, CheckOwner(p), Remove(p), Link(p));
  }

  /** Owner() takes a lock file it cannot read for an abandoned one, so one failed read is enough to share the lock. */
  lemma FailedReadShares(s: State, p: Pid, holder: Pid)
    requires Inv(s) && Safe(s) && Holds(s, holder)
    requires Enabled(s, ReadOwnerFails(p))
    ensures var run := [CheckOwner(p), Remove(p), Link(p)];
            var t := Next(s, ReadOwnerFails(p));
            PossibleRun(t, run) && Holds(Run(t, run), p) && Holds(Run(t, run), holder) && p != holder
  {
    assert ProcessInv(s, p);
    InvStep(s, ReadOwnerFails(p));
    SafeStep(s, ReadOwnerFails(p));
    StaleReadShares(Next(s, ReadOwnerFails(p)), p, holder);
  }

  lemma RunThree(s: State, a: Action, b: Action, c: Action)
    requires Enabled(s, a) && Enabled(Next(s, a), b) && Enabled(Next(Next(s, a), b), c)
    ensures PossibleRun(s, [a, b, c]) && Run(s, [a, b, c]) == Next(Next(Next(s, a), b), c)
  {
    var t, u := Next(s, a), Next(Next(s, a), b);
    assert [a, b, c][1..] == [b, c] && [b, c][1..] == [c];
    assert PossibleRun(Next(u, c), []);
    assert PossibleRun(u, [c]) && Run(u, [c]) == Next(u, c);
    assert PossibleRun(t, [b, c]) && Run(t, [b, c]) == Next(u, c);
  }

  lemma {:induction false} RunAppend(s: State, run: seq<Action>, a: Action)
    requires PossibleRun(s, run) && Enabled(Run(s, run), a)
    ensures PossibleRun(s, run + [a]) && Run(s, run + [a]) == Next(Run(s, run), a)
    decreases |run|
  {
    if run == [] {
      assert [a][1..] == [];
    } else {
      assert (run + [a])[1..] == run[1..] + [a];
      RunAppend(Next(s, run[0]), run[1..], a);
    }
  }

  /** The state once process p has its temporary file and has read an empty lock file. */
  function HasRead(s: State, p: Pid, file: nat): State {
    State(s.names[Temp(p) := file], s.files[file := Text(p)],
          s.procs[p := IDLE.(phase := CheckingOwner(-1, Some(0)), file := Some(file))])
  }

  predicate EmptyLock(s: State) {
    LockPath in s.names && s.names[LockPath] == 0 && 0 in s.files && s.files[0] == ""
  }

  /** Steps of p, none of which fails. */
  predicate Alone(run: seq<Action>, p: Pid) {
    forall i :: 0 <= i < |run| ==> run[i].p == p && Succeeds(run[i])
  }

  predicate Succeeds(a: Action) {
    && !a.CreateFails? && !a.WriteFails? && !a.LinkFails? && !a.ReadOwnerFails? && !a.RemoveFails?
    && !a.ReadOwnPidFails? && !a.ReleaseFails? && !a.Crash?
  }

  lemma WritesOne(s: State, p: Pid, written: nat)
    requires p in s.procs && s.procs[p].alive && s.procs[p].phase == Writing(written) && written < |Text(p)|
    requires s.procs[p].file.Some?
    ensures Enabled(s, Write(p))
    ensures Next(s, Write(p))
            == At(s, p, Writing(written + 1)).(files := s.files[s.procs[p].file.value := Text(p)[..written + 1]])
  {
  }

  /** p's file holds this much of its pid. */
  function WrittenTo(s: State, p: Pid, written: nat): State
    requires p in s.procs && s.procs[p].file.Some? && written <= |Text(p)|
  {
    At(s, p, Writing(written)).(files := s.files[s.procs[p].file.value := Text(p)[..written]])
  }

  lemma WritesNext(s: State, p: Pid, written: nat)
    requires p in s.procs && s.procs[p].alive && s.procs[p].file.Some? && written < |Text(p)|
    ensures Enabled(WrittenTo(s, p, written), Write(p))
    ensures Next(WrittenTo(s, p, written), Write(p)) == WrittenTo(s, p, written + 1)
  {
    var t := WrittenTo(s, p, written);
    WritesOne(t, p, written);
    assert Next(t, Write(p)).files == WrittenTo(s, p, written + 1).files;
    assert Next(t, Write(p)).procs == WrittenTo(s, p, written + 1).procs;
  }

  lemma {:induction false} WritesOn(s: State, p: Pid, start: State, run: seq<Action>, written: nat)
      returns (run': seq<Action>)
    requires p in s.procs && s.procs[p].alive && s.procs[p].file.Some? && written <= |Text(p)|
    requires PossibleRun(start, run) && Run(start, run) == WrittenTo(s, p, written) && Alone(run, p)
    ensures PossibleRun(start, run') && Run(start, run') == WrittenTo(s, p, |Text(p)|) && Alone(run', p)
    decreases |Text(p)| - written
  {
    if written == |Text(p)| {
      run' := run;
    } else {
      WritesNext(s, p, written);
      Goes(start, run, Write(p), WrittenTo(s, p, written + 1));
      run' := WritesOn(s, p, start, run + [Write(p)], written + 1);
    }
  }

  /** One more step of p's run. */
  lemma Goes(start: State, run: seq<Action>, a: Action, t: State)
    requires PossibleRun(start, run) && Enabled(Run(start, run), a) && Next(Run(start, run), a) == t
    ensures PossibleRun(start, run + [a]) && Run(start, run + [a]) == t
    ensures Alone(run, a.p) && Succeeds(a) ==> Alone(run + [a], a.p)
  {
    RunAppend(start, run, a);
  }

  lemma Creates(s: State, p: Pid, file: nat)
    requires p in s.procs && s.procs[p] == IDLE && Temp(p) !in s.names && file !in s.files
    ensures Enabled(s, Create(p, file))
    ensures var t := Next(s, Create(p, file));
            t.procs[p] == IDLE.(phase := Writing(0), file := Some(file)) && t == WrittenTo(t, p, 0)
    ensures WrittenTo(Next(s, Create(p, file)), p, |Text(p)|) == Wrote(s, p, file)
  {
    var t := Next(s, Create(p, file));
    assert Text(p)[..0] == "" && Text(p)[..|Text(p)|] == Text(p);
    assert t.files == s.files[file := ""];
    assert t.files == t.files[file := ""];
    assert t.procs == t.procs[p := t.procs[p]];
    assert WrittenTo(t, p, |Text(p)|).files == Wrote(s, p, file).files;
    assert WrittenTo(t, p, |Text(p)|).procs == Wrote(s, p, file).procs;
  }

  lemma WritesAlone(s: State, p: Pid, file: nat) returns (run: seq<Action>)
    requires p in s.procs && s.procs[p] == IDLE && Temp(p) !in s.names && file !in s.files
    ensures PossibleRun(s, run) && Run(s, run) == Wrote(s, p, file) && Alone(run, p)
  {
    var t := Next(s, Create(p, file));
    Creates(s, p, file);
    assert Run(s, []) == s && Alone([], p);
    Goes(s, [], Create(p, file), t);
    run := WritesOn(t, p, s, [] + [Create(p, file)], 0);
  }

  lemma {:induction false} RunsOn(start: State, run: seq<Action>, more: seq<Action>)
    requires PossibleRun(start, run) && PossibleRun(Run(start, run), more)
    ensures PossibleRun(start, run + more) && Run(start, run + more) == Run(Run(start, run), more)
    decreases |run|
  {
    if run == [] {
      assert run + more == more;
    } else {
      assert (run + more)[1..] == run[1..] + more;
      RunsOn(Next(start, run[0]), run[1..], more);
    }
  }

  lemma Writes(s: State, p: Pid, file: nat, start: State, run: seq<Action>) returns (run': seq<Action>)
    requires PossibleRun(start, run) && Run(start, run) == s
    requires p in s.procs && s.procs[p] == IDLE && Temp(p) !in s.names && file !in s.files
    ensures PossibleRun(start, run') && Run(start, run') == Wrote(s, p, file)
  {
    var more := WritesAlone(s, p, file);
    RunsOn(start, run, more);
    run' := run + more;
  }

  /** The state once process p has written its temporary file. */
  function Wrote(s: State, p: Pid, file: nat): State {
    State(s.names[Temp(p) := file], s.files[file := Text(p)],
          s.procs[p := IDLE.(phase := Writing(|Text(p)|), file := Some(file))])
  }

  lemma FindsLocked(s: State, p: Pid, start: State, run: seq<Action>) returns (run': seq<Action>)
    requires PossibleRun(start, run) && Run(start, run) == s
    requires p in s.procs && s.procs[p].alive && s.procs[p].phase == Writing(|Text(p)|)
    requires Temp(p) in s.names && LockPath in s.names
    ensures PossibleRun(start, run') && Run(start, run') == At(s, p, ReadingOwner)
  {
    RunAppend(start, run, Link(p));
    run' := run + [Link(p)];
  }

  lemma Reads(s: State, p: Pid, start: State, run: seq<Action>) returns (run': seq<Action>)
    requires PossibleRun(start, run) && Run(start, run) == s && EmptyLock(s)
    requires p in s.procs && s.procs[p].alive && s.procs[p].phase == Writing(|Text(p)|) && Temp(p) in s.names
    ensures PossibleRun(start, run')
    ensures Run(start, run') == At(s, p, CheckingOwner(-1, Some(0)))
  {
    assert OwnerOf("") == -1;
    run' := FindsLocked(s, p, start, run);
    RunAppend(start, run', ReadOwner(p));
    run' := run' + [ReadOwner(p)];
    assert Run(start, run').procs == At(s, p, CheckingOwner(-1, Some(0))).procs;
  }

  /** The steps that bring one process from the start to the point where it has read an abandoned lock file. */
  lemma ReadsAbandoned(s: State, p: Pid, file: nat, start: State, run: seq<Action>) returns (run': seq<Action>)
    requires PossibleRun(start, run) && Run(start, run) == s && EmptyLock(s)
    requires p in s.procs && s.procs[p] == IDLE && Temp(p) !in s.names && file !in s.files
    ensures PossibleRun(start, run')
    ensures Run(start, run') == HasRead(s, p, file)
  {
    run' := Writes(s, p, file, start, run);
    var t := Run(start, run');
    run' := Reads(t, p, start, run');
    assert Run(start, run').procs == HasRead(s, p, file).procs;
  }

  /** Its recovery from there, if the path still has a lock file. */
  lemma Recovers(s: State, p: Pid, start: State, run: seq<Action>) returns (run': seq<Action>)
    requires PossibleRun(start, run) && Run(start, run) == s
    requires p in s.procs && s.procs[p].alive && s.procs[p].phase.CheckingOwner? && s.procs[p].phase.owner == -1
    requires LockPath in s.names && Temp(p) in s.names
    ensures PossibleRun(start, run')
    ensures Run(start, run') == State(s.names[LockPath := s.names[Temp(p)]], s.files,
                                      s.procs[p := s.procs[p].(phase := Comparing, linked := true, acquired := true)])
  {
    RunAppend(start, run, CheckOwner(p));
    run' := run + [CheckOwner(p)];
    RunAppend(start, run', Remove(p));
    run' := run' + [Remove(p)];
    RunAppend(start, run', Link(p));
    run' := run' + [Link(p)];
    var t := State(s.names[LockPath := s.names[Temp(p)]], s.files,
                   s.procs[p := s.procs[p].(phase := Comparing, linked := true, acquired := true)]);
    assert Run(start, run').names == t.names;
    assert Run(start, run').procs == t.procs;
  }

  const IDLE := Process(true, NotStarted, None, false, false, false)

  /** An abandoned, empty lock file and two processes. */
  function Abandoned(): State {
    State(map[LockPath := 0], map[0 := ""], map[1 := IDLE, 2 := IDLE])
  }

  /** Both have read it. */
  function BothReady(): State {
    HasRead(HasRead(Abandoned(), 1, 1), 2, 2)
  }

  lemma AbandonedIsInitial()
    ensures Init(Abandoned())
  {
    assert OwnerOf("") == -1;
  }

  lemma ReachBothReady() returns (run: seq<Action>)
    ensures PossibleRun(Abandoned(), run) && Run(Abandoned(), run) == BothReady()
  {
    var s := Abandoned();
    run := ReadsAbandoned(s, 1, 1, s, []);
    run := ReadsAbandoned(HasRead(s, 1, 1), 2, 2, s, run);
  }

  /** Two processes that both read an abandoned lock file before either removes it end up holding the lock together. */
  lemma OverlappingRecoveriesShare() returns (s: State, run: seq<Action>)
    ensures Init(s) && PossibleRun(s, run) && Holds(Run(s, run), 1) && Holds(Run(s, run), 2)
  {
    s := Abandoned();
    AbandonedIsInitial();
    run := ReachBothReady();
    run := Recovers(BothReady(), 1, s, run);
    run := Recovers(Run(s, run), 2, s, run);
  }

  /** Nobody has used the lock yet. */
  function Unused(): State {
    State(map[], map[], map[1 := IDLE, 2 := IDLE])
  }

  lemma LinksFree(s: State, p: Pid, start: State, run: seq<Action>) returns (run': seq<Action>)
    requires PossibleRun(start, run) && Run(start, run) == s
    requires p in s.procs && s.procs[p].alive && s.procs[p].phase == Writing(|Text(p)|)
    requires Temp(p) in s.names && LockPath !in s.names
    ensures PossibleRun(start, run')
    ensures Run(start, run') == State(s.names[LockPath := s.names[Temp(p)]], s.files,
                                      s.procs[p := s.procs[p].(phase := Comparing, linked := true, acquired := true)])
  {
    RunAppend(start, run, Link(p));
    run' := run + [Link(p)];
  }

  lemma FailsToRead(s: State, p: Pid, start: State, run: seq<Action>) returns (run': seq<Action>)
    requires PossibleRun(start, run) && Run(start, run) == s
    requires p in s.procs && s.procs[p].alive && s.procs[p].phase == ReadingOwner
    ensures PossibleRun(start, run') && Run(start, run') == At(s, p, CheckingOwner(-1, None))
  {
    RunAppend(start, run, ReadOwnerFails(p));
    run' := run + [ReadOwnerFails(p)];
  }

  lemma TakesUnused() returns (run: seq<Action>)
    ensures PossibleRun(Unused(), run) && Run(Unused(), run) == Used()
  {
    var s := Unused();
    assert Run(s, []) == s;
    run := Writes(s, 1, 1, s, []);
    run := LinksFree(Run(s, run), 1, s, run);
  }

  /** Process 1 has taken it. */
  function Used(): State {
    State(map[Temp(1) := 1, LockPath := 1], map[1 := Text(1)],
          map[1 := Process(true, Comparing, Some(1), true, true, false), 2 := IDLE])
  }

  /** Process 2 has its temporary file as well, and stands at the given place. */
  function Contested(phase: Phase): State {
    State(map[Temp(1) := 1, LockPath := 1, Temp(2) := 2], map[1 := Text(1), 2 := Text(2)],
          map[1 := Process(true, Comparing, Some(1), true, true, false),
              2 := Process(true, phase, Some(2), false, false, false)])
  }

  lemma WritesBesideUsed() returns (run: seq<Action>)
    ensures PossibleRun(Unused(), run) && Run(Unused(), run) == Contested(Writing(|Text(2)|))
  {
    run := TakesUnused();
    run := Writes(Used(), 2, 2, Unused(), run);
    var t := Wrote(Used(), 2, 2);
    assert t.names == Contested(Writing(|Text(2)|)).names;
    assert t.files == Contested(Writing(|Text(2)|)).files;
    assert t.procs == Contested(Writing(|Text(2)|)).procs;
  }

  lemma FailsToReadUsed() returns (run: seq<Action>)
    ensures PossibleRun(Unused(), run) && Run(Unused(), run) == Contested(CheckingOwner(-1, None))
  {
    run := WritesBesideUsed();
    run := FindsLocked(Contested(Writing(|Text(2)|)), 2, Unused(), run);
    assert Run(Unused(), run).procs == Contested(ReadingOwner).procs;
    run := FailsToRead(Contested(ReadingOwner), 2, Unused(), run);
    assert Run(Unused(), run).procs == Contested(CheckingOwner(-1, None)).procs;
  }

  /** One process takes the free lock; another, whose read of the lock file fails, takes it too. */
  lemma FailedReadRun() returns (s: State, run: seq<Action>)
    ensures Init(s) && PossibleRun(s, run) && Holds(Run(s, run), 1) && Holds(Run(s, run), 2)
  {
    s := Unused();
    run := FailsToReadUsed();
    run := Recovers(Contested(CheckingOwner(-1, None)), 2, s, run);
  }


  // ---- A process on its own

  /** Process p's way through Acquire while nobody else moves: its file, where it stands, and what is at the lock's
      path. */
  function Stage(s: State, p: Pid, file: nat, phase: Phase, linked: bool, lock: Option<nat>): State {
    State((if lock.Some? then s.names[LockPath := lock.value] else Without(s.names, LockPath))[Temp(p) := file],
          s.files[file := Text(p)], s.procs[p := Process(true, phase, Some(file), linked, linked, false)])
  }

  lemma WroteIsStage(s: State, p: Pid, file: nat)
    ensures Wrote(s, p, file) == Stage(s, p, file, Writing(|Text(p)|), false, LockFile(s))
  {
    assert Wrote(s, p, file).names == Stage(s, p, file, Writing(|Text(p)|), false, LockFile(s)).names;
  }

  lemma LinkFree(s: State, p: Pid, file: nat, phase: Phase)
    requires phase == Writing(|Text(p)|) || phase.Relinking?
    ensures var t := Stage(s, p, file, phase, false, None);
            Enabled(t, Link(p)) && Next(t, Link(p)) == Stage(s, p, file, Comparing, true, Some(file))
  {
    var t := Stage(s, p, file, phase, false, None);
    assert t.names[Temp(p)] == file && LockPath !in t.names;
    assert Next(t, Link(p)).names == Stage(s, p, file, Comparing, true, Some(file)).names;
    assert Next(t, Link(p)).procs == Stage(s, p, file, Comparing, true, Some(file)).procs;
  }

  lemma LinkTaken(s: State, p: Pid, file: nat, lock: nat)
    ensures var t := Stage(s, p, file, Writing(|Text(p)|), false, Some(lock));
            Enabled(t, Link(p)) && Next(t, Link(p)) == Stage(s, p, file, ReadingOwner, false, Some(lock))
  {
    var t := Stage(s, p, file, Writing(|Text(p)|), false, Some(lock));
    assert Next(t, Link(p)).procs == Stage(s, p, file, ReadingOwner, false, Some(lock)).procs;
  }

  lemma ReadStage(s: State, p: Pid, file: nat, lock: nat)
    requires lock in s.files && lock != file
    ensures var t := Stage(s, p, file, ReadingOwner, false, Some(lock));
            && Enabled(t, ReadOwner(p))
            && Next(t, ReadOwner(p))
               == Stage(s, p, file, CheckingOwner(OwnerOf(s.files[lock]), Some(lock)), false, Some(lock))
  {
    var t := Stage(s, p, file, ReadingOwner, false, Some(lock));
    assert Next(t, ReadOwner(p)).procs
        == Stage(s, p, file, CheckingOwner(OwnerOf(s.files[lock]), Some(lock)), false, Some(lock)).procs;
  }

  lemma CheckStage(s: State, p: Pid, file: nat, owner: int, lock: nat)
    requires owner != p && p in s.procs
    ensures var t := Stage(s, p, file, CheckingOwner(owner, Some(lock)), false, Some(lock));
            && Enabled(t, CheckOwner(p))
            && Next(t, CheckOwner(p))
               == Stage(s, p, file, if IsAlive(s, owner) then Comparing else Removing(Some(lock)), false, Some(lock))
  {
    var t := Stage(s, p, file, CheckingOwner(owner, Some(lock)), false, Some(lock));
    assert IsAlive(t, owner) <==> IsAlive(s, owner);
    assert Next(t, CheckOwner(p)).procs
        == Stage(s, p, file, if IsAlive(s, owner) then Comparing else Removing(Some(lock)), false, Some(lock)).procs;
  }

  lemma RemoveStage(s: State, p: Pid, file: nat, lock: nat)
    ensures var t := Stage(s, p, file, Removing(Some(lock)), false, Some(lock));
            Enabled(t, Remove(p)) && Next(t, Remove(p)) == Stage(s, p, file, Relinking, false, None)
  {
    var t := Stage(s, p, file, Removing(Some(lock)), false, Some(lock));
    assert Next(t, Remove(p)).names == Stage(s, p, file, Relinking, false, None).names;
    assert Next(t, Remove(p)).procs == Stage(s, p, file, Relinking, false, None).procs;
  }

  lemma CompareStage(s: State, p: Pid, file: nat, linked: bool, lock: nat)
    ensures var t := Stage(s, p, file, Comparing, linked, Some(lock));
            && Enabled(t, Compare(p))
            && Next(t, Compare(p)) == Stage(s, p, file, if lock == file then Returned
               else RemovingTemp, linked, Some(lock))
  {
    var t := Stage(s, p, file, Comparing, linked, Some(lock));
    assert Next(t, Compare(p)).procs
        == Stage(s, p, file, if lock == file then Returned else RemovingTemp, linked, Some(lock)).procs;
  }

  lemma RemoveTempStage(s: State, p: Pid, file: nat, lock: nat)
    requires LockFile(s) == Some(lock) && Temp(p) !in s.names
    ensures var t := Stage(s, p, file, RemovingTemp, false, Some(lock));
            && Enabled(t, RemoveTemp(p))
            && Next(t, RemoveTemp(p)) == Stage(s, p, file, Returned, false, Some(lock)).(names := s.names)
  {
    var t := Stage(s, p, file, RemovingTemp, false, Some(lock));
    assert Next(t, RemoveTemp(p)).names == s.names;
    assert Next(t, RemoveTemp(p)).procs == Stage(s, p, file, Returned, false, Some(lock)).procs;
  }

  /** From a link into the free path on. */
  lemma TakesFree(s: State, p: Pid, file: nat, phase: Phase, run: seq<Action>) returns (run': seq<Action>)
    requires phase == Writing(|Text(p)|) || phase.Relinking?
    requires PossibleRun(s, run) && Run(s, run) == Stage(s, p, file, phase, false, None) && Alone(run, p)
    ensures PossibleRun(s, run') && Run(s, run') == Stage(s, p, file, Returned, true, Some(file)) && Alone(run', p)
  {
    LinkFree(s, p, file, phase);
    Goes(s, run, Link(p), Stage(s, p, file, Comparing, true, Some(file)));
    CompareStage(s, p, file, true, file);
    Goes(s, run + [Link(p)], Compare(p), Stage(s, p, file, Returned, true, Some(file)));
    run' := run + [Link(p)] + [Compare(p)];
  }

  /** Up to the owner's pid. */
  lemma ReadsOwner(s: State, p: Pid, file: nat, lock: nat, run: seq<Action>) returns (run': seq<Action>)
    requires lock in s.files && lock != file
    requires PossibleRun(s, run) && Run(s, run) == Stage(s, p, file, Writing(|Text(p)|), false, Some(lock))
             && Alone(run, p)
    ensures PossibleRun(s, run') && Alone(run', p)
    ensures Run(s, run') == Stage(s, p, file, CheckingOwner(OwnerOf(s.files[lock]), Some(lock)), false, Some(lock))
  {
    LinkTaken(s, p, file, lock);
    Goes(s, run, Link(p), Stage(s, p, file, ReadingOwner, false, Some(lock)));
    ReadStage(s, p, file, lock);
    run' := run + [Link(p)];
    Goes(s, run', ReadOwner(p),
        Stage(s, p, file, CheckingOwner(OwnerOf(s.files[lock]), Some(lock)), false, Some(lock)));
    run' := run' + [ReadOwner(p)];
  }

  /** With a live owner. */
  lemma Refused(s: State, p: Pid, file: nat, owner: int, lock: nat, run: seq<Action>) returns (run': seq<Action>)
    requires owner != p && p in s.procs && IsAlive(s, owner)
    requires LockFile(s) == Some(lock) && lock != file && Temp(p) !in s.names
    requires PossibleRun(s, run) && Alone(run, p)
    requires Run(s, run) == Stage(s, p, file, CheckingOwner(owner, Some(lock)), false, Some(lock))
    ensures PossibleRun(s, run') && Alone(run', p)
    ensures Run(s, run') == Stage(s, p, file, Returned, false, Some(lock)).(names := s.names)
  {
    CheckStage(s, p, file, owner, lock);
    Goes(s, run, CheckOwner(p), Stage(s, p, file, Comparing, false, Some(lock)));
    run' := run + [CheckOwner(p)];
    CompareStage(s, p, file, false, lock);
    Goes(s, run', Compare(p), Stage(s, p, file, RemovingTemp, false, Some(lock)));
    run' := run' + [Compare(p)];
    RemoveTempStage(s, p, file, lock);
    Goes(s, run', RemoveTemp(p), Stage(s, p, file, Returned, false, Some(lock)).(names := s.names));
    run' := run' + [RemoveTemp(p)];
  }

  /** With a dead one. */
  lemma TakesOver(s: State, p: Pid, file: nat, owner: int, lock: nat, run: seq<Action>) returns (run': seq<Action>)
    requires owner != p && p in s.procs && !IsAlive(s, owner)
    requires PossibleRun(s, run) && Alone(run, p)
    requires Run(s, run) == Stage(s, p, file, CheckingOwner(owner, Some(lock)), false, Some(lock))
    ensures PossibleRun(s, run') && Run(s, run') == Stage(s, p, file, Returned, true, Some(file)) && Alone(run', p)
  {
    CheckStage(s, p, file, owner, lock);
    Goes(s, run, CheckOwner(p), Stage(s, p, file, Removing(Some(lock)), false, Some(lock)));
    run' := run + [CheckOwner(p)];
    RemoveStage(s, p, file, lock);
    Goes(s, run', Remove(p), Stage(s, p, file, Relinking, false, None));
    run' := TakesFree(s, p, file, Relinking, run' + [Remove(p)]);
  }

  lemma TryAlone(s: State, p: Pid, file: nat, run: seq<Action>) returns (run': seq<Action>)
    requires p in s.procs && file !in s.files && Temp(p) !in s.names
    requires LockPath in s.names ==> s.names[LockPath] in s.files && Owner(s) != p
    requires PossibleRun(s, run) && Alone(run, p)
    requires Run(s, run) == Stage(s, p, file, Writing(|Text(p)|), false, LockFile(s))
    ensures PossibleRun(s, run') && Alone(run', p)
    ensures Run(s, run') == if LockPath in s.names && IsAlive(s, Owner(s))
                            then Stage(s, p, file, Returned, false, LockFile(s)).(names := s.names)
                            else Stage(s, p, file, Returned, true, Some(file))
  {
    if LockPath !in s.names {
      run' := TakesFree(s, p, file, Writing(|Text(p)|), run);
    } else {
      var lock := s.names[LockPath];
      run' := ReadsOwner(s, p, file, lock, run);
      if IsAlive(s, Owner(s)) {
        run' := Refused(s, p, file, Owner(s), lock, run');
      } else {
        run' := TakesOver(s, p, file, Owner(s), lock, run');
      }
    }
  }

  /** A process that meets no failure and no other process on the way acquires the lock exactly if there is no lock
      file of a live owner: it then leaves its own pid there, and otherwise everything as it was. */
  lemma AcquireAlone(s: State, p: Pid, file: nat) returns (run: seq<Action>)
    requires Inv(s) && p in s.procs && s.procs[p] == IDLE && file !in s.files
    ensures PossibleRun(s, run) && Alone(run, p)
    ensures var t := Run(s, run);
            && p in t.procs && t.procs == s.procs[p := t.procs[p]] && t.procs[p].alive && t.procs[p].phase == Returned
            && (t.procs[p].acquired <==>
                !(LockPath in s.names && exists q :: q in s.procs && s.procs[q].alive && Owner(s) == q))
            && (t.procs[p].acquired ==> LockFile(t) == Some(file) && Owner(t) == p)
            && (!t.procs[p].acquired ==> t.names == s.names)
  {
    assert ProcessInv(s, p);
    OwnerOfPid(p);
    run := WritesAlone(s, p, file);
    WroteIsStage(s, p, file);
    run := TryAlone(s, p, file, run);
  }

  /** And one that then stops frees the path exactly if the path shows its own pid. */
  lemma ReleaseAlone(s: State, p: Pid) returns (run: seq<Action>)
    requires p in s.procs && s.procs[p].alive && s.procs[p].phase == Returned && !s.procs[p].released
    ensures PossibleRun(s, run) && Alone(run, p)
    ensures var t := Run(s, run);
            && p in t.procs && t.procs[p].phase == Stopped
            && t.names == (if Owner(s) == p then Without(s.names, LockPath) else s.names)
            && (t.procs[p].released <==> Owner(s) == p)
  {
    assert Run(s, []) == s;
    var t := Next(s, Stop(p));
    Goes(s, [], Stop(p), t);
    run := [] + [Stop(p)];
    var u := Next(t, ReadOwnPid(p));
    Goes(s, run, ReadOwnPid(p), u);
    run := run + [ReadOwnPid(p)];
    if Owner(s) == p {
      Goes(s, run, Release(p), Next(u, Release(p)));
      run := run + [Release(p)];
    }
  }
}
