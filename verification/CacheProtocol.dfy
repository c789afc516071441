/** Publishing a cache file: processes that lock, read, merge and replace it, and readers
    that do not lock, as interleaved steps over a file system of names and inodes. */
module CacheProtocol {
  import opened Options

  type Data = seq<nat>

  /** Contents and permission bits of an inode. */
  datatype File = File(data: Data, mode: nat)

  /** One read-merge-publish: what to make of the contents read (if the file exists), and
      the permissions asked for (if any). */
  datatype Job = Job(merge: Option<Data> -> Data, mode: Option<nat>)

  /** Where a process is. The lock file is open from `Waiting` on; the lock is held in
      every later state but `Dead`. */
  datatype Pc =
    | Idle
    | Waiting(lock: nat)
    | Holding(lock: nat)
    | Merged(lock: nat, data: Data)
    | Writing(lock: nat, data: Data, name: nat, inode: nat)
    | Ready(lock: nat, name: nat, inode: nat)
    | Published(lock: nat, name: nat)
    | Dead
  {
    predicate HasLock() {
      Holding? || Merged? || Writing? || Ready? || Published?
    }

    predicate Unpublished() {
      Holding? || Merged? || Writing? || Ready?
    }

    predicate HasTemp() {
      Writing? || Ready?
    }
  }

  datatype Proc = Proc(job: Job, pc: Pc)

  /** An open descriptor of the destination, and which of the images it was opened on. */
  datatype Reader = Reader(inode: nat, image: int)

  /** An acquisition of the lock, and whether its holder published. */
  datatype Entry = Entry(job: Job, published: bool)

  /** Names of the two well-known files; every other name is a staging file's. */
  const DEST: nat := 0
  const LOCK: nat := 1

  /** `holder` maps the inode of a locked file to the process whose descriptor holds the
      lock. `initial`, `log` and `images` only record what happened. */
  datatype State = State(
    dir: map<nat, nat>,
    files: map<nat, File>,
    holder: map<nat, nat>,
    procs: map<nat, Proc>,
    readers: map<nat, Reader>,
    initial: Option<File>,
    log: seq<Entry>,
    images: seq<Option<File>>)
  {
    /** What is published now. */
    function Current(): Option<File> {
      if DEST in dir && dir[DEST] in files then Some(files[dir[DEST]]) else None
    }

    function With(p: nat, pc: Pc): State
      requires p in procs
    {
      this.(procs := procs[p := procs[p].(pc := pc)])
    }
  }

  function DataOf(f: Option<File>): Option<Data> {
    if f.Some? then Some(f.value.data) else None
  }

  /** The image a job publishes over `prev`: its permissions are those asked for, or else
      those of the previous image, or else those of a new file, `newMode`. */
  function Publish(prev: Option<File>, job: Job, newMode: nat): File {
    var mode := if job.mode.Some? then job.mode.value else if prev.Some? then prev.value.mode % 0x200 else newMode;
    File(job.merge(DataOf(prev)), mode)
  }

  /** The images, oldest first, that publishing the jobs of the log in order produces. */
  function Images(initial: Option<File>, log: seq<Entry>, newMode: nat): (r: seq<Option<File>>)
    ensures |r| > 0
  {
    if log == [] then [initial]
    else
      var before := Images(initial, log[..|log| - 1], newMode);
      var last := log[|log| - 1];
      if last.published then before + [Some(Publish(before[|before| - 1], last.job, newMode))] else before
  }

  datatype Step =
    | Start(p: nat, job: Job)
    | OpenLock(p: nat, inode: nat)
    | TakeLock(p: nat)
    | GiveUp(p: nat)
    | ReadAndMerge(p: nat)
    | CreateTemp(p: nat, name: nat, inode: nat)
    | WriteMore(p: nat, n: nat)
    | SetMode(p: nat)
    | Replace(p: nat)
    | CleanUp(p: nat)
    | Fail(p: nat)
    | Crash(p: nat)
    | OpenReader(r: nat)
    | CloseReader(r: nat)

  /** `umask` leaves `newMode` of the permissions of a new file. */
  datatype Env = Env(newMode: nat)

  predicate Enabled(e: Env, s: State, step: Step) {
    match step
    case Start(p, job) => p in s.procs ==> s.procs[p].pc.Idle?
    case OpenLock(p, inode) =>
      p in s.procs && s.procs[p].pc.Idle? && (LOCK !in s.dir ==> inode !in s.files)
    case TakeLock(p) => p in s.procs && s.procs[p].pc.Waiting? && s.procs[p].pc.lock !in s.holder
    case GiveUp(p) => p in s.procs && s.procs[p].pc.Waiting?
    case ReadAndMerge(p) => p in s.procs && s.procs[p].pc.Holding?
    case CreateTemp(p, name, inode) =>
      p in s.procs && s.procs[p].pc.Merged? && name != DEST && name != LOCK && name !in s.dir && inode !in s.files
    case WriteMore(p, n) =>
      p in s.procs && s.procs[p].pc.Writing? && s.procs[p].pc.inode in s.files
      && |s.files[s.procs[p].pc.inode].data| + n <= |s.procs[p].pc.data|
    case SetMode(p) =>
      p in s.procs && s.procs[p].pc.Writing? && s.procs[p].pc.inode in s.files
      && |s.files[s.procs[p].pc.inode].data| == |s.procs[p].pc.data|
    case Replace(p) => p in s.procs && s.procs[p].pc.Ready?
    case CleanUp(p) => p in s.procs && s.procs[p].pc.Published?
    case Fail(p) => p in s.procs && (s.procs[p].pc.Waiting? || s.procs[p].pc.HasLock())
    case Crash(p) => p in s.procs
    case OpenReader(r) => r !in s.readers && DEST in s.dir
    case CloseReader(r) => r in s.readers
  }

  /** The state after a process has closed its descriptors: the lock, if held, is free. */
  function Closed(s: State, p: nat, pc: Pc): State
    requires p in s.procs
  {
    var held := s.procs[p].pc;
    s.With(p, pc).(holder := if held.HasLock() then s.holder - {held.lock} else s.holder)
  }

  function MarkPublished(log: seq<Entry>): seq<Entry> {
    if log == [] then [] else log[|log| - 1 := log[|log| - 1].(published := true)]
  }

  function Unlink(dir: map<nat, nat>, name: nat): map<nat, nat> {
    dir - {name}
  }

  function Apply(e: Env, s: State, step: Step): State
    requires Enabled(e, s, step)
  {
    match step
    case Start(p, job) => s.(procs := s.procs[p := Proc(job, Idle)])
    case OpenLock(p, inode) =>
      // the lock file is created if missing and never removed
      if LOCK in s.dir then s.With(p, Waiting(s.dir[LOCK]))
      else s.With(p, Waiting(inode)).(dir := s.dir[LOCK := inode], files := s.files[inode := File([], 0x180)])
    case TakeLock(p) =>
      var lock := s.procs[p].pc.lock;
      s.With(p, Holding(lock)).(holder := s.holder[lock := p], log := s.log + [Entry(s.procs[p].job, false)])
    case GiveUp(p) => s.With(p, Idle)
    case ReadAndMerge(p) =>
      s.With(p, Merged(s.procs[p].pc.lock, s.procs[p].job.merge(DataOf(s.Current()))))
    case CreateTemp(p, name, inode) =>
      s.With(p, Writing(s.procs[p].pc.lock, s.procs[p].pc.data, name, inode))
       .(dir := s.dir[name := inode], files := s.files[inode := File([], e.newMode)])
    case WriteMore(p, n) =>
      var pc := s.procs[p].pc;
      var file := s.files[pc.inode];
      s.(files := s.files[pc.inode := file.(data := pc.data[..|file.data| + n])])
    case SetMode(p) =>
      var pc := s.procs[p].pc;
      var job := s.procs[p].job;
      var mode := if job.mode.Some? then job.mode.value
                  else if s.Current().Some? then s.Current().value.mode % 0x200 else s.files[pc.inode].mode;
      s.With(p, Ready(pc.lock, pc.name, pc.inode)).(files := s.files[pc.inode := s.files[pc.inode].(mode := mode)])
    case Replace(p) =>
      // one atomic rename
      var pc := s.procs[p].pc;
      var t := s.With(p, Published(pc.lock, pc.name)).(dir := Unlink(s.dir, pc.name)[DEST := pc.inode]);
      t.(log := MarkPublished(s.log), images := s.images + [t.Current()])
    case CleanUp(p) =>
      Closed(s, p, Idle).(dir := Unlink(s.dir, s.procs[p].pc.name))
    case Fail(p) =>
      // an exception: the staging file is removed and the lock released
      var pc := s.procs[p].pc;
      Closed(s, p, Idle).(dir := if pc.HasTemp() || pc.Published? then Unlink(s.dir, pc.name) else s.dir)
    case Crash(p) => Closed(s, p, Dead)
    case OpenReader(r) => s.(readers := s.readers[r := Reader(s.dir[DEST], |s.images| - 1)])
    case CloseReader(r) => s.(readers := s.readers - {r})
  }

  ghost predicate Next(e: Env, s: State, t: State) {
    exists step :: Enabled(e, s, step) && t == Apply(e, s, step)
  }

  /** Before anything happened: no process, no lock held, perhaps a first image. */
  ghost predicate Init(s: State) {
    && s.procs == map[] && s.holder == map[] && s.readers == map[] && s.log == []
    && (forall n :: n in s.dir ==> s.dir[n] in s.files) && LOCK !in s.dir
    && s.initial == s.Current() && s.images == [s.initial]
  }

  // ----- the invariant

  /** The lock file, once made, is always the same inode, and it is not the destination's. */
  ghost predicate LockInv(s: State) {
    && (forall p :: p in s.procs && (s.procs[p].pc.Waiting? || s.procs[p].pc.HasLock()) ==>
          LOCK in s.dir && s.procs[p].pc.lock == s.dir[LOCK])
    && (forall i :: i in s.holder ==> s.holder[i] in s.procs && s.procs[s.holder[i]].pc.HasLock() && s.procs[s.holder[i]].pc.lock == i)
    && (forall p :: p in s.procs && s.procs[p].pc.HasLock() ==> s.procs[p].pc.lock in s.holder && s.holder[s.procs[p].pc.lock] == p)
  }

  /** Every named inode exists, and the destination's is the last image. */
  ghost predicate FileInv(s: State) {
    && (forall n :: n in s.dir ==> s.dir[n] in s.files)
    && (LOCK in s.dir && DEST in s.dir ==> s.dir[LOCK] != s.dir[DEST])
    && |s.images| > 0 && s.images[|s.images| - 1] == s.Current()
  }

  /** The images are the merges of those who published, composed in lock order. */
  ghost predicate HistoryInv(e: Env, s: State) {
    s.images == Images(s.initial, s.log, e.newMode)
  }

  /** What the lock holder has read, merged and staged so far. */
  ghost predicate StageInv(e: Env, s: State, p: nat)
    requires p in s.procs
  {
    var pc := s.procs[p].pc;
    var job := s.procs[p].job;
    && (pc.Unpublished() ==> s.log != [] && s.log[|s.log| - 1] == Entry(job, false))
    && ((pc.Merged? || pc.Writing?) ==> pc.data == job.merge(DataOf(s.Current())))
    && (pc.HasTemp() ==>
          && pc.name != DEST && pc.name != LOCK && pc.name in s.dir && s.dir[pc.name] == pc.inode
          && pc.inode in s.files && (LOCK in s.dir ==> pc.inode != s.dir[LOCK]) && (DEST in s.dir ==> pc.inode != s.dir[DEST])
          && (forall r :: r in s.readers ==> s.readers[r].inode != pc.inode))
    && (pc.Writing? ==> s.files[pc.inode].data <= pc.data && s.files[pc.inode].mode == e.newMode)
    && (pc.Ready? ==> s.files[pc.inode] == Publish(s.Current(), job, e.newMode))
    && (pc.Published? ==> pc.name != DEST && pc.name != LOCK)
  }

  /** An open reader's inode still holds the image it was opened on. */
  ghost predicate ReaderInv(s: State) {
    forall r :: r in s.readers ==>
      var d := s.readers[r];
      d.inode in s.files && 0 <= d.image < |s.images| && s.images[d.image] == Some(s.files[d.inode])
      && (LOCK in s.dir ==> d.inode != s.dir[LOCK])
  }

  ghost predicate Inv(e: Env, s: State) {
    && LockInv(s) && FileInv(s) && HistoryInv(e, s) && ReaderInv(s)
    && forall p :: p in s.procs ==> StageInv(e, s, p)
  }

  lemma InitInv(e: Env, s: State)
    requires Init(s)
    ensures Inv(e, s)
  {
  }

  /** At most one process is between taking the lock and releasing it. */
  lemma MutualExclusion(e: Env, s: State, p: nat, q: nat)
    requires Inv(e, s) && p in s.procs && q in s.procs && s.procs[p].pc.HasLock() && s.procs[q].pc.HasLock()
    ensures p == q
  {
  }

  // ----- every step keeps the invariant

  lemma StartInv(e: Env, s: State, p: nat, job: Job)
    requires Inv(e, s) && Enabled(e, s, Start(p, job))
    ensures Inv(e, Apply(e, s, Start(p, job)))
  {
    var t := Apply(e, s, Start(p, job));
    forall q | q in t.procs ensures StageInv(e, t, q) {
      if q != p {
        assert StageInv(e, s, q);
      }
    }
  }

  lemma OpenLockInv(e: Env, s: State, p: nat, inode: nat)
    requires Inv(e, s) && Enabled(e, s, OpenLock(p, inode))
    ensures Inv(e, Apply(e, s, OpenLock(p, inode)))
  {
    var t := Apply(e, s, OpenLock(p, inode));
    if LOCK in s.dir {
      OldLockInv(e, s, t, p);
    } else {
      NewLockInv(e, s, t, p, inode);
    }
  }

  lemma OldLockInv(e: Env, s: State, t: State, p: nat)
    requires Inv(e, s) && p in s.procs && s.procs[p].pc.Idle? && LOCK in s.dir && t == s.With(p, Waiting(s.dir[LOCK]))
    ensures Inv(e, t)
  {
    assert t.Current() == s.Current();
    forall q | q in t.procs ensures StageInv(e, t, q) {
      assert StageInv(e, s, q);
    }
  }

  lemma NewLockInv(e: Env, s: State, t: State, p: nat, inode: nat)
    requires Inv(e, s) && p in s.procs && s.procs[p].pc.Idle? && LOCK !in s.dir && inode !in s.files
    requires t == s.With(p, Waiting(inode)).(dir := s.dir[LOCK := inode], files := s.files[inode := File([], 0x180)])
    ensures Inv(e, t)
  {
    assert t.Current() == s.Current();
    forall q | q in t.procs ensures StageInv(e, t, q) {
      assert StageInv(e, s, q);
    }
  }

  lemma TakeLockInv(e: Env, s: State, p: nat)
    requires Inv(e, s) && Enabled(e, s, TakeLock(p))
    ensures Inv(e, Apply(e, s, TakeLock(p)))
  {
    var t := Apply(e, s, TakeLock(p));
    assert t.Current() == s.Current();
    assert t.log[..|t.log| - 1] == s.log;
    forall q | q in t.procs && q != p ensures StageInv(e, t, q) {
      assert StageInv(e, s, q);
      assert !s.procs[q].pc.HasLock();
    }
  }

  lemma GiveUpInv(e: Env, s: State, p: nat)
    requires Inv(e, s) && Enabled(e, s, GiveUp(p))
    ensures Inv(e, Apply(e, s, GiveUp(p)))
  {
    var t := Apply(e, s, GiveUp(p));
    forall q | q in t.procs ensures StageInv(e, t, q) {
      assert StageInv(e, s, q);
    }
  }

  lemma ReadAndMergeInv(e: Env, s: State, p: nat)
    requires Inv(e, s) && Enabled(e, s, ReadAndMerge(p))
    ensures Inv(e, Apply(e, s, ReadAndMerge(p)))
  {
    var t := Apply(e, s, ReadAndMerge(p));
    forall q | q in t.procs ensures StageInv(e, t, q) {
      assert StageInv(e, s, q);
    }
  }

  lemma CreateTempInv(e: Env, s: State, p: nat, name: nat, inode: nat)
    requires Inv(e, s) && Enabled(e, s, CreateTemp(p, name, inode))
    ensures Inv(e, Apply(e, s, CreateTemp(p, name, inode)))
  {
    var t := Apply(e, s, CreateTemp(p, name, inode));
    assert t.Current() == s.Current();
    forall q | q in t.procs ensures StageInv(e, t, q) {
      assert StageInv(e, s, q);
    }
  }

  lemma WriteMoreInv(e: Env, s: State, p: nat, n: nat)
    requires Inv(e, s) && Enabled(e, s, WriteMore(p, n))
    ensures Inv(e, Apply(e, s, WriteMore(p, n)))
  {
    var t := Apply(e, s, WriteMore(p, n));
    assert StageInv(e, s, p);
    assert t.Current() == s.Current();
    forall q | q in t.procs ensures StageInv(e, t, q) {
      assert StageInv(e, s, q);
    }
  }

  lemma SetModeInv(e: Env, s: State, p: nat)
    requires Inv(e, s) && Enabled(e, s, SetMode(p))
    ensures Inv(e, Apply(e, s, SetMode(p)))
  {
    var t := Apply(e, s, SetMode(p));
    assert StageInv(e, s, p);
    assert t.Current() == s.Current();
    assert s.files[s.procs[p].pc.inode].data == s.procs[p].pc.data;
    forall q | q in t.procs ensures StageInv(e, t, q) {
      assert StageInv(e, s, q);
    }
  }

  lemma ReplaceInv(e: Env, s: State, p: nat)
    requires Inv(e, s) && Enabled(e, s, Replace(p))
    ensures Inv(e, Apply(e, s, Replace(p)))
    ensures Apply(e, s, Replace(p)).Current() == Some(Publish(s.Current(), s.procs[p].job, e.newMode))
  {
    var t := Apply(e, s, Replace(p));
    assert StageInv(e, s, p);
    assert t.Current() == Some(s.files[s.procs[p].pc.inode]);
    assert t.log[..|t.log| - 1] == s.log[..|s.log| - 1];
    forall q | q in t.procs ensures StageInv(e, t, q) {
      assert StageInv(e, s, q);
    }
  }

  lemma CleanUpInv(e: Env, s: State, p: nat)
    requires Inv(e, s) && Enabled(e, s, CleanUp(p))
    ensures Inv(e, Apply(e, s, CleanUp(p)))
  {
    var t := Apply(e, s, CleanUp(p));
    assert StageInv(e, s, p);
    assert t.Current() == s.Current();
    forall q | q in t.procs ensures StageInv(e, t, q) {
      assert StageInv(e, s, q);
    }
  }

  lemma FailInv(e: Env, s: State, p: nat)
    requires Inv(e, s) && Enabled(e, s, Fail(p))
    ensures Inv(e, Apply(e, s, Fail(p)))
  {
    var t := Apply(e, s, Fail(p));
    assert StageInv(e, s, p);
    assert t.Current() == s.Current();
    forall q | q in t.procs ensures StageInv(e, t, q) {
      assert StageInv(e, s, q);
      assert q != p && s.procs[p].pc.HasLock() ==> !s.procs[q].pc.HasLock();
    }
  }

  lemma CrashInv(e: Env, s: State, p: nat)
    requires Inv(e, s) && Enabled(e, s, Crash(p))
    ensures Inv(e, Apply(e, s, Crash(p)))
  {
    var t := Apply(e, s, Crash(p));
    assert t.Current() == s.Current();
    forall q | q in t.procs ensures StageInv(e, t, q) {
      assert StageInv(e, s, q);
    }
  }

  lemma ReaderStepsInv(e: Env, s: State, step: Step)
    requires Inv(e, s) && Enabled(e, s, step) && (step.OpenReader? || step.CloseReader?)
    ensures Inv(e, Apply(e, s, step))
  {
    ReadersChangedInv(e, s, Apply(e, s, step));
  }

  lemma ReadersChangedInv(e: Env, s: State, t: State)
    requires Inv(e, s) && t == s.(readers := t.readers)
    requires forall r :: r in t.readers ==>
               (r in s.readers && t.readers[r] == s.readers[r])
               || (DEST in s.dir && t.readers[r] == Reader(s.dir[DEST], |s.images| - 1))
    ensures Inv(e, t)
  {
    forall q | q in t.procs ensures StageInv(e, t, q) {
      assert StageInv(e, s, q);
    }
  }

  lemma StepInv(e: Env, s: State, step: Step)
    requires Inv(e, s) && Enabled(e, s, step)
    ensures Inv(e, Apply(e, s, step))
  {
    match step
    case Start(p, job) => StartInv(e, s, p, job);
    case OpenLock(p, inode) => OpenLockInv(e, s, p, inode);
    case TakeLock(p) => TakeLockInv(e, s, p);
    case GiveUp(p) => GiveUpInv(e, s, p);
    case ReadAndMerge(p) => ReadAndMergeInv(e, s, p);
    case CreateTemp(p, name, inode) => CreateTempInv(e, s, p, name, inode);
    case WriteMore(p, n) => WriteMoreInv(e, s, p, n);
    case SetMode(p) => SetModeInv(e, s, p);
    case Replace(p) => ReplaceInv(e, s, p);
    case CleanUp(p) => CleanUpInv(e, s, p);
    case Fail(p) => FailInv(e, s, p);
    case Crash(p) => CrashInv(e, s, p);
    case OpenReader(_) => ReaderStepsInv(e, s, step);
    case CloseReader(_) => ReaderStepsInv(e, s, step);
  }

  // ----- whole executions

  /** Any interleaving of any number of processes and readers, crashes and failures
      included. */
  ghost predicate Execution(e: Env, states: seq<State>) {
    && |states| > 0 && Init(states[0])
    && forall i :: 0 < i < |states| ==> NextAt(e, states, i)
  }

  ghost predicate NextAt(e: Env, states: seq<State>, i: nat)
    requires 0 < i < |states|
  {
    Next(e, states[i-1], states[i])
  }

  lemma {:induction false} AlwaysInv(e: Env, states: seq<State>, i: nat)
    requires Execution(e, states) && i < |states|
    ensures Inv(e, states[i])
  {
    if i == 0 {
      InitInv(e, states[0]);
    } else {
      AlwaysInv(e, states, i - 1);
      assert NextAt(e, states, i);
      var step :| Enabled(e, states[i-1], step) && states[i] == Apply(e, states[i-1], step);
      StepInv(e, states[i-1], step);
    }
  }

  /** A step leaves the published image alone, or is a rename, and then it publishes the
      merge of exactly what was published just before it: locking makes the whole
      read-merge-publish one atomic update. */
  lemma StepAtomic(e: Env, s: State, step: Step)
    requires Inv(e, s) && Enabled(e, s, step)
    ensures
      var t := Apply(e, s, step);
      t.Current() == if step.Replace? then Some(Publish(s.Current(), s.procs[step.p].job, e.newMode)) else s.Current()
  {
    match step
    case Replace(p) => ReplaceInv(e, s, p);
    case OpenLock(p, inode) => assert Apply(e, s, step).Current() == s.Current();
    case CreateTemp(p, name, inode) => assert Apply(e, s, step).Current() == s.Current();
    case WriteMore(p, n) => assert StageInv(e, s, p);
    case SetMode(p) => assert StageInv(e, s, p);
    case CleanUp(p) => assert StageInv(e, s, p);
    case Fail(p) => assert StageInv(e, s, p);
    case _ =>
  }

  lemma StepHistory(e: Env, s: State, step: Step)
    requires Inv(e, s) && Enabled(e, s, step)
    ensures s.images <= Apply(e, s, step).images && s.initial == Apply(e, s, step).initial
    ensures
      var t := Apply(e, s, step);
      |s.log| <= |t.log| && forall k :: 0 <= k < |s.log| ==> s.log[k].job == t.log[k].job && (s.log[k].published ==> t.log[k].published)
  {
    match step
    case Replace(p) => ReplaceInv(e, s, p);
    case _ =>
  }

  /** Images are only ever added: what was published stays part of the history. */
  lemma {:induction false} HistoryGrows(e: Env, states: seq<State>, i: nat, j: nat)
    requires Execution(e, states) && i <= j < |states|
    ensures states[i].images <= states[j].images && states[i].initial == states[j].initial
    ensures |states[i].log| <= |states[j].log|
    ensures forall k :: 0 <= k < |states[i].log| ==>
              states[i].log[k].job == states[j].log[k].job && (states[i].log[k].published ==> states[j].log[k].published)
  {
    if i < j {
      HistoryGrows(e, states, i, j - 1);
      AlwaysInv(e, states, j - 1);
      assert NextAt(e, states, j);
      var step :| Enabled(e, states[j-1], step) && states[j] == Apply(e, states[j-1], step);
      StepHistory(e, states[j-1], step);
    }
  }

  /** No update is lost: at every moment of every execution the destination is the
      composition, in the order in which they took the lock, of all jobs that published,
      applied to what was there at the beginning. */
  lemma NoLostUpdate(e: Env, states: seq<State>, i: nat)
    requires Execution(e, states) && i < |states|
    ensures
      var images := Images(states[0].initial, states[i].log, e.newMode);
      states[i].Current() == images[|images| - 1]
  {
    AlwaysInv(e, states, i);
    HistoryGrows(e, states, 0, i);
  }

  /** An open reader sees, as long as it stays open, the complete image it was opened on. */
  lemma ReaderKeepsImage(e: Env, states: seq<State>, i: nat, j: nat, r: nat)
    requires Execution(e, states) && i <= j < |states|
    requires r in states[i].readers && r in states[j].readers && states[i].readers[r] == states[j].readers[r]
    ensures
      var inode := states[i].readers[r].inode;
      && inode in states[i].files && inode in states[j].files && states[i].files[inode] == states[j].files[inode]
      && Some(states[i].files[inode]) in states[i].images
  {
    AlwaysInv(e, states, i);
    AlwaysInv(e, states, j);
    HistoryGrows(e, states, i, j);
  }

  /** Readers that open later see the same image or a later one. */
  lemma ReadersMonotone(e: Env, states: seq<State>, i: nat, j: nat, q: nat, r: nat)
    requires Execution(e, states) && 0 < i <= j < |states|
    requires Enabled(e, states[i-1], OpenReader(q)) && states[i] == Apply(e, states[i-1], OpenReader(q))
    requires Enabled(e, states[j-1], OpenReader(r)) && states[j] == Apply(e, states[j-1], OpenReader(r))
    ensures states[i].readers[q].image <= states[j].readers[r].image
    ensures
      var inode := states[j].readers[r].inode;
      inode in states[j].files && Some(states[j].files[inode]) == states[j-1].Current()
  {
    HistoryGrows(e, states, i - 1, j - 1);
    AlwaysInv(e, states, j - 1);
  }

  /** The images are a chain: each is what one job of the log published over the one before. */
  lemma {:induction false} ImagesChain(initial: Option<File>, log: seq<Entry>, newMode: nat, k: nat) returns (i: nat)
    requires k + 1 < |Images(initial, log, newMode)|
    ensures i < |log| && log[i].published
    ensures Images(initial, log, newMode)[k+1] == Some(Publish(Images(initial, log, newMode)[k], log[i].job, newMode))
    ensures |Images(initial, log[..i], newMode)| == k + 1
  {
    var n := |log| - 1;
    if k + 1 < |Images(initial, log[..n], newMode)| {
      i := ImagesChain(initial, log[..n], newMode, k);
      assert log[..n][..i] == log[..i];
    } else {
      i := n;
    }
  }
}
