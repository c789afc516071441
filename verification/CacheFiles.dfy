/** What a publication leaves on the disk: the permissions of the new image, and no staging file
    unless a process crashed while it had one. */
module CacheFiles {
  import opened Options
  import opened CacheProtocol

  // ----- permissions

  /** A replacement publishes the merge of what is there, with the permissions asked for; without
      any it keeps the nine permission bits of what is there, and a first image has those of a new file. */
  lemma ReplaceExactly(e: Env, s: State, p: nat)
    requires Inv(e, s) && Enabled(e, s, Replace(p))
    ensures
      var before, after, job := s.Current(), Apply(e, s, Replace(p)).Current(), s.procs[p].job;
      && after.Some? && after.value.data == job.merge(if before.Some? then Some(before.value.data) else None)
      && (job.mode.Some? ==> after.value.mode == job.mode.value)
      && (job.mode.None? && before.Some? ==> after.value.mode == before.value.mode % 512)
      && (job.mode.None? && before.None? ==> after.value.mode == e.newMode)
  {
    ReplaceInv(e, s, p);
  }

  ghost predicate NoModes(log: seq<Entry>) {
    forall i :: 0 <= i < |log| ==> log[i].job.mode.None?
  }

  lemma {:induction false} PermissionsNext(initial: Option<File>, log: seq<Entry>, newMode: nat, k: nat)
    requires NoModes(log) && k + 1 < |Images(initial, log, newMode)| && Images(initial, log, newMode)[k].Some?
    ensures Images(initial, log, newMode)[k+1].Some?
    ensures Images(initial, log, newMode)[k+1].value.mode == Images(initial, log, newMode)[k].value.mode % 512
  {
    var i := ImagesChain(initial, log, newMode, k);
  }

  /** However many jobs publish without asking for permissions: those of an image stay. */
  lemma {:induction false} PermissionsStay(initial: Option<File>, log: seq<Entry>, newMode: nat, j: nat, k: nat)
    requires NoModes(log) && j < k < |Images(initial, log, newMode)| && Images(initial, log, newMode)[j].Some?
    ensures Images(initial, log, newMode)[k].Some?
    ensures Images(initial, log, newMode)[k].value.mode == Images(initial, log, newMode)[j].value.mode % 512
  {
    if j + 1 < k {
      PermissionsStay(initial, log, newMode, j, k - 1);
    }
    PermissionsNext(initial, log, newMode, k - 1);
  }

  // ----- staging files

  ghost predicate Staged(s: State, name: nat) {
    exists p :: p in s.procs && s.procs[p].pc.HasTemp() && s.procs[p].pc.name == name
  }

  /** Names that are neither the destination's nor the lock's, and that no process is staging. */
  ghost function Stray(s: State): set<nat> {
    set n | n in s.dir && n != DEST && n != LOCK && !Staged(s, n)
  }

  /** A crash of a process that has a staging file. */
  predicate Abandons(s: State, step: Step) {
    step.Crash? && step.p in s.procs && s.procs[step.p].pc.HasTemp()
  }

  lemma OneStages(e: Env, s: State, p: nat, n: nat)
    requires Inv(e, s) && p in s.procs && s.procs[p].pc.HasLock() && Staged(s, n)
    ensures s.procs[p].pc.HasTemp() && s.procs[p].pc.name == n
  {
    var q :| q in s.procs && s.procs[q].pc.HasTemp() && s.procs[q].pc.name == n;
    MutualExclusion(e, s, p, q);
  }

  /** What each process but `p` stages it stages still. */
  ghost predicate StageOn(s: State, t: State, p: nat) {
    forall q :: q in s.procs && q != p && s.procs[q].pc.HasTemp() ==>
      q in t.procs && t.procs[q].pc.HasTemp() && t.procs[q].pc.name == s.procs[q].pc.name
  }

  ghost predicate NoNewNames(s: State, t: State) {
    forall n :: n in t.dir ==> n in s.dir || n == DEST || n == LOCK
  }

  lemma StagedStill(s: State, t: State, p: nat, n: nat)
    requires StageOn(s, t, p) && Staged(s, n)
    requires p in s.procs && s.procs[p].pc.HasTemp() ==> s.procs[p].pc.name != n
    ensures Staged(t, n)
  {
    var q :| q in s.procs && s.procs[q].pc.HasTemp() && s.procs[q].pc.name == n;
    assert t.procs[q].pc.HasTemp();
  }

  /** The process stages nothing, or gives its staging file up, and the name goes. */
  lemma GivenUp(s: State, t: State, p: nat)
    requires StageOn(s, t, p) && NoNewNames(s, t)
    requires p in s.procs && s.procs[p].pc.HasTemp() ==>
               s.procs[p].pc.name !in t.dir || s.procs[p].pc.name == DEST || s.procs[p].pc.name == LOCK
    ensures Stray(t) <= Stray(s)
  {
    forall n | Staged(s, n) ensures n !in Stray(t) {
      if !(p in s.procs && s.procs[p].pc.HasTemp() && s.procs[p].pc.name == n) {
        StagedStill(s, t, p, n);
      }
    }
  }

  /** The process stages what it did. */
  lemma StagesSame(s: State, t: State, p: nat)
    requires StageOn(s, t, p) && NoNewNames(s, t)
    requires p in s.procs && s.procs[p].pc.HasTemp() ==>
               p in t.procs && t.procs[p].pc.HasTemp() && t.procs[p].pc.name == s.procs[p].pc.name
    ensures Stray(t) <= Stray(s)
  {
    forall n | Staged(s, n) ensures n !in Stray(t) {
      if p in s.procs && s.procs[p].pc.HasTemp() && s.procs[p].pc.name == n {
        assert t.procs[p].pc.HasTemp();
      } else {
        StagedStill(s, t, p, n);
      }
    }
  }

  lemma CreateStages(e: Env, s: State, p: nat, name: nat, inode: nat)
    requires Enabled(e, s, CreateTemp(p, name, inode))
    ensures Stray(Apply(e, s, CreateTemp(p, name, inode))) <= Stray(s)
  {
    var t := Apply(e, s, CreateTemp(p, name, inode));
    assert t.procs[p].pc.HasTemp() && t.procs[p].pc.name == name;
    assert Staged(t, name);
    forall n | Staged(s, n) ensures n !in Stray(t) {
      StagedStill(s, t, p, n);
    }
  }

  lemma LockStrays(e: Env, s: State, p: nat, inode: nat)
    requires Enabled(e, s, OpenLock(p, inode))
    ensures Stray(Apply(e, s, OpenLock(p, inode))) <= Stray(s)
  {
    StagesSame(s, Apply(e, s, OpenLock(p, inode)), p);
  }

  lemma ReplaceStrays(e: Env, s: State, p: nat)
    requires Enabled(e, s, Replace(p))
    ensures Stray(Apply(e, s, Replace(p))) <= Stray(s)
  {
    GivenUp(s, Apply(e, s, Replace(p)), p);
  }

  lemma FailStrays(e: Env, s: State, p: nat)
    requires Enabled(e, s, Fail(p))
    ensures Stray(Apply(e, s, Fail(p))) <= Stray(s)
  {
    GivenUp(s, Apply(e, s, Fail(p)), p);
  }

  lemma CleanUpStrays(e: Env, s: State, p: nat)
    requires Enabled(e, s, CleanUp(p))
    ensures Stray(Apply(e, s, CleanUp(p))) <= Stray(s)
  {
    StagesSame(s, Apply(e, s, CleanUp(p)), p);
  }

  /** Steps that only a process or a reader takes note of, or that write to a file. */
  lemma QuietStrays(e: Env, s: State, step: Step, p: nat)
    requires Enabled(e, s, step)
    requires !step.OpenLock? && !step.CreateTemp? && !step.Replace? && !step.CleanUp? && !step.Fail? && !step.Crash?
    ensures Stray(Apply(e, s, step)) <= Stray(s)
  {
    var t := Apply(e, s, step);
    assert t.dir == s.dir;
    StagesSame(s, t, if step.OpenReader? || step.CloseReader? then p else step.p);
  }

  /** No step leaves a stray name but a crash of a process that is staging, and that leaves just the
      name of its staging file. */
  lemma OnlyCrashesStray(e: Env, s: State, step: Step)
    requires Inv(e, s) && Enabled(e, s, step)
    ensures !Abandons(s, step) ==> Stray(Apply(e, s, step)) <= Stray(s)
    ensures Abandons(s, step) ==> Stray(Apply(e, s, step)) == Stray(s) + {s.procs[step.p].pc.name}
  {
    match step
    case CreateTemp(p, name, inode) => CreateStages(e, s, p, name, inode);
    case OpenLock(p, inode) => LockStrays(e, s, p, inode);
    case Replace(p) => ReplaceStrays(e, s, p);
    case Fail(p) => FailStrays(e, s, p);
    case CleanUp(p) => CleanUpStrays(e, s, p);
    case Crash(p) => CrashStrays(e, s, p);
    case _ => QuietStrays(e, s, step, 0);
  }

  lemma CrashStrays(e: Env, s: State, p: nat)
    requires Inv(e, s) && p in s.procs
    ensures Stray(Apply(e, s, Crash(p))) == Stray(s) + if s.procs[p].pc.HasTemp() then {s.procs[p].pc.name} else {}
  {
    var t := Apply(e, s, Crash(p));
    assert t.dir == s.dir;
    if s.procs[p].pc.HasTemp() {
      var name := s.procs[p].pc.name;
      assert StageInv(e, s, p) && Staged(s, name);
      forall q | q in t.procs ensures !t.procs[q].pc.HasTemp() {
        if s.procs[q].pc.HasTemp() {
          MutualExclusion(e, s, p, q);
        }
      }
      forall n | Staged(s, n) ensures n == name {
        OneStages(e, s, p, n);
      }
    } else {
      StagesSame(s, t, p);
      StagesSame(t, s, p);
    }
  }

  ghost predicate Calm(e: Env, s: State, t: State) {
    exists step :: Enabled(e, s, step) && t == Apply(e, s, step) && !Abandons(s, step)
  }

  /** However long an execution goes on without such a crash, no name is left behind. */
  lemma {:induction false} CalmLeavesNothing(e: Env, states: seq<State>, i: nat, j: nat)
    requires Execution(e, states) && i <= j < |states|
    requires forall k :: i < k <= j ==> Calm(e, states[k-1], states[k])
    ensures Stray(states[j]) <= Stray(states[i])
  {
    if i < j {
      CalmLeavesNothing(e, states, i, j - 1);
      AlwaysInv(e, states, j - 1);
      assert Calm(e, states[j-1], states[j]);
      CalmStep(e, states[j-1], states[j]);
    }
  }

  lemma CalmStep(e: Env, s: State, t: State)
    requires Inv(e, s) && Calm(e, s, t)
    ensures Stray(t) <= Stray(s)
  {
    var step :| Enabled(e, s, step) && t == Apply(e, s, step) && !Abandons(s, step);
    OnlyCrashesStray(e, s, step);
  }
}
