/**
  What restores, jobs and recoveries leave behind, over every run.
*/
module JobEffects {
  import opened DoubleSubset
  import opened JobProtocol
  import opened JobRuns

  // ----- Restores -----

  // A restore of this backup is under way or done; once it has read the backup it holds its content.
  predicate Restoring(s: State, path: Path, key: Key) {
    s.restore == Locked(path, key) || s.restore == Checked(path, key) || s.restore == Loaded(path, key.digest) || s.restore == Replaced
  }

  // Nothing ends the transaction.
  predicate GoesOn(a: Action) {
    a != EndRestore && a != Crash
  }

  predicate OfRestore(a: Action) {
    a.LockRestore? || a.CheckRestore? || a.LoadRestore? || a.ReplaceFile? || a.EndRestore? || a.Crash?
  }

  lemma RestoreWaits(s: State, a: Action)
    requires Enabled(s, a) && !OfRestore(a)
    ensures Do(s, a).restore == s.restore
  {
    hide Accepted, SubsetWrites, ActiveOn, Move, Resent;
  }

  lemma RestoreMoves(s: State, a: Action, path: Path, key: Key)
    requires Enabled(s, a) && OfRestore(a) && GoesOn(a) && Restoring(s, path, key)
    requires forall k :: k in s.store ==> s.store[k] == k.digest
    ensures Restoring(Do(s, a), path, key)
  {
    hide Accepted, SubsetWrites, ActiveOn, Move, Resent;
  }

  lemma RestoreStep(s: State, a: Action, path: Path, key: Key)
    requires Inv(s) && Enabled(s, a) && GoesOn(a) && Restoring(s, path, key)
    ensures Restoring(Do(s, a), path, key)
  {
    if OfRestore(a) {
      StoreIsSound(s);
      hide Inv, Do, Enabled;
      RestoreMoves(s, a, path, key);
    } else {
      hide Inv, Do, Enabled;
      RestoreWaits(s, a);
    }
  }

  lemma StoreIsSound(s: State)
    requires Inv(s)
    ensures forall k :: k in s.store ==> s.store[k] == k.digest
    ensures forall row :: row in s.rows ==> row.key in s.store
  {
    hide TasksOk, OnePlace, OneActive, OriginalsKept, RestoreAlone, SubsetStays;
  }

  lemma {:induction false} RestoreGoesOn(r: Run, i: nat, k: nat, path: Path, key: Key)
    requires IsRun(r) && i < k < |r.states| && r.actions[i] == LockRestore(path, key)
    requires forall j :: i < j < k ==> GoesOn(r.actions[j])
    ensures Restoring(r.states[k], path, key)
    decreases k
  {
    hide *;
    StepAt(r, k - 1);
    if i + 1 < k {
      RestoreGoesOn(r, i, k - 1, path, key);
      RunHolds(r, k - 1);
      RestoreStep(r.states[k - 1], r.actions[k - 1], path, key);
    } else {
      LockStarts(r.states[i], path, key);
    }
  }

  lemma LockStarts(s: State, path: Path, key: Key)
    requires Enabled(s, LockRestore(path, key))
    ensures Restoring(Do(s, LockRestore(path, key)), path, key)
  {
    hide Accepted, SubsetWrites, ActiveOn;
  }

  lemma ReplaceWrites(s: State, path: Path, key: Key)
    requires Enabled(s, ReplaceFile) && Restoring(s, path, key)
    ensures path in Do(s, ReplaceFile).files && Do(s, ReplaceFile).files[path] == key.digest
  {
  }

  /**
    What a restore writes: the content of the backup it was asked for, as it was when the restore
    began, and that is the content the backup was made of.
  */
  lemma {:induction false} RestoreWritesBackup(r: Run, i: nat, k: nat, path: Path, key: Key)
    requires IsRun(r) && i < k < |r.actions| && r.actions[i] == LockRestore(path, key) && r.actions[k] == ReplaceFile
    requires forall j :: i < j < k ==> GoesOn(r.actions[j])
    ensures key in r.states[i].store && r.states[i].store[key] == key.digest
    ensures path in r.states[k + 1].files && r.states[k + 1].files[path] == r.states[i].store[key]
  {
    RunHolds(r, i);
    StoreIsSound(r.states[i]);
    StepAt(r, i);
    StepAt(r, k);
    RestoreGoesOn(r, i, k, path, key);
    hide Inv, IsRun, Do, Accepted, Restoring;
    ReplaceWrites(r.states[k], path, key);
  }

  /** Restoring a backup of what a path first held brings the original back. */
  lemma OriginalComesBack(r: Run, i: nat, k: nat, path: Path, key: Key)
    requires IsRun(r) && i < k < |r.actions| && r.actions[i] == LockRestore(path, key) && r.actions[k] == ReplaceFile
    requires forall j :: i < j < k ==> GoesOn(r.actions[j])
    requires path in r.states[i].first && key in r.states[i].store && r.states[i].store[key] == r.states[i].first[path]
    ensures path in r.states[k + 1].files && path in r.states[k + 1].first
    ensures r.states[k + 1].files[path] == r.states[k + 1].first[path] == r.states[i].first[path]
  {
    RestoreWritesBackup(r, i, k, path, key);
    FirstFixed(r, i, k + 1, path);
  }

  // ----- Jobs -----

  // Nothing takes the task away, and nothing but its own steps moves it.
  predicate StaysAtWork(a: Action, task: nat) {
    && a != Crash && a != Drop(task) && a != Err(task) && a != Finish(task) && a != FailJob(task) && a != Abandon(task)
    && a != WriteFile(task)
  }

  // The task still has what it read and what it is going to write.
  predicate Carries(s: State, task: nat, path: Path, bytes: Content, out: Content) {
    && task in s.tasks && s.tasks[task].path == path
    && var pc := s.tasks[task].pc;
       || pc == Planned(bytes, out) || (pc.Copied? && pc.bytes == bytes && pc.out == out) || pc == Saved(bytes, out)
  }

  // A step of another task leaves this one as it is.
  lemma OthersStep(s: State, a: Action, task: nat)
    requires Enabled(s, a) && OfTask(a) && task in s.tasks && a.task != task
    ensures task in Do(s, a).tasks && Do(s, a).tasks[task] == s.tasks[task]
  {
    hide Accepted, SubsetWrites, ActiveOn, Move, Unlocked;
  }

  lemma OwnStep(s: State, a: Action, task: nat, path: Path, bytes: Content, out: Content)
    requires Enabled(s, a) && OfTask(a) && a.task == task && StaysAtWork(a, task) && Carries(s, task, path, bytes, out)
    ensures Carries(Do(s, a), task, path, bytes, out)
  {
    hide Accepted, SubsetWrites, ActiveOn, Move, Unlocked;
  }

  lemma CarryTaskStep(s: State, a: Action, task: nat, path: Path, bytes: Content, out: Content)
    requires Enabled(s, a) && OfTask(a) && StaysAtWork(a, task) && Carries(s, task, path, bytes, out)
    ensures Carries(Do(s, a), task, path, bytes, out)
  {
    hide Do, Enabled, StaysAtWork;
    if a.task == task {
      OwnStep(s, a, task, path, bytes, out);
    } else {
      OthersStep(s, a, task);
    }
  }

  lemma CarryOtherStep(s: State, a: Action, task: nat, path: Path, bytes: Content, out: Content)
    requires s.phase == Up && Enabled(s, a) && !OfTask(a) && StaysAtWork(a, task) && Carries(s, task, path, bytes, out)
    ensures Carries(Do(s, a), task, path, bytes, out)
  {
    hide Accepted, SubsetWrites, ActiveOn, Move, Unlocked;
  }

  lemma CarryStep(s: State, a: Action, task: nat, path: Path, bytes: Content, out: Content)
    requires Inv(s) && Enabled(s, a) && StaysAtWork(a, task) && Carries(s, task, path, bytes, out)
    ensures Carries(Do(s, a), task, path, bytes, out)
  {
    WorkMeansUp(s, task) by { assert task in s.tasks; }
    hide *;
    if OfTask(a) {
      CarryTaskStep(s, a, task, path, bytes, out);
    } else {
      CarryOtherStep(s, a, task, path, bytes, out);
    }
  }

  lemma WorkMeansUp(s: State, task: nat)
    requires Inv(s) && task in s.tasks
    ensures s.phase == Up
  {
    hide TasksOk, Rest;
  }

  lemma {:induction false} CarriesOn(r: Run, i: nat, k: nat, task: nat, path: Path, bytes: Content, out: Content)
    requires IsRun(r) && i <= k < |r.states| && Carries(r.states[i], task, path, bytes, out)
    requires forall j :: i <= j < k ==> StaysAtWork(r.actions[j], task)
    ensures Carries(r.states[k], task, path, bytes, out)
    decreases k
  {
    if i < k {
      StepAt(r, k - 1);
      RunHolds(r, k - 1);
      hide *;
      CarriesOn(r, i, k - 1, task, path, bytes, out);
      CarryStep(r.states[k - 1], r.actions[k - 1], task, path, bytes, out);
    }
  }

  lemma PlanCarries(s: State, task: nat, out: Content)
    requires Enabled(s, Plan(task, out))
    ensures task in s.tasks && s.tasks[task].pc.Read?
    ensures Carries(Do(s, Plan(task, out)), task, s.tasks[task].path, s.tasks[task].pc.bytes, out)
    ensures s.tasks[task].mode == Subset ==> SubsetWrites(s.tasks[task].pc.bytes, out)
  {
    hide Accepted, SubsetWrites, ActiveOn;
  }

  lemma WriteOverwrites(s: State, task: nat, path: Path, bytes: Content, out: Content)
    requires Inv(s) && Enabled(s, WriteFile(task)) && Carries(s, task, path, bytes, out)
    ensures path in s.files && s.files[path] == bytes
    ensures path in Do(s, WriteFile(task)).files && Do(s, WriteFile(task)).files[path] == out
  {
    TaskIsOk(s, task);
    hide Inv, Accepted, SubsetWrites, ActiveOn;
  }

  /**
    What a job writes is what it made of the bytes it read, and those bytes are still the file when
    it writes.
  */
  lemma {:induction false} JobWritesItsPlan(r: Run, i: nat, k: nat, task: nat, out: Content)
    requires IsRun(r) && i < k < |r.actions| && r.actions[i] == Plan(task, out) && r.actions[k] == WriteFile(task)
    requires forall j :: i < j < k ==> StaysAtWork(r.actions[j], task)
    ensures task in r.states[i].tasks && r.states[i].tasks[task].pc.Read?
    ensures var path, bytes := r.states[i].tasks[task].path, r.states[i].tasks[task].pc.bytes;
            && path in r.states[k].files && r.states[k].files[path] == bytes
            && path in r.states[k + 1].files && r.states[k + 1].files[path] == out
            && (r.states[i].tasks[task].mode == Subset ==> SubsetWrites(bytes, out))
  {
    StepAt(r, i);
    StepAt(r, k);
    RunHolds(r, k);
    hide *;
    PlanCarries(r.states[i], task, out);
    var path, bytes := r.states[i].tasks[task].path, r.states[i].tasks[task].pc.bytes;
    CarriesOn(r, i + 1, k, task, path, bytes, out);
    WriteOverwrites(r.states[k], task, path, bytes, out);
  }

  // ----- A whole job, a whole restore -----

  // These actions are enabled one after the other and lead from s to t.
  ghost predicate Leads(s: State, actions: seq<Action>, t: State)
    decreases |actions|
  {
    if actions == [] then s == t else Enabled(s, actions[0]) && Leads(Do(s, actions[0]), actions[1..], t)
  }

  ghost predicate Moves(s: State, a: Action, t: State) {
    Enabled(s, a) && Do(s, a) == t
  }

  lemma {:induction false} LeadsOn(s: State, actions: seq<Action>, t: State, a: Action, u: State)
    requires Leads(s, actions, t) && Moves(t, a, u)
    ensures Leads(s, actions + [a], u)
    decreases |actions|
  {
    hide Enabled, Do;
    if actions == [] {
      assert actions + [a] == [a] && [a][1..] == [];
      assert Leads(Do(s, a), [], u);
    } else {
      assert (actions + [a])[0] == actions[0] && (actions + [a])[1..] == actions[1..] + [a];
      LeadsOn(Do(s, actions[0]), actions[1..], t, a, u);
    }
  }

  // The state with this job's task standing there.
  function Standing(s: State, task: nat, id: nat, job: Job, pc: Pc): State {
    s.(jobs := s.jobs[id := job], tasks := s.tasks[task := Task(id, job.path, job.mode, pc)])
  }

  lemma PutTwice<K, V>(m: map<K, V>, k: K, v: V, w: V)
    ensures m[k := v][k := w] == m[k := w]
  {
  }

  lemma StandsThere(s: State, task: nat, id: nat, job: Job, pc: Pc, to: Status, pc': Pc)
    ensures var here := Standing(s, task, id, job, pc);
            && Lives(here, task) && here.jobs[id] == job && here.tasks[task] == Task(id, job.path, job.mode, pc)
            && here.restore == s.restore && here.files == s.files && here.store == s.store && here.rows == s.rows
            && At(SetStatus(here, id, to), task, pc') == Standing(s, task, id, Job(job.path, job.mode, to), pc')
            && SetStatus(At(here, task, pc'), id, to) == Standing(s, task, id, Job(job.path, job.mode, to), pc')
            && (to == job.status ==> At(here, task, pc') == Standing(s, task, id, job, pc'))
            && Without(here, task) == s.(jobs := s.jobs[id := job], tasks := s.tasks - {task})
  {
    PutTwice(s.jobs, id, job, Job(job.path, job.mode, to));
    PutTwice(s.tasks, task, Task(id, job.path, job.mode, pc), Task(id, job.path, job.mode, pc'));
  }

  // Claiming the job.
  lemma ClaimMoves(s: State, task: nat, id: nat, queued: Job, running: Job)
    requires s.restore == Idle && queued.status == Queued && running == Job(queued.path, queued.mode, Running)
    ensures Moves(Standing(s, task, id, queued, Waiting), Claim(task), Standing(s, task, id, running, Claimed))
    ensures Moves(Standing(s, task, id, running, Claimed), MarkRunning(task), Standing(s, task, id, running, Marked))
  {
    StandsThere(s, task, id, queued, Waiting, Running, Claimed);
    StandsThere(s, task, id, running, Claimed, Running, Marked);
    hide At, Standing, SetStatus, Without;
  }

  // Reading the file and working on it.
  lemma PlanMoves(s: State, task: nat, id: nat, job: Job, bytes: Content, out: Content)
    requires job.path in s.files && s.files[job.path] == bytes
    requires job.mode == Subset ==> Accepted(bytes) && SubsetWrites(bytes, out)
    ensures Moves(Standing(s, task, id, job, Marked), ReadFile(task), Standing(s, task, id, job, Read(bytes)))
    ensures Moves(Standing(s, task, id, job, Read(bytes)), Plan(task, out), Standing(s, task, id, job, Planned(bytes, out)))
  {
    StandsThere(s, task, id, job, Marked, job.status, Read(bytes));
    StandsThere(s, task, id, job, Read(bytes), job.status, Planned(bytes, out));
    hide At, Standing, SetStatus, Without, Accepted, SubsetWrites;
  }

  // The backup: first the copy, then its row.
  lemma BackupMoves(s: State, task: nat, id: nat, job: Job, bytes: Content, out: Content, key: Key)
    requires job.path in s.files && s.files[job.path] == bytes == key.digest && s.restore == Idle
    ensures var copied := s.(store := s.store[key := bytes]);
            && Moves(Standing(s, task, id, job, Planned(bytes, out)), CopyFile(task, key.folder, key.stamp),
                     Standing(copied, task, id, job, Copied(bytes, out, key)))
            && Moves(Standing(copied, task, id, job, Copied(bytes, out, key)), SaveRow(task),
                     Standing(copied.(rows := s.rows + {Row(job.path, key)}), task, id, job, Saved(bytes, out)))
  {
    StandsThere(s, task, id, job, Planned(bytes, out), job.status, Planned(bytes, out));
    hide SetStatus, Without, Accepted, SubsetWrites;
    PutTwice(s.tasks, task, Task(id, job.path, job.mode, Planned(bytes, out)), Task(id, job.path, job.mode, Copied(bytes, out, key)));
    PutTwice(s.tasks, task, Task(id, job.path, job.mode, Copied(bytes, out, key)), Task(id, job.path, job.mode, Saved(bytes, out)));
  }

  // Writing the file and what is recorded about it.
  lemma WriteMoves(s: State, task: nat, id: nat, job: Job, bytes: Content, out: Content)
    ensures var wrote := s.(files := s.files[job.path := out], writer := s.writer[job.path := WriterOf(job.mode)]);
            Moves(Standing(s, task, id, job, Saved(bytes, out)), WriteFile(task), Standing(wrote, task, id, job, Written))
  {
    hide SetStatus, Without, Accepted, SubsetWrites;
    PutTwice(s.tasks, task, Task(id, job.path, job.mode, Saved(bytes, out)), Task(id, job.path, job.mode, Written));
  }

  lemma ReportMoves(s: State, task: nat, id: nat, job: Job, ended: Job)
    requires s.restore == Idle && ended.path == job.path && ended.mode == job.mode && ended.status in {Success, Partial}
    ensures Moves(Standing(s, task, id, job, Written), Report(task, ended.status), Standing(s, task, id, ended, Reported))
    ensures Moves(Standing(s, task, id, ended, Reported), Finish(task), s.(jobs := s.jobs[id := ended], tasks := s.tasks - {task}))
  {
    StandsThere(s, task, id, job, Written, ended.status, Reported);
    StandsThere(s, task, id, ended, Reported, ended.status, Reported);
    hide At, Standing, SetStatus, Without;
  }

  // The job of a task that waits for its turn, with its file there.
  predicate Awaits(s: State, task: nat, id: nat, job: Job, bytes: Content) {
    && s.restore == Idle && job.status == Queued && task in s.tasks && s.tasks[task] == Task(id, job.path, job.mode, Waiting)
    && id in s.jobs && s.jobs[id] == job && job.path in s.files && s.files[job.path] == bytes
  }

  // What a job leaves: its output in the file, a backup of what was there, and its outcome.
  function Left(s: State, task: nat, id: nat, ended: Job, bytes: Content, out: Content, key: Key): State {
    s.(store := s.store[key := bytes], rows := s.rows + {Row(ended.path, key)},
       files := s.files[ended.path := out], writer := s.writer[ended.path := WriterOf(ended.mode)],
       jobs := s.jobs[id := ended], tasks := s.tasks - {task})
  }

  function JobActions(task: nat, out: Content, key: Key, status: Status): seq<Action> {
    [Claim(task), MarkRunning(task), ReadFile(task), Plan(task, out), CopyFile(task, key.folder, key.stamp), SaveRow(task),
     WriteFile(task), Report(task, status), Finish(task)]
  }

  lemma {:induction false} AwaitsStanding(s: State, task: nat, id: nat, job: Job, bytes: Content)
    requires Awaits(s, task, id, job, bytes)
    ensures s == Standing(s, task, id, job, Waiting) && s.restore == Idle && job.status == Queued
    ensures job.path in s.files && s.files[job.path] == bytes
    ensures Leads(s, [], s)
  {
    assert s.jobs[id := job] == s.jobs && s.tasks[task := Task(id, job.path, job.mode, Waiting)] == s.tasks;
  }

  lemma {:induction false} UpToPlan(s: State, task: nat, id: nat, job: Job, bytes: Content, out: Content)
    requires Awaits(s, task, id, job, bytes) && (job.mode == Subset ==> Accepted(bytes) && SubsetWrites(bytes, out))
    ensures Leads(s, [Claim(task), MarkRunning(task), ReadFile(task), Plan(task, out)],
                  Standing(s, task, id, Job(job.path, job.mode, Running), Planned(bytes, out)))
  {
    hide *;
    AwaitsStanding(s, task, id, job, bytes);
    var running := Job(job.path, job.mode, Running);
    ClaimMoves(s, task, id, job, running);
    PlanMoves(s, task, id, running, bytes, out);
    var read := Read(bytes);
    LeadsOn(s, [], Standing(s, task, id, job, Waiting), Claim(task), Standing(s, task, id, running, Claimed));
    LeadsOn(s, [] + [Claim(task)], Standing(s, task, id, running, Claimed), MarkRunning(task), Standing(s, task, id, running, Marked));
    LeadsOn(s, [] + [Claim(task)] + [MarkRunning(task)], Standing(s, task, id, running, Marked), ReadFile(task),
            Standing(s, task, id, running, read));
    LeadsOn(s, [] + [Claim(task)] + [MarkRunning(task)] + [ReadFile(task)], Standing(s, task, id, running, read), Plan(task, out),
            Standing(s, task, id, running, Planned(bytes, out)));
    FourInAll(Claim(task), MarkRunning(task), ReadFile(task), Plan(task, out));
  }

  lemma FourInAll<T>(a: T, b: T, c: T, d: T)
    ensures [] + [a] + [b] + [c] + [d] == [a, b, c, d]
  {
  }

  lemma {:induction false} FromPlan(s: State, task: nat, id: nat, job: Job, bytes: Content, out: Content, key: Key, before: State, actions: seq<Action>,
                 status: Status)
    requires Leads(before, actions, Standing(s, task, id, job, Planned(bytes, out)))
    requires job.path in s.files && s.files[job.path] == bytes == key.digest && s.restore == Idle && status in {Success, Partial}
    ensures Leads(before, actions + [CopyFile(task, key.folder, key.stamp), SaveRow(task), WriteFile(task), Report(task, status), Finish(task)],
                  Left(s, task, id, Job(job.path, job.mode, status), bytes, out, key))
  {
    var copied := s.(store := s.store[key := bytes]);
    var saved := copied.(rows := s.rows + {Row(job.path, key)});
    var wrote := saved.(files := s.files[job.path := out], writer := s.writer[job.path := WriterOf(job.mode)]);
    var ended := Job(job.path, job.mode, status);
    var copy, save, write := CopyFile(task, key.folder, key.stamp), SaveRow(task), WriteFile(task);
    assert Left(s, task, id, ended, bytes, out, key) == wrote.(jobs := wrote.jobs[id := ended], tasks := wrote.tasks - {task});
    hide *;
    BackupMoves(s, task, id, job, bytes, out, key);
    WriteMoves(saved, task, id, job, bytes, out);
    ReportMoves(wrote, task, id, job, ended);
    LeadsOn(before, actions, Standing(s, task, id, job, Planned(bytes, out)), copy, Standing(copied, task, id, job, Copied(bytes, out, key)));
    LeadsOn(before, actions + [copy], Standing(copied, task, id, job, Copied(bytes, out, key)), save,
            Standing(saved, task, id, job, Saved(bytes, out)));
    LeadsOn(before, actions + [copy] + [save], Standing(saved, task, id, job, Saved(bytes, out)), write,
            Standing(wrote, task, id, job, Written));
    LeadsOn(before, actions + [copy] + [save] + [write], Standing(wrote, task, id, job, Written), Report(task, status),
            Standing(wrote, task, id, ended, Reported));
    LeadsOn(before, actions + [copy] + [save] + [write] + [Report(task, status)], Standing(wrote, task, id, ended, Reported), Finish(task),
            Left(s, task, id, ended, bytes, out, key));
    FiveMore(actions, copy, save, write, Report(task, status), Finish(task));
  }

  lemma FiveMore<T>(s: seq<T>, a: T, b: T, c: T, d: T, e: T)
    ensures s + [a] + [b] + [c] + [d] + [e] == s + [a, b, c, d, e]
    ensures [] + [a, b, c, d, e] == [a, b, c, d, e]
  {
  }

  /**
    A job whose turn comes can always run to its end, and then leaves exactly this: its output in
    the file, a backup of what the file held, its outcome in its row; everything else is as before.
  */
  lemma {:induction false} JobRunsThrough(s: State, task: nat, id: nat, job: Job, bytes: Content, out: Content, key: Key, status: Status)
    requires Awaits(s, task, id, job, bytes) && (job.mode == Subset ==> Accepted(bytes) && SubsetWrites(bytes, out))
    requires key.digest == bytes && status in {Success, Partial}
    ensures Leads(s, JobActions(task, out, key, status), Left(s, task, id, Job(job.path, job.mode, status), bytes, out, key))
  {
    var before := [Claim(task), MarkRunning(task), ReadFile(task), Plan(task, out)];
    assert JobActions(task, out, key, status) ==
      before + [CopyFile(task, key.folder, key.stamp), SaveRow(task), WriteFile(task), Report(task, status), Finish(task)];
    hide *;
    AwaitsStanding(s, task, id, job, bytes);
    UpToPlan(s, task, id, job, bytes, out);
    FromPlan(s, task, id, Job(job.path, job.mode, Running), bytes, out, key, s, before, status);
  }

  /** A restore that finds no job on its path can always run to its end, and changes the file only. */
  lemma {:induction false} RestoreRunsThrough(s: State, path: Path, key: Key)
    requires s.phase == Up && s.restore == Idle && Row(path, key) in s.rows && key in s.store && !ActiveOn(s, path)
    ensures Leads(s, [LockRestore(path, key), CheckRestore, LoadRestore, ReplaceFile, EndRestore],
                  s.(files := s.files[path := s.store[key]], writer := s.writer[path := ByOther]))
  {
    var bytes, lock := s.store[key], LockRestore(path, key);
    var wrote := s.(files := s.files[path := bytes], writer := s.writer[path := ByOther]);
    assert Leads(s, [], s);
    hide *;
    RestoreReads(s, path, key);
    RestoreWrites(s, path, bytes);
    LeadsOn(s, [], s, lock, s.(restore := Locked(path, key)));
    LeadsOn(s, [] + [lock], s.(restore := Locked(path, key)), CheckRestore, s.(restore := Checked(path, key)));
    LeadsOn(s, [] + [lock] + [CheckRestore], s.(restore := Checked(path, key)), LoadRestore, s.(restore := Loaded(path, bytes)));
    LeadsOn(s, [] + [lock] + [CheckRestore] + [LoadRestore], s.(restore := Loaded(path, bytes)), ReplaceFile,
            wrote.(restore := Replaced));
    LeadsOn(s, [] + [lock] + [CheckRestore] + [LoadRestore] + [ReplaceFile], wrote.(restore := Replaced), EndRestore, wrote);
    FiveMore([], lock, CheckRestore, LoadRestore, ReplaceFile, EndRestore);
  }

  lemma RestoreReads(s: State, path: Path, key: Key)
    requires s.phase == Up && s.restore == Idle && Row(path, key) in s.rows && key in s.store && !ActiveOn(s, path)
    ensures Moves(s, LockRestore(path, key), s.(restore := Locked(path, key)))
    ensures Moves(s.(restore := Locked(path, key)), CheckRestore, s.(restore := Checked(path, key)))
    ensures Moves(s.(restore := Checked(path, key)), LoadRestore, s.(restore := Loaded(path, s.store[key])))
  {
    assert ActiveOn(s.(restore := Locked(path, key)), path) <==> ActiveOn(s, path);
    hide Accepted, SubsetWrites, ActiveOn;
  }

  lemma RestoreWrites(s: State, path: Path, bytes: Content)
    requires s.restore == Idle
    ensures var wrote := s.(files := s.files[path := bytes], writer := s.writer[path := ByOther]);
            && Moves(s.(restore := Loaded(path, bytes)), ReplaceFile, wrote.(restore := Replaced))
            && Moves(wrote.(restore := Replaced), EndRestore, wrote)
  {
    hide Accepted, SubsetWrites, ActiveOn;
  }

  lemma ErrMoves(s: State, task: nat, id: nat, job: Job, pc: Pc)
    requires pc !in [Unsent, InChannel, Failing]
    ensures Moves(Standing(s, task, id, job, pc), Err(task), Standing(s, task, id, job, Failing))
  {
    StandsThere(s, task, id, job, pc, job.status, Failing);
    hide At, Standing, SetStatus, Without;
  }

  lemma FailMoves(s: State, task: nat, id: nat, job: Job, failed: Job)
    requires s.restore == Idle && failed == Job(job.path, job.mode, Failed)
    ensures Moves(Standing(s, task, id, job, Failing), FailJob(task), s.(jobs := s.jobs[id := failed], tasks := s.tasks - {task}))
  {
    StandsThere(s, task, id, job, Failing, Failed, Failing);
    StandsThere(s, task, id, failed, Failing, Failed, Failing);
    FailedStands(s, task, id, job, failed);
    hide At, Standing, SetStatus, Without;
  }

  lemma FailedStands(s: State, task: nat, id: nat, job: Job, failed: Job)
    requires failed == Job(job.path, job.mode, Failed)
    ensures id in Standing(s, task, id, job, Failing).jobs
    ensures SetStatus(Standing(s, task, id, job, Failing), id, Failed) == Standing(s, task, id, failed, Failing)
  {
    PutTwice(s.jobs, id, job, failed);
  }

  lemma AbandonMoves(s: State, task: nat, id: nat, job: Job)
    ensures Moves(Standing(s, task, id, job, Failing), Abandon(task), s.(jobs := s.jobs[id := job], tasks := s.tasks - {task}))
  {
    StandsThere(s, task, id, job, Failing, job.status, Failing);
    hide At, Standing, SetStatus, Without;
  }

  /**
    A task may fail wherever it stands; then its job is failed, or stays as it is when even that could
    not be written, and files and backups are as the failure found them.
  */
  lemma {:induction false} FailureChangesNoFile(s: State, task: nat)
    requires Lives(s, task) && s.restore == Idle && s.tasks[task].pc !in [Unsent, InChannel, Failing]
    requires var t := s.tasks[task]; s.jobs[t.job].path == t.path && s.jobs[t.job].mode == t.mode
    ensures var t := s.tasks[task];
            && Leads(s, [Err(task), FailJob(task)],
                     s.(jobs := s.jobs[t.job := Job(t.path, t.mode, Failed)], tasks := s.tasks - {task}))
            && Leads(s, [Err(task), Abandon(task)], s.(tasks := s.tasks - {task}))
  {
    var t := s.tasks[task];
    var id, job := t.job, s.jobs[t.job];
    assert s.jobs[id := job] == s.jobs && s.tasks[task := t] == s.tasks;
    assert s == Standing(s, task, id, job, t.pc);
    assert Leads(s, [], s);
    var failing := Standing(s, task, id, job, Failing);
    var failed := s.(jobs := s.jobs[id := Job(job.path, job.mode, Failed)], tasks := s.tasks - {task});
    assert s.(jobs := s.jobs[id := job], tasks := s.tasks - {task}) == s.(tasks := s.tasks - {task});
    hide *;
    ErrMoves(s, task, id, job, t.pc);
    FailMoves(s, task, id, job, Job(job.path, job.mode, Failed));
    AbandonMoves(s, task, id, job);
    LeadsOn(s, [], s, Err(task), failing);
    LeadsOn(s, [] + [Err(task)], failing, FailJob(task), failed);
    LeadsOn(s, [] + [Err(task)], failing, Abandon(task), s.(tasks := s.tasks - {task}));
    assert [] + [Err(task)] + [FailJob(task)] == [Err(task), FailJob(task)];
    assert [] + [Err(task)] + [Abandon(task)] == [Err(task), Abandon(task)];
  }

  // ----- Recovery -----

  // What a restart does to a job.
  lemma RecoveryRequeues(s: State, j: nat)
    requires Inv(s) && s.phase == Down && j in s.jobs
    ensures Enabled(s, Boot) && Enabled(Do(s, Boot), Requeue) && Enabled(Do(Do(s, Boot), Requeue), Resend)
    ensures var up := Do(Do(Do(s, Boot), Requeue), Resend);
            && up.phase == Up && up.files == s.files && up.store == s.store && up.rows == s.rows && j in up.jobs
            && up.jobs[j] == Job(s.jobs[j].path, s.jobs[j].mode, if s.jobs[j].status.Active() then Queued else s.jobs[j].status)
            && (forall t :: t in up.tasks && up.tasks[t].job == j ==> t == j)
            && (j in up.tasks <==> s.jobs[j].status.Active())
            && (j in up.tasks ==> up.tasks[j] == Task(j, s.jobs[j].path, s.jobs[j].mode, Unsent))
  {
    hide Inv, Accepted, SubsetWrites, ActiveOn;
  }

  lemma CrashIs(s: State)
    requires Inv(s) && s.phase != Down
    ensures Enabled(s, Crash) && Do(s, Crash) == s.(phase := Down, tasks := map[], restore := Idle)
    ensures Inv(Do(s, Crash))
  {
    StepKeepsInv(s, Crash);
    hide Inv;
  }

  /**
    The service may crash at any time, and a crash loses no job: after the restart every job that was
    queued or running is queued and on its way exactly once, no other job is, and files and backups
    are as the crash found them.
  */
  lemma CrashLosesNoJob(s: State, j: nat)
    requires Inv(s) && s.phase != Down && j in s.jobs
    ensures Enabled(s, Crash)
    ensures var down := Do(s, Crash);
            && Enabled(down, Boot) && Enabled(Do(down, Boot), Requeue) && Enabled(Do(Do(down, Boot), Requeue), Resend)
            && var up := Do(Do(Do(down, Boot), Requeue), Resend);
               && up.phase == Up && up.files == s.files && up.store == s.store && up.rows == s.rows && j in up.jobs
               && up.jobs[j] == Job(s.jobs[j].path, s.jobs[j].mode, if s.jobs[j].status.Active() then Queued else s.jobs[j].status)
               && (forall t :: t in up.tasks && up.tasks[t].job == j ==> t == j)
               && (j in up.tasks <==> s.jobs[j].status.Active())
               && (j in up.tasks ==> up.tasks[j] == Task(j, s.jobs[j].path, s.jobs[j].mode, Unsent))
  {
    CrashIs(s);
    hide *;
    RecoveryRequeues(Do(s, Crash), j);
  }

  /** Cancelling ends the queued jobs and no others. */
  lemma CancelIsExact(s: State, j: nat)
    requires Enabled(s, Cancel)
    ensures j in Do(s, Cancel).jobs <==> j in s.jobs
    ensures j in s.jobs ==>
              Do(s, Cancel).jobs[j] == if s.jobs[j].status == Queued then Job(s.jobs[j].path, s.jobs[j].mode, Cancelled) else s.jobs[j]
  {
  }
}
