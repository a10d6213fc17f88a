/**
  What holds over every run of the job and backup protocol, from a fresh database on.
*/
module JobRuns {
  import opened DoubleSubset
  import opened JobProtocol

  // Nothing has happened yet: no job, no backup, no process.
  ghost predicate Init(s: State) {
    && s.phase == Down && s.jobs == map[] && s.tasks == map[]
    && s.store == map[] && s.rows == {} && s.restore == Idle && s.first == s.files
    && s.writer == map path | path in s.files :: Nobody
  }

  datatype Run = Run(states: seq<State>, actions: seq<Action>)

  ghost predicate IsRun(r: Run) {
    && |r.states| == |r.actions| + 1 && Init(r.states[0])
    && forall i :: 0 <= i < |r.actions| ==> Follows(r, i)
  }

  ghost predicate Follows(r: Run, i: nat)
    requires i < |r.actions| && |r.states| == |r.actions| + 1
  {
    Enabled(r.states[i], r.actions[i]) && r.states[i + 1] == Do(r.states[i], r.actions[i])
  }

  lemma StepAt(r: Run, i: nat)
    requires IsRun(r) && (i < |r.actions| || i + 1 < |r.states|)
    ensures |r.states| == |r.actions| + 1
    ensures Enabled(r.states[i], r.actions[i]) && r.states[i + 1] == Do(r.states[i], r.actions[i])
  {
    assert Follows(r, i);
  }

  lemma InitHolds(s: State)
    requires Init(s)
    ensures Inv(s)
  {
  }

  lemma {:induction false} RunHolds(r: Run, i: nat)
    requires IsRun(r) && i < |r.states|
    ensures Inv(r.states[i])
    decreases i
  {
    hide Inv, Do, Enabled, Init;
    if i == 0 {
      InitHolds(r.states[0]);
    } else {
      RunHolds(r, i - 1);
      assert Follows(r, i - 1);
      StepKeepsInv(r.states[i - 1], r.actions[i - 1]);
    }
  }

  // ----- Originals -----

  lemma FirstStays(s: State, a: Action)
    requires Enabled(s, a)
    ensures forall path :: path in s.first ==> path in Do(s, a).first && Do(s, a).first[path] == s.first[path]
  {
  }

  lemma {:induction false} FirstFixed(r: Run, i: nat, k: nat, path: Path)
    requires IsRun(r) && i <= k < |r.states| && path in r.states[i].first
    ensures path in r.states[k].first && r.states[k].first[path] == r.states[i].first[path]
    decreases k
  {
    hide Do, Enabled, Init;
    if i < k {
      FirstFixed(r, i, k - 1, path);
      assert Follows(r, k - 1);
      FirstStays(r.states[k - 1], r.actions[k - 1]);
    }
  }

  /**
    No original is lost: at any later point of the run, what a path first held is still the file
    or the content of one of the path's backups.
  */
  lemma OriginalNeverLost(r: Run, i: nat, k: nat, path: Path)
    requires IsRun(r) && i <= k < |r.states| && path in r.states[i].first
    ensures var s := r.states[k];
            && path in s.files
            && (s.files[path] == r.states[i].first[path] || BackedUp(s, path, r.states[i].first[path]))
  {
    RunHolds(r, k);
    FirstFixed(r, i, k, path);
    hide BackedUp, TasksOk, OnePlace, OneActive, StoreSound, RestoreAlone, SubsetStays, IsRun;
  }

  /** What a job overwrites has a backup made before. */
  lemma OverwrittenIsBackedUp(r: Run, i: nat, task: nat)
    requires IsRun(r) && i < |r.actions| && r.actions[i] == WriteFile(task)
    ensures var s := r.states[i];
            && task in s.tasks && s.tasks[task].path in s.files
            && BackedUp(s, s.tasks[task].path, s.files[s.tasks[task].path])
  {
    RunHolds(r, i);
    assert Follows(r, i);
    hide BackedUp, Inv, IsRun, Do;
    TaskIsOk(r.states[i], task);
  }

  // ----- Exclusive writers -----

  /** No two active jobs share a path, and a task at work has its row running. */
  lemma ActiveJobsApart(r: Run, k: nat)
    requires IsRun(r) && k < |r.states|
    ensures var s := r.states[k];
            && OneActive(s)
            && (forall t :: t in s.tasks && Working(s.tasks[t].pc) ==>
                  s.tasks[t].job in s.jobs && s.jobs[s.tasks[t].job].status == Running)
  {
    RunHolds(r, k);
    hide BackedUp, OnePlace, StoreSound, RestoreAlone, SubsetStays, OriginalsKept, IsRun, Accepted;
  }

  /** A restore replaces a file only while no job on its path is queued or running. */
  lemma RestoreIsAlone(r: Run, i: nat)
    requires IsRun(r) && i < |r.actions| && r.actions[i] == ReplaceFile
    ensures r.states[i].restore.Loaded? && !ActiveOn(r.states[i], r.states[i].restore.path)
  {
    RunHolds(r, i);
    assert Follows(r, i);
  }

  // The job has ended and stays so.
  predicate Ended(s: State, job: nat) {
    job in s.jobs && !s.jobs[job].status.Active()
  }

  predicate SetsStatus(a: Action) {
    a.Enqueue? || a.Claim? || a.MarkRunning? || a.Report? || a.FailJob? || a.Cancel? || a.Requeue?
  }

  lemma JobsLeft(s: State, a: Action)
    requires Enabled(s, a) && !SetsStatus(a)
    ensures Do(s, a).jobs == s.jobs
  {
    hide Accepted, SubsetWrites, ActiveOn, Unlocked, Move, SetStatus;
  }

  lemma EndedAtStep(s: State, a: Action, job: nat)
    requires Enabled(s, a) && SetsStatus(a) && Ended(s, job)
    requires a.MarkRunning? ==> s.jobs[s.tasks[a.task].job].status == Running
    ensures Ended(Do(s, a), job)
  {
    hide Accepted, SubsetWrites, ActiveOn;
  }

  lemma EndedStays(s: State, a: Action, job: nat)
    requires Inv(s) && Enabled(s, a) && Ended(s, job)
    ensures Ended(Do(s, a), job)
  {
    hide Inv, Do, Accepted, BackedUp, SubsetWrites, ActiveOn;
    if SetsStatus(a) {
      if a.MarkRunning? {
        TaskIsOk(s, a.task);
      }
      EndedAtStep(s, a, job);
    } else {
      JobsLeft(s, a);
    }
  }

  /** A job that has ended never becomes active again, crashes and recoveries included. */
  lemma {:induction false} EndedForever(r: Run, i: nat, k: nat, job: nat)
    requires IsRun(r) && i <= k < |r.states| && Ended(r.states[i], job)
    ensures Ended(r.states[k], job)
    decreases k
  {
    hide Do, Enabled, Init, Ended;
    if i < k {
      EndedForever(r, i, k - 1, job);
      assert Follows(r, k - 1);
      RunHolds(r, k - 1);
      EndedStays(r.states[k - 1], r.actions[k - 1], job);
    }
  }

  lemma CancelEnds(s: State, job: nat)
    requires Enabled(s, Cancel) && job in s.jobs && s.jobs[job].status == Queued
    ensures Ended(Do(s, Cancel), job)
  {
  }

  /** A job that is queued when the cancellation runs never writes its file. */
  lemma CancelledNeverWrites(r: Run, i: nat, k: nat, job: nat, task: nat)
    requires IsRun(r) && i < k < |r.actions| && r.actions[i] == Cancel && r.actions[k] == WriteFile(task)
    requires job in r.states[i].jobs && r.states[i].jobs[job].status == Queued
    ensures task in r.states[k].tasks && r.states[k].tasks[task].job != job
  {
    hide Do, Enabled, Init, IsRun, Inv, Ended;
    StepAt(r, i);
    CancelEnds(r.states[i], job);
    EndedForever(r, i + 1, k, job);
    RunHolds(r, k);
    StepAt(r, k);
    WriterRuns(r.states[k], task);
  }

  // Whoever may write has a running job.
  lemma WriterRuns(s: State, task: nat)
    requires Inv(s) && Enabled(s, WriteFile(task))
    ensures task in s.tasks && !Ended(s, s.tasks[task].job)
  {
    hide Inv, Accepted, BackedUp;
    TaskIsOk(s, task);
  }

  // ----- No double subsetting -----

  ghost predicate SubsetWrite(r: Run, i: nat, path: Path)
    requires IsRun(r) && i < |r.actions|
  {
    var s := r.states[i];
    r.actions[i].WriteFile? && r.actions[i].task in s.tasks
    && s.tasks[r.actions[i].task].path == path && s.tasks[r.actions[i].task].mode == Subset
  }

  // A strip job or a restore replaces the file.
  ghost predicate OtherWrite(r: Run, i: nat, path: Path)
    requires IsRun(r) && i < |r.actions|
  {
    var s := r.states[i];
    || (r.actions[i] == ReplaceFile && s.restore.Loaded? && s.restore.path == path)
    || (r.actions[i].WriteFile? && r.actions[i].task in s.tasks
        && s.tasks[r.actions[i].task].path == path && s.tasks[r.actions[i].task].mode == StripEmbedded)
  }

  predicate SetsFile(a: Action) {
    a.AddFile? || a.WriteFile? || a.ReplaceFile?
  }

  lemma WritersLeft(s: State, a: Action)
    requires Enabled(s, a) && !SetsFile(a)
    ensures Do(s, a).writer == s.writer
  {
    hide Enabled, Accepted, SubsetWrites, ActiveOn, Unlocked, Move, Resent, Stands, Lives;
  }

  lemma WriterStays(s: State, a: Action, path: Path)
    requires Inv(s) && Enabled(s, a) && path in s.writer && s.writer[path] == BySubset
    requires !(a == ReplaceFile && s.restore.path == path)
    requires !(a.WriteFile? && a.task in s.tasks && s.tasks[a.task].path == path && s.tasks[a.task].mode == StripEmbedded)
    ensures path in Do(s, a).writer && Do(s, a).writer[path] == BySubset
  {
    hide Inv;
    WriterHasFile(s, path);
    if SetsFile(a) {
      WriterAtWrite(s, a, path);
    } else {
      hide Do, Enabled;
      WritersLeft(s, a);
    }
  }

  lemma WriterHasFile(s: State, path: Path)
    requires Inv(s) && path in s.writer
    ensures path in s.files
  {
  }

  lemma WriterAtWrite(s: State, a: Action, path: Path)
    requires Enabled(s, a) && SetsFile(a) && path in s.writer && s.writer[path] == BySubset && path in s.files
    requires !(a == ReplaceFile && s.restore.path == path)
    requires !(a.WriteFile? && a.task in s.tasks && s.tasks[a.task].path == path && s.tasks[a.task].mode == StripEmbedded)
    ensures path in Do(s, a).writer && Do(s, a).writer[path] == BySubset
  {
    hide Accepted, SubsetWrites, ActiveOn;
    match a
    case AddFile(_, _) =>
    case WriteFile(_) =>
    case ReplaceFile =>
  }

  lemma {:induction false} SubsetLasts(r: Run, i: nat, k: nat, path: Path)
    requires IsRun(r) && i < k < |r.states| && SubsetWrite(r, i, path)
    requires forall j :: i < j < k ==> !OtherWrite(r, j, path)
    ensures path in r.states[k].writer && r.states[k].writer[path] == BySubset
    decreases k
  {
    hide Do, Enabled, Init, IsRun, Inv;
    StepAt(r, k - 1);
    if i + 1 < k {
      RunHolds(r, k - 1);
      SubsetLasts(r, i, k - 1, path);
      assert !OtherWrite(r, k - 1, path);
      WriterStays(r.states[k - 1], r.actions[k - 1], path);
    } else {
      SubsetMarks(r.states[i], r.actions[i]);
    }
  }

  lemma SubsetMarks(s: State, a: Action)
    requires Enabled(s, a) && a.WriteFile? && s.tasks[a.task].mode == Subset
    ensures var path := s.tasks[a.task].path; path in Do(s, a).writer && Do(s, a).writer[path] == BySubset
  {
  }

  /**
    No double subsetting: between two subset jobs that write the same file, a strip job or a
    restore wrote it.
  */
  lemma SubsetOnce(r: Run, i: nat, k: nat, path: Path)
    requires IsRun(r) && i < k < |r.actions| && SubsetWrite(r, i, path) && SubsetWrite(r, k, path)
    ensures exists j :: i < j < k && OtherWrite(r, j, path)
  {
    if forall j :: i < j < k ==> !OtherWrite(r, j, path) {
      SubsetLasts(r, i, k, path);
      WritesOriginals(r, k, path);
    }
  }

  lemma WritesOriginals(r: Run, k: nat, path: Path)
    requires IsRun(r) && k < |r.actions| && SubsetWrite(r, k, path)
    ensures path in r.states[k].writer && r.states[k].writer[path] != BySubset
  {
    RunHolds(r, k);
    assert Follows(r, k);
    var s := r.states[k];
    hide Do, IsRun, Accepted, BackedUp;
    TaskIsOk(s, r.actions[k].task);
    assert SubsetStays(s);
  }

  // ----- What an ended job can still become -----

  ghost predicate Reaches(first: State, last: State) {
    exists r: Run :: IsRun(r) && r.states[0] == first && r.states[|r.actions|] == last
  }

  lemma AtFirst(s: State)
    requires Init(s)
    ensures Reaches(s, s)
  {
    var r := Run([s], []);
    hide Init;
    assert IsRun(r) && r.states[0] == s;
  }

  lemma Extend(first: State, s: State, a: Action)
    requires Reaches(first, s) && Enabled(s, a)
    ensures Reaches(first, Do(s, a))
  {
    hide Enabled, Do, Init;
    var r: Run :| IsRun(r) && r.states[0] == first && r.states[|r.actions|] == s;
    var longer := Run(r.states + [Do(s, a)], r.actions + [a]);
    forall i | 0 <= i < |longer.actions|
      ensures Follows(longer, i)
    {
      assert i < |r.actions| ==> Follows(r, i);
    }
    assert IsRun(longer) && longer.states[0] == first && longer.states[|longer.actions|] == Do(s, a);
  }

  // The service is up, and its one job and task stand there.
  function WithOne(first: State, path: Path, status: Status, pc: Pc): State {
    first.(phase := Up, jobs := map[0 := Job(path, StripEmbedded, status)],
           tasks := map[0 := Task(0, path, StripEmbedded, pc)])
  }

  lemma StepWithOne(first: State, path: Path, status: Status, pc: Pc, a: Action, status': Status, pc': Pc)
    requires Reaches(first, WithOne(first, path, status, pc)) && Enabled(WithOne(first, path, status, pc), a)
    requires Do(WithOne(first, path, status, pc), a) == WithOne(first, path, status', pc')
    ensures Reaches(first, WithOne(first, path, status', pc'))
  {
    hide *;
    Extend(first, WithOne(first, path, status, pc), a);
  }

  lemma ReachesWaiting(first: State, path: Path)
    requires Init(first) && path in first.files
    ensures Reaches(first, WithOne(first, path, Queued, Waiting))
  {
    AtFirst(first);
    hide Reaches;
    var s1 := Do(first, Boot);
    var s2 := Do(s1, Requeue);
    var s3 := Do(s2, Resend);
    Extend(first, first, Boot);
    Extend(first, s1, Requeue);
    Extend(first, s2, Resend);
    assert s3 == first.(phase := Up);
    Extend(first, s3, Enqueue(0, path, StripEmbedded, 0));
    assert Do(s3, Enqueue(0, path, StripEmbedded, 0)) == WithOne(first, path, Queued, Unsent);
    StepWithOne(first, path, Queued, Unsent, Send(0), Queued, InChannel);
    StepWithOne(first, path, Queued, InChannel, Spawn(0), Queued, Waiting);
  }

  lemma ReachesMarked(first: State, path: Path)
    requires Init(first) && path in first.files
    ensures Reaches(first, WithOne(first, path, Running, Marked))
  {
    ReachesWaiting(first, path);
    hide Reaches, Init;
    StepWithOne(first, path, Queued, Waiting, Claim(0), Running, Claimed);
    StepWithOne(first, path, Running, Claimed, MarkRunning(0), Running, Marked);
  }

  lemma ReachesWritten(first: State, path: Path)
    requires Init(first) && path in first.files
    ensures Reaches(first, WithOne(first, path, Running, Written))
  {
    ReachesMarked(first, path);
    hide Reaches, Init;
    var bytes := first.files[path];
    StepWithOne(first, path, Running, Marked, ReadFile(0), Running, Read(bytes));
    StepWithOne(first, path, Running, Read(bytes), LeaveUnchanged(0), Running, Written);
  }

  lemma ReachesReported(first: State, path: Path)
    requires Init(first) && path in first.files
    ensures Reaches(first, WithOne(first, path, Success, Reported))
  {
    ReachesWritten(first, path);
    hide Reaches, Init;
    StepWithOne(first, path, Running, Written, Report(0, Success), Success, Reported);
  }

  // The job has this outcome, and a step that is still to come makes it failed.
  ghost predicate MayFail(s: State, status: Status) {
    && Enabled(s, FailJob(0)) && 0 in s.jobs && s.jobs[0].status == status
    && Do(s, FailJob(0)).jobs[0].status == Failed
  }

  /** A job that succeeded can still become failed: its subtitle row could not be written. */
  lemma SuccessMayFail(first: State, path: Path) returns (s: State)
    requires Init(first) && path in first.files
    ensures Reaches(first, s) && MayFail(s, Success)
  {
    ReachesReported(first, path);
    hide Reaches;
    StepWithOne(first, path, Success, Reported, Err(0), Success, Failing);
    s := WithOne(first, path, Success, Failing);
  }

  lemma ReachesCancelled(first: State, path: Path)
    requires Init(first) && path in first.files
    ensures Reaches(first, WithOne(first, path, Cancelled, Waiting))
  {
    ReachesWaiting(first, path);
    hide Reaches;
    StepWithOne(first, path, Queued, Waiting, Cancel, Cancelled, Waiting);
  }

  /** So can a job that was cancelled while its task waited: the claim could not be written. */
  lemma CancelledMayFail(first: State, path: Path) returns (s: State)
    requires Init(first) && path in first.files
    ensures Reaches(first, s) && MayFail(s, Cancelled)
  {
    ReachesCancelled(first, path);
    hide Reaches, Init, Move;
    StepWithOne(first, path, Cancelled, Waiting, Err(0), Cancelled, Failing);
    s := WithOne(first, path, Cancelled, Failing);
  }
}
