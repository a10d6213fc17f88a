/**
  Jobs, backups and restores over a shared jobs table and a file store: one action per SQL
  statement or file operation, in any interleaving, with crashes and recovery at any point.
  Guards that only delay an action (pausing, memory, parallelism) are dropped, so the model has at
  least the runs of the service. The invariant is kept action by action.
*/
module JobProtocol {
  import opened Text
  import opened Document
  import opened Encoding
  import opened DoubleSubset
  import FontsSection
  import UuCodec

  type Content = seq<UuCodec.byte>
  type Path = string

  datatype Status = Queued | Running | Success | Partial | Failed | Cancelled {
    predicate Active() {
      this == Queued || this == Running
    }
  }

  datatype Mode = Subset | StripEmbedded

  datatype Job = Job(path: Path, mode: Mode, status: Status)

  // Where a job id is: with its sender, in the channel, or with a task, and where the task stands;
  // `bytes` is what it read and `out` what it is going to write.
  datatype Pc =
    | Unsent
    | InChannel
    | Waiting
    | Claimed
    | Marked
    | Read(bytes: Content)
    | Planned(bytes: Content, out: Content)
    | Copied(bytes: Content, out: Content, key: Key)
    | Saved(bytes: Content, out: Content)
    | Written
    | Reported
    | Failing

  // An id on its way or a task, with the path and mode of its row.
  datatype Task = Task(job: nat, path: Path, mode: Mode, pc: Pc)

  // The name of a backup file. The digest in it is taken to be injective, so it is the content.
  datatype Key = Key(folder: string, stamp: nat, digest: Content)

  datatype Row = Row(path: Path, key: Key)

  // The restore transaction, which holds the database's write lock from its first statement on.
  datatype Restore = Idle | Locked(path: Path, key: Key) | Checked(path: Path, key: Key)
                   | Loaded(path: Path, bytes: Content) | Replaced

  datatype Phase = Down | Starting | Requeued | Up

  datatype Writer = Nobody | BySubset | ByOther

  datatype State = State(
    phase: Phase,
    files: map<Path, Content>,
    jobs: map<nat, Job>,
    tasks: map<nat, Task>,
    store: map<Key, Content>,
    rows: set<Row>,
    restore: Restore,
    first: map<Path, Content>,
    writer: map<Path, Writer>)

  datatype Action =
    | AddFile(path: Path, content: Content)
    | Enqueue(job: nat, path: Path, mode: Mode, task: nat)
    | Send(task: nat)
    | Drop(task: nat)
    | Spawn(task: nat)
    | Claim(task: nat)
    | MarkRunning(task: nat)
    | ReadFile(task: nat)
    | Plan(task: nat, out: Content)
    | LeaveUnchanged(task: nat)
    | CopyFile(task: nat, folder: string, stamp: nat)
    | SaveRow(task: nat)
    | WriteFile(task: nat)
    | Report(task: nat, status: Status)
    | Finish(task: nat)
    | Err(task: nat)
    | FailJob(task: nat)
    | Abandon(task: nat)
    | Cancel
    | LockRestore(path: Path, key: Key)
    | CheckRestore
    | LoadRestore
    | ReplaceFile
    | EndRestore
    | Crash
    | Boot
    | Requeue
    | Resend

  // What a subset job writes for the bytes it read: its text with at least one font embedded.
  ghost predicate SubsetWrites(bytes: Content, out: Content) {
    exists base, nl, env: SubsetEnv, blocks: seq<FontsSection.Block> ::
      && IsNewline(nl) && blocks != [] && env.fontLines == FontsSection.SectionLines(blocks)
      && DecodeSubtitle(bytes).Some? && out == EncodeSubtitle(SubsetText(base, nl, env), DecodeSubtitle(bytes).value.1)
  }

  predicate ActiveOn(s: State, path: Path) {
    exists j :: j in s.jobs && s.jobs[j].path == path && s.jobs[j].status.Active()
  }

  // Statements that write to the database wait while a restore holds the lock.
  predicate Unlocked(s: State) {
    s.restore == Idle
  }

  predicate Stands(s: State, task: nat, pc: Pc) {
    task in s.tasks && s.tasks[task].pc == pc && s.tasks[task].job in s.jobs
  }

  predicate Lives(s: State, task: nat) {
    task in s.tasks && s.tasks[task].job in s.jobs
  }

  ghost predicate Enabled(s: State, a: Action) {
    match a
    case AddFile(path, _) => path !in s.files && path !in s.first
    case Enqueue(job, path, _, task) =>
      s.phase == Up && Unlocked(s) && job !in s.jobs && !ActiveOn(s, path) && task !in s.tasks
    case Send(task) => Stands(s, task, Unsent)
    case Drop(task) => Stands(s, task, Unsent) || Stands(s, task, InChannel)
    case Spawn(task) => Stands(s, task, InChannel) && s.jobs[s.tasks[task].job].status == Queued
    case Claim(task) => Stands(s, task, Waiting) && Unlocked(s)
    case MarkRunning(task) => Stands(s, task, Claimed) && Unlocked(s)
    case ReadFile(task) => Stands(s, task, Marked) && s.tasks[task].path in s.files
    case Plan(task, out) =>
      && Lives(s, task) && s.tasks[task].pc.Read?
      && (s.tasks[task].mode == Subset ==>
            Accepted(s.tasks[task].pc.bytes) && SubsetWrites(s.tasks[task].pc.bytes, out))
    case LeaveUnchanged(task) => Lives(s, task) && s.tasks[task].pc.Read?
    case CopyFile(task, _, _) => Lives(s, task) && s.tasks[task].pc.Planned? && s.tasks[task].path in s.files
    case SaveRow(task) => Lives(s, task) && s.tasks[task].pc.Copied? && Unlocked(s)
    case WriteFile(task) => Lives(s, task) && s.tasks[task].pc.Saved?
    case Report(task, status) => Stands(s, task, Written) && Unlocked(s) && (status == Success || status == Partial)
    case Finish(task) => Stands(s, task, Reported) && Unlocked(s)
    case Err(task) => Lives(s, task) && s.tasks[task].pc !in [Unsent, InChannel, Failing]
    case FailJob(task) => Stands(s, task, Failing) && Unlocked(s)
    case Abandon(task) => Stands(s, task, Failing)
    case Cancel => s.phase == Up && Unlocked(s)
    case LockRestore(path, key) => s.phase == Up && Unlocked(s) && Row(path, key) in s.rows
    case CheckRestore => s.restore.Locked? && !ActiveOn(s, s.restore.path)
    case LoadRestore => s.restore.Checked? && s.restore.key in s.store
    case ReplaceFile => s.restore.Loaded?
    case EndRestore => s.restore != Idle
    case Crash => s.phase != Down
    case Boot => s.phase == Down
    case Requeue => s.phase == Starting
    case Resend => s.phase == Requeued
  }

  function At(s: State, task: nat, pc: Pc): State
    requires task in s.tasks
  {
    s.(tasks := s.tasks[task := s.tasks[task].(pc := pc)])
  }

  function SetStatus(s: State, job: nat, status: Status): State
    requires job in s.jobs
  {
    s.(jobs := s.jobs[job := s.jobs[job].(status := status)])
  }

  function Without(s: State, task: nat): State {
    s.(tasks := map t | t in s.tasks && t != task :: s.tasks[t])
  }

  function PutFile(s: State, path: Path, content: Content, writer: Writer): State {
    s.(files := s.files[path := content], writer := s.writer[path := writer])
  }

  // `UPDATE jobs SET status=to WHERE status=from`
  function Move(jobs: map<nat, Job>, from: Status, to: Status): map<nat, Job> {
    map j | j in jobs :: if jobs[j].status == from then jobs[j].(status := to) else jobs[j]
  }

  // Every queued id on its way again, each once.
  function Resent(jobs: map<nat, Job>): map<nat, Task> {
    map j | j in jobs && jobs[j].status == Queued :: Task(j, jobs[j].path, jobs[j].mode, Unsent)
  }

  function WriterOf(mode: Mode): Writer {
    if mode == Subset then BySubset else ByOther
  }

  ghost function Do(s: State, a: Action): State
    requires Enabled(s, a)
  {
    match a
    case AddFile(path, content) => PutFile(s, path, content, Nobody).(first := s.first[path := content])
    case Enqueue(job, path, mode, task) =>
      s.(jobs := s.jobs[job := Job(path, mode, Queued)], tasks := s.tasks[task := Task(job, path, mode, Unsent)])
    case Send(task) => At(s, task, InChannel)
    case Drop(task) => Without(s, task)
    case Spawn(task) => At(s, task, Waiting)
    case Claim(task) =>
      var job := s.tasks[task].job;
      if s.jobs[job].status == Queued then At(SetStatus(s, job, Running), task, Claimed) else Without(s, task)
    case MarkRunning(task) => At(SetStatus(s, s.tasks[task].job, Running), task, Marked)
    case ReadFile(task) => At(s, task, Read(s.files[s.tasks[task].path]))
    case Plan(task, out) => At(s, task, Planned(s.tasks[task].pc.bytes, out))
    case LeaveUnchanged(task) => At(s, task, Written)
    case CopyFile(task, folder, stamp) =>
      var pc := s.tasks[task].pc;
      var key := Key(folder, stamp, pc.bytes);
      At(s.(store := s.store[key := s.files[s.tasks[task].path]]), task, Copied(pc.bytes, pc.out, key))
    case SaveRow(task) =>
      var pc := s.tasks[task].pc;
      At(s.(rows := s.rows + {Row(s.tasks[task].path, pc.key)}), task, Saved(pc.bytes, pc.out))
    case WriteFile(task) =>
      var t := s.tasks[task];
      PutFile(At(s, task, Written), t.path, t.pc.out, WriterOf(t.mode))
    case Report(task, status) => SetStatus(At(s, task, Reported), s.tasks[task].job, status)
    case Finish(task) => Without(s, task)
    case Err(task) => At(s, task, Failing)
    case FailJob(task) => Without(SetStatus(s, s.tasks[task].job, Failed), task)
    case Abandon(task) => Without(s, task)
    case Cancel => s.(jobs := Move(s.jobs, Queued, Cancelled))
    case LockRestore(path, key) => s.(restore := Locked(path, key))
    case CheckRestore => s.(restore := Checked(s.restore.path, s.restore.key))
    case LoadRestore => s.(restore := Loaded(s.restore.path, s.store[s.restore.key]))
    case ReplaceFile => PutFile(s, s.restore.path, s.restore.bytes, ByOther).(restore := Replaced)
    case EndRestore => s.(restore := Idle)
    case Crash => s.(phase := Down, tasks := map[], restore := Idle)
    case Boot => s.(phase := Starting)
    case Requeue => s.(phase := Requeued, jobs := Move(s.jobs, Running, Queued))
    case Resend => s.(phase := Up, tasks := Resent(s.jobs))
  }

  // ----- The invariant -----

  // From the claim to the last write.
  predicate Working(pc: Pc) {
    !pc.Unsent? && !pc.InChannel? && !pc.Waiting? && !pc.Reported? && !pc.Failing?
  }

  predicate HasBytes(pc: Pc) {
    pc.Read? || pc.Planned? || pc.Copied? || pc.Saved?
  }

  predicate HasOut(pc: Pc) {
    pc.Planned? || pc.Copied? || pc.Saved?
  }

  // The file has a backup with this content.
  predicate BackedUp(s: State, path: Path, content: Content) {
    exists row :: row in s.rows && row.path == path && row.key in s.store && s.store[row.key] == content
  }

  // A task and its row: running from the claim to the last write, with a read that still holds
  // and a copy where one was made.
  predicate TaskOk(s: State, t: Task) {
    && t.job in s.jobs && s.jobs[t.job].path == t.path && s.jobs[t.job].mode == t.mode
    && (Working(t.pc) ==> s.jobs[t.job].status == Running)
    && (HasBytes(t.pc) ==> t.path in s.files && s.files[t.path] == t.pc.bytes)
    && (HasOut(t.pc) && t.mode == Subset ==> Accepted(t.pc.bytes) && !Accepted(t.pc.out))
    && (t.pc.Copied? ==> t.pc.key in s.store && t.pc.key.digest == t.pc.bytes)
    && (t.pc.Saved? ==> BackedUp(s, t.path, t.pc.bytes))
  }

  predicate TasksOk(s: State) {
    forall t :: t in s.tasks ==> TaskOk(s, s.tasks[t])
  }

  // At most one queued or running job for a path.
  predicate OneActive(s: State) {
    forall i, j :: i in s.jobs && j in s.jobs && i != j && s.jobs[i].status.Active() && s.jobs[j].status.Active() ==>
      s.jobs[i].path != s.jobs[j].path
  }

  // Every job id is in one place, and nowhere while the process is down or recovering.
  predicate OnePlace(s: State) {
    && (forall t, u :: t in s.tasks && u in s.tasks && t != u ==> s.tasks[t].job != s.tasks[u].job)
    && (s.phase != Up ==> s.tasks == map[] && s.restore == Idle)
  }

  // Backup files hold what their names promise.
  predicate StoreSound(s: State) {
    && (forall k :: k in s.store ==> s.store[k] == k.digest)
    && (forall row :: row in s.rows ==> row.key in s.store && row.path in s.files)
  }

  predicate Untouched(s: State, path: Path) {
    path in s.files && path in s.first && s.files[path] == s.first[path] && forall row :: row in s.rows ==> row.path != path
  }

  // No original is lost.
  predicate OriginalsKept(s: State) {
    && s.first.Keys == s.files.Keys
    && forall path :: path in s.first ==> Untouched(s, path) || BackedUp(s, path, s.first[path])
  }

  // Past its check a restore is alone on its path.
  predicate RestoreAlone(s: State) {
    && (s.restore.Locked? || s.restore.Checked? ==> Row(s.restore.path, s.restore.key) in s.rows)
    && (s.restore.Checked? || s.restore.Loaded? ==> !ActiveOn(s, s.restore.path))
    && (s.restore.Loaded? ==> exists row :: row in s.rows && row.path == s.restore.path)
  }

  // What a subset job wrote is no original.
  predicate SubsetStays(s: State) {
    && s.writer.Keys == s.files.Keys
    && forall path :: path in s.files && s.writer[path] == BySubset ==> !Accepted(s.files[path])
  }

  // The part that does not look at tasks.
  predicate Rest(s: State) {
    OneActive(s) && StoreSound(s) && OriginalsKept(s) && RestoreAlone(s) && SubsetStays(s)
  }

  predicate Inv(s: State) {
    TasksOk(s) && OnePlace(s) && Rest(s)
  }

  // ----- What the parts of an action keep -----

  // A task is fine in any state with the same row, no less backups and the same file.
  lemma SameForTask(s: State, s': State, t: Task)
    requires TaskOk(s, t) && t.job in s'.jobs && s'.jobs[t.job] == s.jobs[t.job]
    requires HasBytes(t.pc) ==> t.path in s'.files && s'.files[t.path] == s.files[t.path]
    requires s.rows <= s'.rows && forall k :: k in s.store ==> k in s'.store && s'.store[k] == s.store[k]
    ensures TaskOk(s', t)
  {
    hide Accepted;
  }

  lemma SameBackups(s: State, s': State, path: Path, content: Content)
    requires s.rows <= s'.rows && forall k :: k in s.store ==> k in s'.store && s'.store[k] == s.store[k]
    ensures BackedUp(s, path, content) ==> BackedUp(s', path, content)
  {
  }

  // Everything but tasks and the phase is the same.
  predicate SameRest(s: State, s': State) {
    && s'.files == s.files && s'.jobs == s.jobs && s'.store == s.store && s'.rows == s.rows
    && s'.restore == s.restore && s'.first == s.first && s'.writer == s.writer
  }

  lemma RestKept(s: State, s': State)
    requires Rest(s) && SameRest(s, s')
    ensures Rest(s')
  {
    hide Accepted;
    forall path | path in s'.first
      ensures Untouched(s', path) || BackedUp(s', path, s'.first[path])
    {
      SameBackups(s, s', path, s.first[path]);
    }
    hide BackedUp;
  }

  lemma MovedTo(s: State, task: nat, pc: Pc)
    requires Inv(s) && task in s.tasks && TaskOk(s, s.tasks[task].(pc := pc))
    ensures Inv(At(s, task, pc))
  {
    var s' := At(s, task, pc);
    RestKept(s, s');
    hide Accepted, Rest;
    assert OnePlace(s') by { hide TaskOk; }
    hide OnePlace;
    forall t | t in s'.tasks
      ensures TaskOk(s', s'.tasks[t])
    {
      SameForTask(s, s', s'.tasks[t]);
    }
  }

  lemma Removed(s: State, task: nat)
    requires Inv(s)
    ensures Inv(Without(s, task))
  {
    var s' := Without(s, task);
    RestKept(s, s');
    hide Accepted, Rest;
    assert OnePlace(s') by { hide TaskOk; }
    hide OnePlace;
    forall t | t in s'.tasks
      ensures TaskOk(s', s'.tasks[t])
    {
      SameForTask(s, s', s'.tasks[t]);
    }
  }

  // The same jobs with other statuses, none of which becomes active.
  predicate Calmer(jobs: map<nat, Job>, before: map<nat, Job>) {
    && jobs.Keys == before.Keys
    && (forall j :: j in jobs ==> jobs[j].path == before[j].path && jobs[j].mode == before[j].mode)
    && (forall j :: j in jobs && jobs[j].status.Active() ==> before[j].status.Active())
  }

  lemma CalmerRest(s: State, jobs: map<nat, Job>)
    requires Rest(s) && Calmer(jobs, s.jobs)
    ensures Rest(s.(jobs := jobs))
  {
    var s' := s.(jobs := jobs);
    hide Accepted;
    assert OriginalsKept(s') by {
      forall path | path in s'.first
        ensures Untouched(s', path) || BackedUp(s', path, s'.first[path])
      {
        SameBackups(s, s', path, s.first[path]);
      }
    }
    hide OriginalsKept, BackedUp, StoreSound, SubsetStays;
    assert StoreSound(s') && SubsetStays(s') by { SoundInFiles(s, s'); }
    forall path | ActiveOn(s', path)
      ensures ActiveOn(s, path)
    {
      var j :| j in s'.jobs && s'.jobs[j].path == path && s'.jobs[j].status.Active();
      assert s.jobs[j].status.Active();
    }
  }

  lemma SoundInFiles(s: State, s': State)
    requires s'.files == s.files && s'.store == s.store && s'.rows == s.rows && s'.writer == s.writer
    ensures StoreSound(s) ==> StoreSound(s')
    ensures SubsetStays(s) ==> SubsetStays(s')
  {
  }

  // Jobs change their status; no job becomes active and none at work stops running.
  lemma StatusesChanged(s: State, jobs: map<nat, Job>)
    requires Inv(s) && Calmer(jobs, s.jobs)
    requires forall t :: t in s.tasks && Working(s.tasks[t].pc) && s.tasks[t].job in jobs ==>
               jobs[s.tasks[t].job].status == Running
    ensures Inv(s.(jobs := jobs))
  {
    var s' := s.(jobs := jobs);
    CalmerRest(s, jobs);
    hide Accepted, Working, Rest;
    assert OnePlace(s') by { hide TaskOk; }
    hide OnePlace;
    forall t | t in s'.tasks
      ensures TaskOk(s', s'.tasks[t])
    {
      StatusForTask(s, s', s'.tasks[t]);
    }
  }

  lemma StatusForTask(s: State, s': State, t: Task)
    requires TaskOk(s, t) && s' == s.(jobs := s'.jobs) && Calmer(s'.jobs, s.jobs)
    requires Working(t.pc) && t.job in s'.jobs ==> s'.jobs[t.job].status == Running
    ensures TaskOk(s', t)
  {
    hide Accepted;
  }

  // ----- Backups and files -----

  lemma AloneAsBefore(s: State, s': State)
    requires s'.jobs == s.jobs && s'.restore == s.restore && s.rows <= s'.rows
    ensures RestoreAlone(s) ==> RestoreAlone(s')
    ensures OneActive(s) ==> OneActive(s')
  {
    assert forall path :: ActiveOn(s', path) <==> ActiveOn(s, path);
  }

  // Tasks rely on no file that changes, and on backups that stay.
  lemma TasksAsBefore(s: State, s': State)
    requires TasksOk(s) && s'.jobs == s.jobs && s'.tasks == s.tasks
    requires forall t :: t in s.tasks && HasBytes(s.tasks[t].pc) ==>
               var path := s.tasks[t].path;
               path in s.files ==> path in s'.files && s'.files[path] == s.files[path]
    requires s.rows <= s'.rows && forall k :: k in s.store ==> k in s'.store && s'.store[k] == s.store[k]
    ensures TasksOk(s')
  {
    forall t | t in s'.tasks
      ensures TaskOk(s', s'.tasks[t])
    {
      SameForTask(s, s', s'.tasks[t]);
    }
  }

  lemma StoreGrown(s: State, key: Key)
    requires Inv(s)
    ensures Inv(s.(store := s.store[key := key.digest]))
  {
    var s' := s.(store := s.store[key := key.digest]);
    hide Accepted, RestoreAlone, OneActive, TaskOk;
    assert forall k :: k in s.store ==> s'.store[k] == s.store[k];
    AloneAsBefore(s, s');
    TasksAsBefore(s, s');
    hide TasksOk;
    forall path | path in s'.first
      ensures Untouched(s', path) || BackedUp(s', path, s'.first[path])
    {
      SameBackups(s, s', path, s.first[path]);
    }
    hide BackedUp;
  }

  lemma RowAdded(s: State, row: Row)
    requires Inv(s) && row.key in s.store && row.path in s.files && s.store[row.key] == s.files[row.path]
    ensures Inv(s.(rows := s.rows + {row}))
    ensures BackedUp(s.(rows := s.rows + {row}), row.path, s.files[row.path])
  {
    var s' := s.(rows := s.rows + {row});
    hide Accepted, RestoreAlone, OneActive, TaskOk;
    AloneAsBefore(s, s');
    TasksAsBefore(s, s');
    hide TasksOk;
    assert row in s'.rows;
    forall path | path in s'.first
      ensures Untouched(s', path) || BackedUp(s', path, s'.first[path])
    {
      SameBackups(s, s', path, s.first[path]);
    }
    hide BackedUp;
  }

  // No task relies on what the file holds.
  predicate Unread(s: State, path: Path) {
    forall t :: t in s.tasks && s.tasks[t].path == path ==> !HasBytes(s.tasks[t].pc)
  }

  lemma OriginalsAfterWrite(s: State, path: Path, content: Content, writer: Writer)
    requires OriginalsKept(s) && path in s.files && exists row :: row in s.rows && row.path == path
    ensures OriginalsKept(PutFile(s, path, content, writer))
  {
    var s' := PutFile(s, path, content, writer);
    forall p | p in s'.first
      ensures Untouched(s', p) || BackedUp(s', p, s'.first[p])
    {
      SameBackups(s, s', p, s.first[p]);
    }
  }

  lemma MarksAfterWrite(s: State, path: Path, content: Content, writer: Writer)
    requires path in s.files && (writer == BySubset ==> !Accepted(content))
    ensures StoreSound(s) ==> StoreSound(PutFile(s, path, content, writer))
    ensures SubsetStays(s) ==> SubsetStays(PutFile(s, path, content, writer))
  {
    hide Accepted;
  }

  lemma TasksAfterWrite(s: State, path: Path, content: Content, writer: Writer)
    requires TasksOk(s) && Unread(s, path)
    ensures TasksOk(PutFile(s, path, content, writer))
  {
    hide TaskOk, TasksOk;
    TasksAsBefore(s, PutFile(s, path, content, writer));
  }

  lemma FileReplaced(s: State, path: Path, content: Content, writer: Writer)
    requires Inv(s) && path in s.files && Unread(s, path) && (writer == BySubset ==> !Accepted(content))
    requires exists row :: row in s.rows && row.path == path
    ensures Inv(PutFile(s, path, content, writer))
  {
    OriginalsAfterWrite(s, path, content, writer);
    MarksAfterWrite(s, path, content, writer);
    TasksAfterWrite(s, path, content, writer);
    AloneAsBefore(s, PutFile(s, path, content, writer));
    hide Accepted, RestoreAlone, OneActive, TasksOk, OriginalsKept, StoreSound, SubsetStays, BackedUp, Unread;
  }

  // ----- What the actions keep -----

  // No two tasks at work share a path.
  lemma AloneAtWork(s: State, task: nat)
    requires Inv(s) && task in s.tasks && Working(s.tasks[task].pc)
    ensures forall u :: u in s.tasks && u != task && s.tasks[u].path == s.tasks[task].path ==> !Working(s.tasks[u].pc)
  {
    hide Rest, Accepted, BackedUp;
    assert TaskOk(s, s.tasks[task]);
    forall u | u in s.tasks && u != task && s.tasks[u].path == s.tasks[task].path
      ensures !Working(s.tasks[u].pc)
    {
      assert TaskOk(s, s.tasks[u]);
      assert s.tasks[u].job != s.tasks[task].job;
      ActiveApart(s, s.tasks[u].job, s.tasks[task].job);
    }
  }

  lemma ActiveApart(s: State, i: nat, j: nat)
    requires Rest(s) && i in s.jobs && j in s.jobs && i != j && s.jobs[i].path == s.jobs[j].path && s.jobs[j].status.Active()
    ensures !s.jobs[i].status.Active()
  {
  }

  lemma TaskIsOk(s: State, task: nat)
    requires Inv(s) && task in s.tasks
    ensures TaskOk(s, s.tasks[task])
  {
  }

  // A new status for the job of a task that is not at work, or that stays running.
  lemma StatusSet(s: State, task: nat, status: Status)
    requires Inv(s) && task in s.tasks
    requires Working(s.tasks[task].pc) ==> status == Running
    requires s.tasks[task].job in s.jobs && (status.Active() ==> s.jobs[s.tasks[task].job].status.Active())
    ensures Inv(SetStatus(s, s.tasks[task].job, status))
  {
    var job := s.tasks[task].job;
    var jobs := SetStatus(s, job, status).jobs;
    forall t | t in s.tasks && Working(s.tasks[t].pc) && s.tasks[t].job in jobs
      ensures jobs[s.tasks[t].job].status == Running
    {
      TaskIsOk(s, t);
    }
    hide Inv;
    assert Calmer(jobs, s.jobs);
    StatusesChanged(s, jobs);
  }

  lemma ClaimKept(s: State, task: nat)
    requires Inv(s) && Stands(s, task, Waiting) && s.jobs[s.tasks[task].job].status == Queued
    ensures Inv(At(SetStatus(s, s.tasks[task].job, Running), task, Claimed))
  {
    var s' := SetStatus(s, s.tasks[task].job, Running);
    hide Inv, Accepted, BackedUp;
    StatusSet(s, task, Running);
    TaskIsOk(s', task);
    MovedTo(s', task, Claimed);
  }

  lemma MarkKept(s: State, task: nat)
    requires Inv(s) && Stands(s, task, Claimed)
    ensures Inv(At(SetStatus(s, s.tasks[task].job, Running), task, Marked))
  {
    hide Inv, Accepted, BackedUp;
    TaskIsOk(s, task);
    StatusSet(s, task, Running);
    var s' := SetStatus(s, s.tasks[task].job, Running);
    TaskIsOk(s', task);
    hide Inv, Accepted;
    MovedTo(s', task, Marked);
  }

  lemma ReadKept(s: State, task: nat)
    requires Inv(s) && Stands(s, task, Marked) && s.tasks[task].path in s.files
    ensures Inv(At(s, task, Read(s.files[s.tasks[task].path])))
  {
    hide Inv, Accepted, BackedUp;
    TaskIsOk(s, task);
    MovedTo(s, task, Read(s.files[s.tasks[task].path]));
  }

  lemma OutIsNoOriginal(bytes: Content, out: Content)
    requires SubsetWrites(bytes, out)
    ensures !Accepted(out)
  {
    hide Accepted, EncodeSubtitle, DecodeSubtitle, SubsetText;
    var base, nl, env: SubsetEnv, blocks: seq<FontsSection.Block> :|
      && IsNewline(nl) && blocks != [] && env.fontLines == FontsSection.SectionLines(blocks)
      && DecodeSubtitle(bytes).Some? && out == EncodeSubtitle(SubsetText(base, nl, env), DecodeSubtitle(bytes).value.1);
    SubsetIsRejected(base, nl, env, blocks, DecodeSubtitle(bytes).value.1);
  }

  lemma PlanKept(s: State, task: nat, out: Content)
    requires Inv(s) && Lives(s, task) && s.tasks[task].pc.Read?
    requires s.tasks[task].mode == Subset ==> Accepted(s.tasks[task].pc.bytes) && SubsetWrites(s.tasks[task].pc.bytes, out)
    ensures Inv(At(s, task, Planned(s.tasks[task].pc.bytes, out)))
  {
    hide Inv, Accepted, SubsetWrites, BackedUp;
    var t := s.tasks[task];
    TaskIsOk(s, task);
    if t.mode == Subset {
      OutIsNoOriginal(t.pc.bytes, out);
    }
    MovedTo(s, task, Planned(t.pc.bytes, out));
  }

  lemma UnchangedKept(s: State, task: nat)
    requires Inv(s) && Lives(s, task) && s.tasks[task].pc.Read?
    ensures Inv(At(s, task, Written))
  {
    hide Inv, Accepted, BackedUp;
    TaskIsOk(s, task);
    MovedTo(s, task, Written);
  }

  lemma CopyKept(s: State, task: nat, folder: string, stamp: nat)
    requires Inv(s) && Lives(s, task) && s.tasks[task].pc.Planned? && s.tasks[task].path in s.files
    ensures var t := s.tasks[task];
            var key := Key(folder, stamp, t.pc.bytes);
            Inv(At(s.(store := s.store[key := s.files[t.path]]), task, Copied(t.pc.bytes, t.pc.out, key)))
  {
    hide Inv, Accepted, BackedUp;
    var t := s.tasks[task];
    var key := Key(folder, stamp, t.pc.bytes);
    TaskIsOk(s, task);
    assert s.files[t.path] == key.digest;
    StoreGrown(s, key);
    var s' := s.(store := s.store[key := key.digest]);
    TaskIsOk(s', task);
    MovedTo(s', task, Copied(t.pc.bytes, t.pc.out, key));
  }

  lemma SaveKept(s: State, task: nat)
    requires Inv(s) && Lives(s, task) && s.tasks[task].pc.Copied?
    ensures var t := s.tasks[task];
            Inv(At(s.(rows := s.rows + {Row(t.path, t.pc.key)}), task, Saved(t.pc.bytes, t.pc.out)))
  {
    var t := s.tasks[task];
    var row := Row(t.path, t.pc.key);
    assert s.store[t.pc.key] == t.pc.bytes by {
      hide Accepted, BackedUp;
      TaskIsOk(s, task);
    }
    hide Inv, Accepted, BackedUp;
    TaskIsOk(s, task);
    RowAdded(s, row);
    var s' := s.(rows := s.rows + {row});
    TaskIsOk(s', task);
    MovedTo(s', task, Saved(t.pc.bytes, t.pc.out));
  }

  lemma WriteKept(s: State, task: nat)
    requires Inv(s) && Lives(s, task) && s.tasks[task].pc.Saved?
    ensures var t := s.tasks[task];
            Inv(PutFile(At(s, task, Written), t.path, t.pc.out, WriterOf(t.mode)))
  {
    hide Inv, Accepted;
    var t := s.tasks[task];
    var s' := At(s, task, Written);
    TaskIsOk(s, task);
    AloneAtWork(s, task);
    MovedTo(s, task, Written);
    assert Unread(s', t.path);
    var row :| row in s.rows && row.path == t.path && row.key in s.store && s.store[row.key] == t.pc.bytes;
    assert row in s'.rows;
    hide BackedUp, TaskOk;
    FileReplaced(s', t.path, t.pc.out, WriterOf(t.mode));
  }

  lemma ReportKept(s: State, task: nat, status: Status)
    requires Inv(s) && Stands(s, task, Written) && !status.Active()
    ensures Inv(SetStatus(At(s, task, Reported), s.tasks[task].job, status))
  {
    hide Inv, Accepted, BackedUp;
    TaskIsOk(s, task);
    MovedTo(s, task, Reported);
    StatusSet(At(s, task, Reported), task, status);
  }

  // To a place where nothing is promised.
  lemma IdleKept(s: State, task: nat, pc: Pc)
    requires Inv(s) && Lives(s, task) && !Working(pc)
    ensures Inv(At(s, task, pc))
  {
    hide Inv, Accepted, BackedUp;
    TaskIsOk(s, task);
    MovedTo(s, task, pc);
  }

  lemma FailKept(s: State, task: nat)
    requires Inv(s) && Stands(s, task, Failing)
    ensures Inv(Without(SetStatus(s, s.tasks[task].job, Failed), task))
  {
    hide Inv;
    StatusSet(s, task, Failed);
    Removed(SetStatus(s, s.tasks[task].job, Failed), task);
  }

  lemma AddKept(s: State, path: Path, content: Content)
    requires Inv(s) && path !in s.files && path !in s.first
    ensures Inv(PutFile(s, path, content, Nobody).(first := s.first[path := content]))
  {
    var s' := PutFile(s, path, content, Nobody).(first := s.first[path := content]);
    hide Accepted, RestoreAlone, OneActive;
    AloneAsBefore(s, s');
    assert TasksOk(s') by {
      hide BackedUp, Rest, OnePlace;
      forall t | t in s.tasks && HasBytes(s.tasks[t].pc)
        ensures s.tasks[t].path != path
      {
        TaskIsOk(s, t);
      }
      hide TaskOk;
      TasksAsBefore(s, s');
    }
    hide TasksOk;
    forall p | p in s'.first
      ensures Untouched(s', p) || BackedUp(s', p, s'.first[p])
    {
      if p != path {
        SameBackups(s, s', p, s.first[p]);
      }
    }
    hide BackedUp;
  }

  lemma EnqueueKept(s: State, job: nat, path: Path, mode: Mode, task: nat)
    requires Inv(s) && s.phase == Up && Unlocked(s) && job !in s.jobs && !ActiveOn(s, path) && task !in s.tasks
    ensures Inv(s.(jobs := s.jobs[job := Job(path, mode, Queued)], tasks := s.tasks[task := Task(job, path, mode, Unsent)]))
  {
    var s' := s.(jobs := s.jobs[job := Job(path, mode, Queued)], tasks := s.tasks[task := Task(job, path, mode, Unsent)]);
    EnqueueRest(s, s', job, path, mode);
    hide Accepted, Rest, BackedUp;
    forall t | t in s'.tasks
      ensures TaskOk(s', s'.tasks[t]) && (t != task ==> s'.tasks[t].job != job)
    {
      if t != task {
        TaskIsOk(s, t);
        SameForTask(s, s', s'.tasks[t]);
      }
    }
    hide TaskOk;
    assert OnePlace(s');
  }

  lemma EnqueueRest(s: State, s': State, job: nat, path: Path, mode: Mode)
    requires Rest(s) && Unlocked(s) && job !in s.jobs && !ActiveOn(s, path)
    requires s' == s.(jobs := s.jobs[job := Job(path, mode, Queued)], tasks := s'.tasks)
    ensures Rest(s')
  {
    SoundInFiles(s, s');
    hide Accepted, StoreSound, SubsetStays;
    forall p | p in s'.first
      ensures Untouched(s', p) || BackedUp(s', p, s'.first[p])
    {
      SameBackups(s, s', p, s.first[p]);
    }
    hide BackedUp;
    assert OneActive(s');
  }

  lemma CancelKept(s: State)
    requires Inv(s)
    ensures Inv(s.(jobs := Move(s.jobs, Queued, Cancelled)))
  {
    hide Inv, Accepted, BackedUp;
    forall t | t in s.tasks && Working(s.tasks[t].pc) && s.tasks[t].job in s.jobs
      ensures s.jobs[s.tasks[t].job].status == Running
    {
      TaskIsOk(s, t);
    }
    StatusesChanged(s, Move(s.jobs, Queued, Cancelled));
  }

  lemma RequeueKept(s: State)
    requires Inv(s) && s.phase == Starting
    ensures Inv(s.(phase := Requeued, jobs := Move(s.jobs, Running, Queued)))
  {
    StatusesChanged(s, Move(s.jobs, Running, Queued));
    var s1 := s.(jobs := Move(s.jobs, Running, Queued));
    RestKept(s1, s1.(phase := Requeued));
    hide Rest;
  }

  lemma CrashKept(s: State)
    requires Inv(s)
    ensures Inv(s.(phase := Down, tasks := map[], restore := Idle))
  {
    var s1 := s.(restore := Idle);
    RestoreMoved(s, Idle);
    hide Rest;
    RestKept(s1, s1.(phase := Down, tasks := map[]));
  }

  lemma BootKept(s: State)
    requires Inv(s) && s.phase == Down
    ensures Inv(s.(phase := Starting))
  {
    RestKept(s, s.(phase := Starting));
    hide Rest;
  }

  lemma ResendKept(s: State)
    requires Inv(s)
    ensures Inv(s.(phase := Up, tasks := Resent(s.jobs)))
  {
    RestKept(s, s.(phase := Up, tasks := Resent(s.jobs)));
    hide Rest;
  }

  // A restore may go on only to a place that keeps it alone.
  lemma RestoreMoved(s: State, restore: Restore)
    requires Rest(s) && RestoreAlone(s.(restore := restore))
    ensures Rest(s.(restore := restore))
  {
    var s' := s.(restore := restore);
    hide Accepted, RestoreAlone;
    SoundInFiles(s, s');
    forall p | p in s'.first
      ensures Untouched(s', p) || BackedUp(s', p, s'.first[p])
    {
      SameBackups(s, s', p, s.first[p]);
    }
    hide BackedUp, StoreSound, SubsetStays;
  }

  lemma RestoreKept(s: State, restore: Restore)
    requires Inv(s) && RestoreAlone(s.(restore := restore)) && (s.phase != Up ==> restore == Idle)
    ensures Inv(s.(restore := restore))
  {
    var s' := s.(restore := restore);
    RestoreMoved(s, restore);
    hide Rest, RestoreAlone, Accepted;
    assert OnePlace(s') by { hide TaskOk; }
    hide OnePlace;
    forall t | t in s'.tasks
      ensures TaskOk(s', s'.tasks[t])
    {
      TaskIsOk(s, t);
      SameForTask(s, s', s'.tasks[t]);
    }
  }

  lemma SameActive(s: State, s': State, path: Path)
    requires s'.jobs == s.jobs
    ensures ActiveOn(s', path) == ActiveOn(s, path)
  {
  }

  lemma CheckKept(s: State)
    requires Inv(s) && s.restore.Locked? && !ActiveOn(s, s.restore.path)
    ensures Inv(s.(restore := Checked(s.restore.path, s.restore.key)))
  {
    SameActive(s, s.(restore := Checked(s.restore.path, s.restore.key)), s.restore.path);
    RestoreKept(s, Checked(s.restore.path, s.restore.key));
  }

  lemma LoadKept(s: State)
    requires Inv(s) && s.restore.Checked? && s.restore.key in s.store
    ensures Inv(s.(restore := Loaded(s.restore.path, s.store[s.restore.key])))
  {
    SameActive(s, s.(restore := Loaded(s.restore.path, s.store[s.restore.key])), s.restore.path);
    assert Row(s.restore.path, s.restore.key) in s.rows;
    RestoreKept(s, Loaded(s.restore.path, s.store[s.restore.key]));
  }

  // No task works on a path without an active job.
  lemma NobodyReads(s: State, path: Path)
    requires Inv(s) && !ActiveOn(s, path)
    ensures Unread(s, path)
  {
    forall t | t in s.tasks && s.tasks[t].path == path
      ensures !HasBytes(s.tasks[t].pc)
    {
      TaskIsOk(s, t);
      assert s.jobs[s.tasks[t].job].path == path;
    }
  }

  lemma ReplaceKept(s: State)
    requires Inv(s) && s.restore.Loaded?
    ensures Inv(PutFile(s, s.restore.path, s.restore.bytes, ByOther).(restore := Replaced))
  {
    var (path, bytes) := (s.restore.path, s.restore.bytes);
    NobodyReads(s, path);
    assert path in s.files;
    FileReplaced(s, path, bytes, ByOther);
    hide Inv;
    RestoreKept(PutFile(s, path, bytes, ByOther), Replaced);
  }

  // A step of one task.
  predicate OfTask(a: Action) {
    || a.Claim? || a.MarkRunning? || a.ReadFile? || a.Plan? || a.LeaveUnchanged? || a.CopyFile? || a.SaveRow?
    || a.WriteFile? || a.Report? || a.Finish? || a.Err? || a.FailJob? || a.Abandon?
  }

  lemma TaskStepKept(s: State, a: Action)
    requires Inv(s) && Enabled(s, a) && OfTask(a)
    ensures Inv(Do(s, a))
  {
    hide Inv, ActiveOn, Accepted, SubsetWrites;
    match a
    case Claim(task) =>
      if s.jobs[s.tasks[task].job].status == Queued {
        ClaimKept(s, task);
      } else {
        Removed(s, task);
      }
    case MarkRunning(task) => MarkKept(s, task);
    case ReadFile(task) => ReadKept(s, task);
    case Plan(task, out) => PlanKept(s, task, out);
    case LeaveUnchanged(task) => UnchangedKept(s, task);
    case CopyFile(task, folder, stamp) => CopyKept(s, task, folder, stamp);
    case SaveRow(task) => SaveKept(s, task);
    case WriteFile(task) => WriteKept(s, task);
    case Report(task, status) => ReportKept(s, task, status);
    case Finish(task) => Removed(s, task);
    case Err(task) => IdleKept(s, task, Failing);
    case FailJob(task) => FailKept(s, task);
    case Abandon(task) => Removed(s, task);
  }

  lemma OtherStepKept(s: State, a: Action)
    requires Inv(s) && Enabled(s, a) && !OfTask(a)
    ensures Inv(Do(s, a))
  {
    hide Inv, ActiveOn, Accepted, SubsetWrites;
    match a
    case AddFile(path, content) => AddKept(s, path, content);
    case Enqueue(job, path, mode, task) => EnqueueKept(s, job, path, mode, task);
    case Send(task) => IdleKept(s, task, InChannel);
    case Drop(task) => Removed(s, task);
    case Spawn(task) => IdleKept(s, task, Waiting);
    case Cancel => CancelKept(s);
    case LockRestore(path, key) => LockKept(s, path, key);
    case CheckRestore => CheckKept(s);
    case LoadRestore => LoadKept(s);
    case ReplaceFile => ReplaceKept(s);
    case EndRestore => EndKept(s);
    case Crash => CrashKept(s);
    case Boot => BootKept(s);
    case Requeue => RequeueKept(s);
    case Resend => ResendKept(s);
  }

  /** Every action keeps the invariant, whatever the interleaving. */
  lemma StepKeepsInv(s: State, a: Action)
    requires Inv(s) && Enabled(s, a)
    ensures Inv(Do(s, a))
  {
    hide *;
    if OfTask(a) {
      TaskStepKept(s, a);
    } else {
      OtherStepKept(s, a);
    }
  }

  lemma LockKept(s: State, path: Path, key: Key)
    requires Inv(s) && s.phase == Up && Row(path, key) in s.rows
    ensures Inv(s.(restore := Locked(path, key)))
  {
    RestoreKept(s, Locked(path, key));
  }

  lemma EndKept(s: State)
    requires Inv(s)
    ensures Inv(s.(restore := Idle))
  {
    RestoreKept(s, Idle);
  }
}
