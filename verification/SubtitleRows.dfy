/**
  One path's subtitle row and jobs: when a skip is worth trusting.
*/
module SubtitleRows {
  import opened Text
  import opened ScanFilter

  // ----- Rows and jobs -----

  // The upsert of the scan and of an upload: the file's data are replaced, the outcome of the last
  // job stays.
  function Refreshed(row: Option<Row>, f: File, digest: Digest): Row {
    match row
    case None => Row(f.size, f.mtime, digest, None, None, None)
    case Some(known) => known.(size := f.size, mtime := f.mtime, digest := digest)
  }

  // The active job of the path; `running` jobs know the configuration and revision they read.
  datatype Job = Job(id: nat, running: bool, config: string, revision: nat)

  // What is still to be written to the subtitle row after a job's own row has ended.
  datatype Due = Outcome(file: File, config: string, status: Status, revision: int) | Failure

  // `worked` are the contents jobs finished with.
  datatype State = State(file: File, row: Option<Row>, job: Option<Job>, due: map<nat, Due>, next: nat, worked: set<Content>)

  datatype Action =
    | Edit(file: File)                        // a new version of the file, not while a job runs
    | Enqueue(file: File)                     // `enqueue_candidate_tx`, with the file as the scan found it
    | Register(file: File)                    // `register_uploaded_subtitle`
    | Sync(file: File)                        // `sync_subtitle_meta`
    | Mark(file: File, config: string, revision: nat) // `mark_already_subsetted`
    | Request                                 // `enqueue_subtitle_id`, `retry_job`
    | Claim(config: string, revision: nat)
    | Write(file: File)
    | Finish(status: Status)                  // the job's row ends
    | Record(id: nat)                         // the subtitle row follows
    | Fail
    | FailLate(id: nat)                       // the subtitle row could not be written
    | RecordFailure(id: nat)
    | Cancel
    | Restore(file: File)
    | Crash

  predicate Running(s: State) {
    s.job.Some? && s.job.value.running
  }

  predicate Enabled(s: State, a: Action) {
    match a
    case Edit(_) => !Running(s)
    case Enqueue(f) => !f.content.marked
    case Register(_) => true
    case Sync(f) => s.row.Some? && !f.content.marked
    case Mark(f, _, _) => f.content.marked
    case Request => s.row.Some? && s.job.None?
    case Claim(_, _) => s.job.Some? && !s.job.value.running
    case Write(_) => Running(s)
    case Finish(status) => Running(s) && (status == Success || status == Partial)
    case Record(id) => id in s.due && s.due[id].Outcome?
    case Fail => s.job.Some?
    case FailLate(id) => id in s.due && s.due[id].Outcome?
    case RecordFailure(id) => id in s.due && s.due[id].Failure?
    case Cancel => s.job.Some? && !s.job.value.running
    case Restore(_) => s.job.None?
    case Crash => true
  }

  function WithJob(s: State): State {
    if s.job.Some? then s else s.(job := Some(Job(s.next, false, "", 0)), next := s.next + 1)
  }

  function Recorded(row: Row, o: Due): Row
    requires o.Outcome?
  {
    Row(o.file.size, o.file.mtime, Of(o.file.content), Some(o.config), Some(o.status), Some(o.revision))
  }

  function Do(s: State, a: Action): State
    requires Enabled(s, a)
  {
    match a
    case Edit(f) => s.(file := f)
    case Enqueue(f) => WithJob(s.(row := Some(Refreshed(s.row, f, Of(f.content)))))
    case Register(f) => s.(row := Some(Refreshed(s.row, f, Of(f.content))))
    case Sync(f) => s.(row := Some(Refreshed(s.row, f, Of(f.content))))
    case Mark(f, config, revision) =>
      var row := Refreshed(s.row, f, Fingerprint(f.size, f.mtime));
      s.(row := Some(if s.row.Some? then row
                     else row.(config := Some(config), status := Some(AlreadySubset), revision := Some(AsI64(revision)))))
    case Request => WithJob(s)
    case Claim(config, revision) => s.(job := Some(Job(s.job.value.id, true, config, revision)))
    case Write(f) => s.(file := f)
    case Finish(status) =>
      var j := s.job.value;
      s.(job := None, due := s.due[j.id := Outcome(s.file, j.config, status, AsI64(j.revision))],
         worked := s.worked + {s.file.content})
    case Record(id) =>
      s.(row := if s.row.Some? then Some(Recorded(s.row.value, s.due[id])) else None, due := s.due - {id})
    case Fail => s.(job := None, due := s.due[s.job.value.id := Failure])
    case FailLate(id) => s.(due := s.due[id := Failure])
    case RecordFailure(id) =>
      s.(row := if s.row.Some? then Some(s.row.value.(status := Some(Failed))) else None, due := s.due - {id})
    case Cancel => s.(job := None)
    case Restore(f) =>
      s.(file := f,
         row := if s.row.Some? then Some(Row(f.size, f.mtime, NoDigest, None, Some(Restored), None)) else None)
    case Crash => s.(job := if Running(s) then Some(s.job.value.(running := false)) else s.job, due := map[])
  }

  predicate Init(s: State) {
    s.row == None && s.job == None && s.due == map[] && s.worked == {}
  }

  datatype Run = Run(states: seq<State>, actions: seq<Action>)

  ghost predicate IsRun(r: Run) {
    && |r.states| == |r.actions| + 1 && Init(r.states[0])
    && forall i :: 0 <= i < |r.actions| ==>
         Enabled(r.states[i], r.actions[i]) && r.states[i + 1] == Do(r.states[i], r.actions[i])
  }

  // ----- Where the row's data come from -----

  datatype Source = Nowhere | Refresh(file: File) | Marking(file: File) | OfJob(file: File) | Restoring(file: File)

  // The last step up to `k` that wrote the row's size, time and digest.
  ghost function LastSource(r: Run, k: nat): Source
    requires IsRun(r) && k < |r.states|
    decreases k
  {
    if k == 0 then Nowhere
    else
      var s, a := r.states[k - 1], r.actions[k - 1];
      match a
      case Enqueue(f) => Refresh(f)
      case Register(f) => Refresh(f)
      case Sync(f) => Refresh(f)
      case Mark(f, _, _) => Marking(f)
      case Record(id) => if s.row.Some? then OfJob(s.due[id].file) else LastSource(r, k - 1)
      case Restore(f) => if s.row.Some? then Restoring(f) else LastSource(r, k - 1)
      case _ => LastSource(r, k - 1)
  }

  predicate RowFits(row: Option<Row>, source: Source, worked: set<Content>) {
    match source
    case Nowhere => row.None?
    case Refresh(f) => row.Some? && row.value.size == f.size && row.value.mtime == f.mtime && row.value.digest == Of(f.content)
    case Marking(f) =>
      && row.Some? && row.value.size == f.size && row.value.mtime == f.mtime && f.content.marked
      && row.value.digest == Fingerprint(f.size, f.mtime)
    case OfJob(f) =>
      && row.Some? && row.value.size == f.size && row.value.mtime == f.mtime && row.value.digest == Of(f.content)
      && f.content in worked
    case Restoring(f) =>
      && row.Some? && row.value.size == f.size && row.value.mtime == f.mtime && row.value.digest == NoDigest
      && row.value.config == None
  }

  predicate DueWorked(s: State) {
    forall id :: id in s.due && s.due[id].Outcome? ==> s.due[id].file.content in s.worked
  }

  lemma {:induction false} SourceFits(r: Run, k: nat)
    requires IsRun(r) && k < |r.states|
    ensures RowFits(r.states[k].row, LastSource(r, k), r.states[k].worked) && DueWorked(r.states[k])
    decreases k
  {
    if k > 0 {
      SourceFits(r, k - 1);
      var s, a := r.states[k - 1], r.actions[k - 1];
      assert Enabled(s, a) && r.states[k] == Do(s, a);
    }
  }

  // The last step up to `k` that wrote what became of a job: its outcome, or none after a recorded
  // failure or a restore.
  ghost function LastOutcome(r: Run, k: nat): Option<Due>
    requires IsRun(r) && k < |r.states|
    decreases k
  {
    if k == 0 then None
    else
      var s, a := r.states[k - 1], r.actions[k - 1];
      match a
      case Record(id) => if s.row.Some? then Some(s.due[id]) else LastOutcome(r, k - 1)
      case RecordFailure(_) => None
      case Restore(_) => None
      case _ => LastOutcome(r, k - 1)
  }

  predicate Succeeded(outcome: Option<Due>, config: string, revision: nat) {
    outcome.Some? && outcome.value.Outcome? && outcome.value.config == config
    && (outcome.value.status == Success || (outcome.value.status == Partial && outcome.value.revision == AsI64(revision)))
  }

  // The row says so exactly when the last job outcome recorded in it was that, with no failure and
  // no restore since.
  lemma {:induction false} DoneIsSucceeded(r: Run, k: nat, config: string, revision: nat)
    requires IsRun(r) && k < |r.states|
    ensures r.states[k].row.Some? && Done(r.states[k].row.value, config, revision)
            <==> Succeeded(LastOutcome(r, k), config, revision)
    decreases k
  {
    if k > 0 {
      DoneIsSucceeded(r, k - 1, config, revision);
      var s, a := r.states[k - 1], r.actions[k - 1];
      assert Enabled(s, a) && r.states[k] == Do(s, a);
    }
  }

  // ----- What a skip is worth -----

  // The row was refreshed from this very content after the last outcome, marking or restore.
  ghost predicate RefreshedSince(r: Run, k: nat, c: Content)
    requires IsRun(r) && k < |r.states|
  {
    LastSource(r, k).Refresh? && LastSource(r, k).file.content == c
  }

  // The row's data are those of another content that has the same size and time.
  ghost predicate Collides(r: Run, k: nat, f: File)
    requires IsRun(r) && k < |r.states|
  {
    var source := LastSource(r, k);
    source != Nowhere && source.file.size == f.size && source.file.mtime == f.mtime && source.file.content != f.content
  }

  /**
    When the filter skips a content that no job ever finished with: exactly when no job is active,
    the last recorded outcome is success, or partial at this revision, under this configuration,
    with no failure and no restore since, and the row was refreshed from this content after that
    outcome, or another content had the same size and time.
  */
  lemma {:induction false} SkippedUnworked(r: Run, k: nat, config: string, revision: nat)
    requires IsRun(r) && k < |r.states|
    requires r.states[k].file.content !in r.states[k].worked && !r.states[k].file.content.marked
    ensures var s := r.states[k];
            Skips(s.row, s.job.Some?, s.file, config, revision)
            <==> s.job.None? && Succeeded(LastOutcome(r, k), config, revision)
                 && (RefreshedSince(r, k, s.file.content) || Collides(r, k, s.file))
  {
    SourceFits(r, k);
    DoneIsSucceeded(r, k, config, revision);
    hide IsRun, Done, Succeeded;
  }

  // ----- Reached states -----

  ghost predicate Reaches(first: State, last: State) {
    exists r: Run :: IsRun(r) && r.states[0] == first && r.states[|r.actions|] == last
  }

  lemma AtFirst(s: State)
    requires Init(s)
    ensures Reaches(s, s)
  {
    var r := Run([s], []);
    assert IsRun(r) && r.states[0] == s;
  }

  lemma Extend(first: State, s: State, a: Action)
    requires Reaches(first, s) && Enabled(s, a)
    ensures Reaches(first, Do(s, a))
  {
    hide Enabled, Do, Init;
    var r: Run :| IsRun(r) && r.states[0] == first && r.states[|r.actions|] == s;
    var longer := Run(r.states + [Do(s, a)], r.actions + [a]);
    assert IsRun(longer) && longer.states[0] == first && longer.states[|longer.actions|] == Do(s, a);
  }

  // A new file, converted by its first job.
  function Converted(f: File, config: string, status: Status, revision: nat): State {
    State(f, Some(Row(f.size, f.mtime, Of(f.content), Some(config), Some(status), Some(AsI64(revision)))),
          None, map[], 1, {f.content})
  }

  lemma ReachesConverted(first: State, config: string, status: Status, revision: nat)
    requires Init(first) && first.next == 0 && !first.file.content.marked && (status == Success || status == Partial)
    ensures Reaches(first, Converted(first.file, config, status, revision))
  {
    var f := first.file;
    AtFirst(first);
    hide Reaches;
    var queued := Do(first, Enqueue(f));
    var running := Do(queued, Claim(config, revision));
    var ended := Do(running, Finish(status));
    Extend(first, first, Enqueue(f));
    Extend(first, queued, Claim(config, revision));
    Extend(first, running, Finish(status));
    Extend(first, ended, Record(0));
    assert Do(ended, Record(0)) == Converted(f, config, status, revision);
  }

  /**
    A new version whose job is cancelled before it starts is skipped from then on: after a success,
    or a partial conversion at an unchanged revision.
  */
  lemma CancelledIsSkipped(first: State, f: File, config: string, status: Status, revision: nat) returns (s: State)
    requires Init(first) && first.next == 0 && !first.file.content.marked && (status == Success || status == Partial)
    requires f.content != first.file.content && !f.content.marked
    ensures Reaches(first, s) && s.file == f && f.content !in s.worked
    ensures Skips(s.row, s.job.Some?, s.file, config, revision)
  {
    ReachesConverted(first, config, status, revision);
    hide Reaches;
    var converted := Converted(first.file, config, status, revision);
    var edited := Do(converted, Edit(f));
    var queued := Do(edited, Enqueue(f));
    Extend(first, converted, Edit(f));
    Extend(first, edited, Enqueue(f));
    Extend(first, queued, Cancel);
    s := Do(queued, Cancel);
  }

  /** So is a new version that is uploaded, without any job. */
  lemma UploadedIsSkipped(first: State, f: File, config: string, status: Status, revision: nat) returns (s: State)
    requires Init(first) && first.next == 0 && !first.file.content.marked && (status == Success || status == Partial)
    requires f.content != first.file.content && !f.content.marked
    ensures Reaches(first, s) && s.file == f && f.content !in s.worked
    ensures Skips(s.row, s.job.Some?, s.file, config, revision)
  {
    ReachesConverted(first, config, status, revision);
    hide Reaches;
    var converted := Converted(first.file, config, status, revision);
    var edited := Do(converted, Edit(f));
    Extend(first, converted, Edit(f));
    Extend(first, edited, Register(f));
    s := Do(edited, Register(f));
  }

  // ----- Due again -----

  // The filter asks for the file to be converted.
  predicate IsDue(s: State, config: string, revision: nat) {
    Filter(s.row, s.job.Some?, s.file, config, revision) == Convert
  }

  /** A file that a job finished with is due again, at the same revision, when a crash lost the job's late record. */
  lemma LostIsDue(first: State, config: string, status: Status, revision: nat) returns (s: State)
    requires Init(first) && first.next == 0 && !first.file.content.marked && (status == Success || status == Partial)
    ensures Reaches(first, s) && s.file == first.file && s.file.content in s.worked && IsDue(s, config, revision)
  {
    ReachesEnded(first, config, status, revision);
    hide Reaches;
    var ended := JustEnded(first.file, config, status, revision);
    Extend(first, ended, Crash);
    s := Do(ended, Crash);
  }

  /** So it is when the record could not be written, which makes the file a failed one. */
  lemma UnrecordedIsDue(first: State, config: string, status: Status, revision: nat) returns (s: State)
    requires Init(first) && first.next == 0 && !first.file.content.marked && (status == Success || status == Partial)
    ensures Reaches(first, s) && s.file == first.file && s.file.content in s.worked && IsDue(s, config, revision)
  {
    ReachesEnded(first, config, status, revision);
    hide Reaches;
    var ended := JustEnded(first.file, config, status, revision);
    var late := Do(ended, FailLate(0));
    Extend(first, ended, FailLate(0));
    Extend(first, late, RecordFailure(0));
    s := Do(late, RecordFailure(0));
  }

  /** And when a restore brings any version back, the converted one included. */
  lemma RestoredIsDue(first: State, f: File, config: string, status: Status, revision: nat) returns (s: State)
    requires Init(first) && first.next == 0 && !first.file.content.marked && (status == Success || status == Partial)
    requires !f.content.marked
    ensures Reaches(first, s) && s.file == f && first.file.content in s.worked && IsDue(s, config, revision)
  {
    ReachesConverted(first, config, status, revision);
    hide Reaches;
    var converted := Converted(first.file, config, status, revision);
    Extend(first, converted, Restore(f));
    s := Do(converted, Restore(f));
  }

  // A new file whose first job has ended, with its row still to follow.
  function JustEnded(f: File, config: string, status: Status, revision: nat): State {
    State(f, Some(Row(f.size, f.mtime, Of(f.content), None, None, None)), None,
          map[0 := Outcome(f, config, status, AsI64(revision))], 1, {f.content})
  }

  lemma ReachesEnded(first: State, config: string, status: Status, revision: nat)
    requires Init(first) && first.next == 0 && !first.file.content.marked && (status == Success || status == Partial)
    ensures Reaches(first, JustEnded(first.file, config, status, revision))
  {
    AtFirst(first);
    hide Reaches;
    var queued := Do(first, Enqueue(first.file));
    var running := Do(queued, Claim(config, revision));
    Extend(first, first, Enqueue(first.file));
    Extend(first, queued, Claim(config, revision));
    Extend(first, running, Finish(status));
    assert Do(running, Finish(status)) == JustEnded(first.file, config, status, revision);
  }
}
